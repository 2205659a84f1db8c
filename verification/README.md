# HATVP declaration extraction and consolidation, in Dafny

This project models the pure core of `scripts/generate-elus.py`. That script enriches a list of
French elected officials ("élus") with data from the asset and interest declarations published
by the HATVP, the French authority for transparency in public life. The model covers four parts:

- **Identity matching and selection** (`names.dfy`, `index.dfy`, `sorting.dfy`).
  - The official's name is normalised: decomposed, accents dropped, lowercased, runs of `-` and
    whitespace collapsed to one space, then stripped.
  - The index rows whose normalised `nom`/`prenom` match are kept.
  - They are stable-sorted newest first by filing date.
  - The newest row of the asset family (`DSP`, `DSPM`) and of the interest family (`DI`, `DIM`)
    are picked.
  - The XML address of a row is built by a small string rule.
- **Tolerant extraction from an element tree** (`xml.dfy`, `records.dfy`, `schema.dfy`,
  `declaration.dfy`).
  - `xml_text` is modelled, and so are `find`/`findall` for the three path shapes the code uses.
  - The nine section parsers are one table-driven extractor. Each output attribute is the first
    non-empty candidate path.
  - Items are enumerated from `.//items/items`, falling back to `.//items`.
  - Items without text are skipped, and placeholders are dropped by a per-kind keep condition.
  - The family block, the observations and the metadata of a declaration are modelled too.
- **Amount parsing** (`amount.dfy`). `parse_montant` removes spaces and U+00A0, maps `,` to
  `.`, strips, and parses a signed decimal into an exact rational.
- **Consolidation and aggregation** (`consolidate.dfy`, `resume.dfy`).
  - Modelled: the selection and merge logic of `fetch_hatvp_complete_for_elu`, the sums and counts
    of `build_resume_complet`, and `update_elu_in_list`.
  - Downloading is a parameter `load`, and parsing the bytes is a parameter `parse`. The
    generator's own parser is `Consolidate.HatvpParser`.

Behaviours of the code worth knowing (the model follows them):

- `parse_montant("0")` is `0.0`, not "absent".
- An amount with a currency sign, such as `"12 500,00 €"`, does not parse. Neither does
  `"1,157.30"`: it becomes `"1.157.30"`.
- Among rows of the same family with equal dates, the first in index order is retained, because
  the sort is stable and `next` takes the first.
- There is no identifier-based matching and no reporting of homonyms.
- `update_elu_in_list` replaces `hatvp_complete` wholesale. It does not merge.
- A second declaration never changes the family situation.

## Model

| member | source | states |
|---|---|---|
| Names.NormalizeNameShape | scripts/generate-elus.py:233-239 | a normalised name contains no `-`, only spaces as separators, never two spaces in a row, and no whitespace at either end |
| Names.NormalizeNameAnySeparator | scripts/generate-elus.py:237 | replacing one hyphen or whitespace character by another does not change the key |
| Names.NormalizeNameSeparatorRun | scripts/generate-elus.py:237 | a run of two separators gives the same key as a single one |
| Names.NormalizeCanonical | scripts/generate-elus.py:233-239 | a name already in canonical form, and fixed by the character mapping, is its own key |
| Names.NormalizeNameIdempotent | scripts/generate-elus.py:233-239 | normalising twice equals normalising once, when the decompose, drop-marks and lowercase pass fixes the first result |
| Names.CollapseSeparators | scripts/generate-elus.py:237 | the collapse pass leaves only single spaces as separators |
| Names.AccentAndHyphenExample | scripts/generate-elus.py:233-239 | "Yaël Braun-Pivet" and "yael   braun pivet" both normalise to "yael braun pivet" |
| Text.StripSpec | scripts/generate-elus.py:237 | `strip` returns the contiguous slice between the leading and trailing whitespace, with no whitespace at its edges |
| Text.StripNoEdgeSpace | scripts/generate-elus.py:237 | stripping a string without edge whitespace changes nothing |
| Text.FirstNonEmpty | scripts/generate-elus.py:248-249 | an `a or b or c` chain gives "" exactly when every alternative is empty, and otherwise the first non-empty one |
| Index.Or | scripts/generate-elus.py:248 | a two-way `or` of strings gives its first operand when that is non-empty and its second otherwise, so it is empty exactly when both are |
| Index.GetDeclarationTypePadded | scripts/generate-elus.py:287-289 | whitespace around a non-empty `typeDeclaration` value changes neither the type read from the row nor its DSP or DI family membership |
| Index.PaddedLowerCaseType | scripts/generate-elus.py:287-289 | the value " dspm " reads as the type "DSPM", which puts the row in the DSP family |
| Index.FindDeclarationsSpec | scripts/generate-elus.py:242-269 | the result holds exactly the index rows with a non-empty name that match both normalised names, each as often as in the index, newest first, with rows of equal date in index order |
| Index.FindDeclarationsCount | scripts/generate-elus.py:242-269 | the result has as many rows as the index has matching rows |
| Index.ResolveFile | scripts/generate-elus.py:278-282 | a file name becomes the HATVP base address followed by the name, with ".xml" appended unless already present |
| Index.GetXmlUrlCases | scripts/generate-elus.py:272-284 | an `http…` url column is returned as is; otherwise the address is absent exactly when the first non-empty of the three file columns and the url text strips to nothing, and when present it is the base address plus the file name, ending in ".xml" |
| Index.GetXmlUrlHttp | scripts/generate-elus.py:272-284 | every address produced starts with "http" and has no whitespace at its ends |
| Index.GetXmlUrlRoundTrip | scripts/generate-elus.py:272-276 | a row holding only a produced address in its url column resolves to that same address |
| Index.LatestDeclarationNone | scripts/generate-elus.py:966-967 | no row is retained for a family exactly when no matching row has a type of that family |
| Index.LatestDeclarationPicked | scripts/generate-elus.py:966-967 | a retained row is a matching index row whose type is in the family |
| Index.LatestDeclarationLatest | scripts/generate-elus.py:966-967 | no matching row of the family has a strictly later filing date than the retained one |
| Index.LatestDeclarationFirst | scripts/generate-elus.py:966-967 | among the rows of the family with the retained row's date, the retained one comes first in index order |
| Index.FamiliesDisjoint | scripts/generate-elus.py:75-76 | no row belongs to both the asset family and the interest family |
| Sorting.SortDescCorrect | scripts/generate-elus.py:267 | the date sort yields a permutation of its input in non-increasing key order |
| Sorting.SortDescStable | scripts/generate-elus.py:267 | the sort is stable: the elements sharing a key keep their relative order |
| Sorting.SelectLatest | scripts/generate-elus.py:966-967 | the first element of the sorted list meeting a condition exists exactly when one does; it has the largest key among them and is the first of those with that key in input order |
| Seqs.FirstIndex | scripts/generate-elus.py:1159-1160 | the position of the first element meeting a condition, or the length when none does |
| Xml.XmlText | scripts/generate-elus.py:315-324 | when the first node found has a stripped text that is neither empty nor the "[Données non publiées]" marker, the result is that text; otherwise it is ""; it never has edge whitespace |
| Xml.XmlBoolLatin | scripts/generate-elus.py:327-329 | with Latin case mapping, a flag is set exactly when its stripped text is "true" in any mix of capitals |
| Xml.IsSectionEmptyLatin | scripts/generate-elus.py:343-348 | with Latin case mapping, a section is empty exactly when it is missing or its `neant` text is "true" in any mix of capitals |
| Xml.NeantTrueEmpties | scripts/generate-elus.py:343-348 | a `neant` of " True " empties its section |
| Xml.NeantFalseKeeps | scripts/generate-elus.py:343-348 | a `neant` of "false" does not empty its section |
| Xml.Find | scripts/generate-elus.py:319 | `find` returns the first node `findall` returns, or none when that list is empty |
| Xml.FindDescendantFound | scripts/generate-elus.py:827-828 | a `.//tag` search finds a node exactly when some descendant carries that tag |
| Xml.Items | scripts/generate-elus.py:364 | items come from `.//items/items` when that is non-empty, otherwise from `.//items` |
| Records.BuildRecordFields | scripts/generate-elus.py:378-399 | a record has exactly the attributes of its table, and each holds its rule's value when the names are distinct |
| Records.AmountChosenBeforeParsing | scripts/generate-elus.py:371-376 | a monetary attribute whose first non-empty candidate does not parse is absent, even when a later candidate would parse |
| Records.ParseSection | scripts/generate-elus.py:359-361 | a missing section, or one whose `neant` is "true", gives no records; every record emitted passes the kind's keep condition |
| Records.ExtractItemsInOrder | scripts/generate-elus.py:364-406 | records come out in item order, as a subsequence of the records the items would build |
| Records.ExtractItemsKeepsEmitters | scripts/generate-elus.py:364-406 | every item that has a text child and whose record passes the keep condition is emitted |
| Records.ExtractItemsOnlyEmitters | scripts/generate-elus.py:364-406 | every emitted record is the record of an item with a text child that passes the keep condition |
| Records.ExtractItemsAppend | scripts/generate-elus.py:364-406 | extracting from two item lists one after the other is extracting from their concatenation |
| Records.ParseSectionShape | scripts/generate-elus.py:378-399 | every emitted record has exactly its table's attributes, and constant attributes hold their literal |
| Records.ParseSectionsFrom | scripts/generate-elus.py:621-706 | every record of a multi-section parser comes from one of its sections |
| Records.ParseSectionsConst | scripts/generate-elus.py:621-706 | when every table starts with the same constant attribute, every record carries one of its literals |
| Records.ParseSectionSingleText | scripts/generate-elus.py:855 | a section kept on one text attribute only emits records where that attribute is non-empty |
| Schema.KindRecordsTyped | scripts/generate-elus.py:379 | every record of a kind's list carries the kind's `type` value |
| Schema.PretsKept | scripts/generate-elus.py:569 | a loan is emitted only when its borrowed amount or its outstanding capital parsed |
| Schema.ImmobilierKept | scripts/generate-elus.py:507 | a real-estate record is emitted only when its nature, address or value is present |
| Schema.MandatsKept | scripts/generate-elus.py:750 | an elective mandate is emitted only when its nature or its role is non-empty |
| Amount.ParseMontant | scripts/generate-elus.py:332-335 | the empty string gives no amount |
| Amount.ParseMontantIgnoresSpaces | scripts/generate-elus.py:337 | inserting a space or a U+00A0 anywhere does not change the result |
| Amount.ParseMontantCommaIsPoint | scripts/generate-elus.py:337 | a comma reads exactly as a decimal point |
| Amount.ParseMontantTwoSeparators | scripts/generate-elus.py:337-340 | two decimal separators, commas or points, make parsing fail |
| Amount.ParseMontantForeignChar | scripts/generate-elus.py:337-340 | any character other than the ASCII digits 0-9, whitespace, signs, the point, the comma and the no-break space, such as a currency sign, makes parsing fail |
| Amount.ParseMontantNat | scripts/generate-elus.py:338-339 | a decimal numeral parses to its value |
| Amount.ParseMontantFrench | scripts/generate-elus.py:337-339 | "euros,cents" with two cent digits parses to euros + cents/100 |
| Amount.ParseMontantNegative | scripts/generate-elus.py:338-339 | a leading minus sign negates the value |
| Amount.ExampleFrenchAmount | scripts/generate-elus.py:332-340 | "1 157,30" parses to 1157.30 |
| Amount.ExampleZeroAmount | scripts/generate-elus.py:332-340 | "0" parses to 0, while "" gives no amount |
| Amount.ExampleCurrencySign | scripts/generate-elus.py:332-340 | "12 500,00 €" gives no amount |
| Amount.ExampleThousandsComma | scripts/generate-elus.py:332-340 | "1,157.30" gives no amount |
| Declarations.ExtendIdentity | scripts/generate-elus.py:1020-1027 | extending per-kind lists by empty lists, on either side, changes nothing |
| Declarations.ExtendAssociative | scripts/generate-elus.py:1020-1027 | extending per-kind lists is associative, so consolidating declarations in turn concatenates their lists |
| Declarations.DeclarationRecordsTyped | scripts/generate-elus.py:907-917 | every record a parsed declaration lists under a kind carries one of that kind's type names and passed the keep rule of the section that produced it |
| Declarations.ParseFamille | scripts/generate-elus.py:811-858 | the family situation is the `situationFamiliale` label, or its code when the label is empty; there is a spouse exactly when a `conjoint` element exists, with exactly the spouse attributes; an empty children section gives no children |
| Declarations.EnfantsDated | scripts/generate-elus.py:850-856 | every child kept has a non-empty birth date |
| Declarations.ConjointNom | scripts/generate-elus.py:829-830 | the spouse's `nom` is the text of its `nom` child |
| Declarations.ObservationsPresent | scripts/generate-elus.py:861-872 | the observations are "" exactly when all four fields are empty, and otherwise start with the first non-empty one |
| Declarations.JoinNonEmpty | scripts/generate-elus.py:872 | joining non-empty parts is "" exactly when there are none, and starts with the first part |
| Declarations.MetaText | scripts/generate-elus.py:891-905 | a metadata text is the stripped text of the first element at that path when that is neither empty nor the withheld-data marker, and "" otherwise |
| Declarations.ParseMetadata | scripts/generate-elus.py:891-892 | the type label is the label text when present, else the type code, and empty exactly when both are |
| Declarations.ParseDeclarationSpec | scripts/generate-elus.py:879-934 | a declaration is produced exactly when the document parsed, and it keeps the address it was given |
| Consolidate.Retrieve | scripts/generate-elus.py:989-1017 | a declaration is retrieved only for a selected row that has an XML address |
| Consolidate.ConsolidationHoldings | scripts/generate-elus.py:1020-1027 | each list of the profile is the asset declaration's list followed by the interest declaration's, and a declaration not retrieved contributes nothing |
| Consolidate.ConsolidationEntries | scripts/generate-elus.py:1040-1052 | the profile carries the stripped names, and the observations and metadata entries of the retrieved declarations, asset declaration first |
| Consolidate.ConsolidationFamille | scripts/generate-elus.py:1029-1038 | the family is the merge of the retrieved declarations' blocks, and none when nothing was retrieved |
| Consolidate.FoldFamilleMerged | scripts/generate-elus.py:1029-1038 | merging blocks one by one gives the first block's situation, the spouse of the last block that has one, and all children in order |
| Consolidate.FoldAppend | scripts/generate-elus.py:1029-1038 | merging two runs of blocks in turn is merging their concatenation |
| Consolidate.ConsolidationFound | scripts/generate-elus.py:952-963 | there is no profile exactly when a stripped name is empty or no index row matches; otherwise the count is the number of matching rows |
| Consolidate.RetrieveUrl | scripts/generate-elus.py:993-1015 | with a parser that keeps its address, a retrieved declaration's address is the row's XML address |
| Consolidate.HatvpParserKeepsUrl | scripts/generate-elus.py:896 | the generator's parser records the address it was given |
| Consolidate.ConsolidationUrls | scripts/generate-elus.py:1045-1050 | every declaration entry of a profile has an `http…` address |
| Resume.TotalAppend | scripts/generate-elus.py:1067-1074 | the sum over two lists together is the sum of their sums |
| Resume.TotalIgnoresUnpriced | scripts/generate-elus.py:1067-1074 | records without an amount add nothing: the sum equals the sum over the priced records |
| Resume.ResumeCounts | scripts/generate-elus.py:1076-1088 | every count is its list's length, even for records without an amount; net = gross − debts, and gross is the four asset values |
| Resume.SumsOfConcatenation | scripts/generate-elus.py:1067-1077 | for lists that are two declarations' lists one after the other, gross assets, debts and income are the sums of both |
| Resume.ResumeOfConsolidation | scripts/generate-elus.py:1067-1077 | a consolidated profile's gross assets, debts, income and net assets are those of the asset declaration plus those of the interest declaration |
| Resume.ResumeChildrenOfConsolidation | scripts/generate-elus.py:1102 | the summary counts every child of every retrieved declaration's family block |
| Resume.UpdateEluInList | scripts/generate-elus.py:1146-1166 | the first official with the id gets the summary; every other official, and every official when none has the id, is unchanged, and the list keeps its length |

## Left out

- Network, disk and CSV decoding are not modelled: `http_get`, `download_xml`, `load_hatvp_index`
  and the XML cache. Index rows are given as string maps. A download is a parameter
  `load: string -> Download`, where `Failed` is a failed download and `Fetched(None)` is a
  document `ET.fromstring` rejected. The `{}` result for such a document is `None`.
- Unicode internals are parameters `CaseOps` of character functions: NFD decomposition, the
  combining-mark test, `lower` and `upper`. `LatinOps` is one instance covering ASCII and
  French accented letters, used for worked examples.
- Names.NormalizeNameIdempotent: assumes the character mapping fixes the normalised key, because
  `lower` can reintroduce combining marks.
- Date parsing with `strptime` and three formats is a parameter `parseDate: string -> Option<nat>`.
  Key 0 stands for `datetime.min`.
- Amounts are exact rationals over the grammar `[+-]? digits [. digits]` (or `.digits`).
  Python `float()` extras are not modelled: exponents, `inf`/`nan`, underscores. Neither are
  binary floating point and `round(…, 2)` in the summary.
- Amount.ParseMontantForeignChar: only the ASCII digits 0-9 count as digits. Python's `float()`
  also reads the other Unicode decimal digits (Arabic-Indic "\u0663" reads as 3.0, for
  instance); the model rejects an amount written with them. Such digits are not expected in the
  declarations.
- Resume.AmountOf: a non-amount value under an amount key counts as 0. The generator never
  builds one.
- Consolidation is stated for any parser `Parser`. The generator's instance is
  `Consolidate.HatvpParser`; the address property needs only that the parser keeps its address.
- Clock-dependent logic is not modelled: `scraped_at` / `utcnow` and the age check of
  `has_hatvp_data`.
- The dry-run and verbose branches of `fetch_hatvp_complete_for_elu` and
  `parse_declaration_xml` are not modelled. They only log, or record a placeholder entry
  without downloading.
- Driver code is not modelled: GitHub Actions logging, argument parsing, progress files,
  `save_elus`, `save_incremental`, `save_detailed_data`, `find_elu_by_name` and the batch loop
  of `main`.
- `scripts/scrape-photos.py` is not part of this model. It downloads pictures over HTTP and draws
  placeholders from a per-process randomised hash.
- `update_elu_in_list` mutates the matched dict in place. The model returns a new list with the
  same effect.
