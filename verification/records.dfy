/** Table-driven extraction of one declaration section: every output attribute is the first
    non-empty candidate of an ordered list of paths, items without any text are skipped and
    placeholder records are dropped by a keep condition. */
module Records {
  import opened Wrappers
  import opened Text
  import opened Xml
  import Amount
  import Seqs

  /** An attribute value: a string, an optional amount or a flag. */
  datatype Value = Str(s: string) | Money(amount: Option<real>) | Flag(b: bool)

  /** One output record (a Python dict). */
  type Record = map<string, Value>

  /** How one attribute is computed from an item. */
  datatype FieldRule =
    | Const(name: string, literal: string)                  // "type": "pret_bancaire"
    | TextField(name: string, candidates: seq<Path>)        // xml_text(a) or xml_text(b) or ""
    | AmountField(name: string, candidates: seq<Path>)      // parse_montant(xml_text(a) or ...)
    | BoolField(name: string, path: Path)                   // xml_bool(item, path)

  /** The texts of the candidate paths, in order. */
  function CandidateTexts(item: Node, candidates: seq<Path>): (r: seq<string>)
    ensures |r| == |candidates|
    ensures forall k :: 0 <= k < |candidates| ==> r[k] == XmlText(item, candidates[k])
  {
    seq(|candidates|, k requires 0 <= k < |candidates| => XmlText(item, candidates[k]))
  }

  /** The Python `or` chain over candidate paths: the first non-empty `xml_text`, else "". */
  function FirstText(item: Node, candidates: seq<Path>): string {
    FirstNonEmpty(CandidateTexts(item, candidates))
  }

  /** The value a rule gives for an item. A monetary attribute parses the first non-empty
      candidate string, so an unparseable first candidate is not replaced by a later one. */
  function FieldValue(ops: CaseOps, item: Node, rule: FieldRule): Value {
    match rule
    case Const(_, literal) => Str(literal)
    case TextField(_, candidates) => Str(FirstText(item, candidates))
    case AmountField(_, candidates) => Money(Amount.ParseMontant(FirstText(item, candidates)))
    case BoolField(_, path) => Flag(XmlBool(ops, item, path))
  }

  /** The names a table of rules defines. */
  function Names(rules: seq<FieldRule>): set<string> {
    set i | 0 <= i < |rules| :: rules[i].name
  }

  /** No two rules of the table share a name. */
  predicate DistinctNames(rules: seq<FieldRule>) {
    forall i, j :: 0 <= i < j < |rules| ==> rules[i].name != rules[j].name
  }

  /** A dict built from key/value pairs, later pairs overriding earlier ones. */
  function ToMap(keys: seq<string>, values: seq<Value>): (m: Record)
    requires |keys| == |values|
    ensures m.Keys == set i | 0 <= i < |keys| :: keys[i]
    ensures (forall i, j :: 0 <= i < j < |keys| ==> keys[i] != keys[j]) ==>
              forall i :: 0 <= i < |keys| ==> m[keys[i]] == values[i]
  {
    if keys == [] then map[]
    else
      var n := |keys| - 1;
      var m := ToMap(keys[..n], values[..n])[keys[n] := values[n]];
      assert (set i | 0 <= i < |keys| :: keys[i]) == (set i | 0 <= i < n :: keys[..n][i]) + {keys[n]} by {
        assert forall i :: 0 <= i < n ==> keys[..n][i] == keys[i];
      }
      assert forall i :: 0 <= i < n ==> keys[..n][i] == keys[i] && values[..n][i] == values[i];
      m
  }

  /** The record of an item: one attribute per rule, named by the rule. */
  function BuildRecord(ops: CaseOps, item: Node, rules: seq<FieldRule>): Record {
    ToMap(RuleNames(rules), seq(|rules|, i requires 0 <= i < |rules| => FieldValue(ops, item, rules[i])))
  }

  /** The rule names, in table order. */
  function RuleNames(rules: seq<FieldRule>): (r: seq<string>)
    ensures |r| == |rules|
    ensures forall i :: 0 <= i < |rules| ==> r[i] == rules[i].name
    ensures (set i | 0 <= i < |r| :: r[i]) == Names(rules)
  {
    var r := seq(|rules|, i requires 0 <= i < |rules| => rules[i].name);
    assert forall x :: x in Names(rules) ==> x in set i | 0 <= i < |r| :: r[i] by {
      forall x | x in Names(rules)
        ensures x in set i | 0 <= i < |r| :: r[i]
      {
        var i :| 0 <= i < |rules| && x == rules[i].name;
        assert x == r[i];
      }
    }
    r
  }

  /** A record has exactly the attributes its table names; with distinct names, each holds the
      value of its rule. */
  lemma BuildRecordFields(ops: CaseOps, item: Node, rules: seq<FieldRule>)
    ensures BuildRecord(ops, item, rules).Keys == Names(rules)
    ensures DistinctNames(rules) ==>
              forall i :: 0 <= i < |rules| ==> BuildRecord(ops, item, rules)[rules[i].name] == FieldValue(ops, item, rules[i])
  {
    var keys := RuleNames(rules);
    var values := seq(|rules|, i requires 0 <= i < |rules| => FieldValue(ops, item, rules[i]));
    assert DistinctNames(rules) ==> forall i, j :: 0 <= i < j < |keys| ==> keys[i] != keys[j];
  }

  /** The attribute `name` holds a non-empty string. */
  predicate TextPresent(rec: Record, name: string) {
    name in rec && rec[name].Str? && rec[name].s != ""
  }

  /** The attribute `name` holds an amount (not `None`). */
  predicate AmountPresent(rec: Record, name: string) {
    name in rec && rec[name].Money? && rec[name].amount.Some?
  }

  /** A record is kept when one of the listed strings is non-empty or one of the listed amounts
      is present. */
  datatype KeepRule = KeepRule(texts: seq<string>, amounts: seq<string>)

  predicate Keeps(keep: KeepRule, rec: Record) {
    || (exists i :: 0 <= i < |keep.texts| && TextPresent(rec, keep.texts[i]))
    || (exists i :: 0 <= i < |keep.amounts| && AmountPresent(rec, keep.amounts[i]))
  }

  /** One section parser: the section's tag, its attribute table and its keep condition. */
  datatype SectionSpec = SectionSpec(tag: string, fields: seq<FieldRule>, keep: KeepRule)

  /** The record each item would give, whether or not it is kept. */
  function Built(ops: CaseOps, items: seq<Node>, spec: SectionSpec): (r: seq<Record>)
    ensures |r| == |items|
    ensures forall i :: 0 <= i < |items| ==> r[i] == BuildRecord(ops, items[i], spec.fields)
  {
    seq(|items|, i requires 0 <= i < |items| => BuildRecord(ops, items[i], spec.fields))
  }

  /** An item with record `rec` is emitted when it has a text child and `rec` passes `keep`. */
  predicate Emitted(item: Node, rec: Record, keep: KeepRule) {
    HasTextChild(item) && Keeps(keep, rec)
  }

  /** The filtering loop over items paired with their records. */
  function Select(items: seq<Node>, recs: seq<Record>, keep: KeepRule): (r: seq<Record>)
    requires |items| == |recs|
    ensures |r| <= |items|
    ensures forall k :: 0 <= k < |r| ==> Keeps(keep, r[k])
  {
    if items == [] then []
    else (if Emitted(items[0], recs[0], keep) then [recs[0]] else []) + Select(items[1..], recs[1..], keep)
  }

  lemma {:induction false} SelectInOrder(items: seq<Node>, recs: seq<Record>, keep: KeepRule)
    requires |items| == |recs|
    ensures Seqs.IsSubseq(Select(items, recs, keep), recs)
  {
    if items != [] {
      var rest := Select(items[1..], recs[1..], keep);
      SelectInOrder(items[1..], recs[1..], keep);
      assert recs == [recs[0]] + recs[1..];
      if Emitted(items[0], recs[0], keep) {
        assert Select(items, recs, keep) == [recs[0]] + rest;
        assert ([recs[0]] + rest)[1..] == rest;
      } else {
        assert Select(items, recs, keep) == rest;
        Seqs.SubseqCons(rest, recs[1..], recs[0]);
      }
    }
  }

  lemma {:induction false} SelectKeeps(items: seq<Node>, recs: seq<Record>, keep: KeepRule, i: nat)
    requires |items| == |recs| && i < |items| && Emitted(items[i], recs[i], keep)
    ensures recs[i] in Select(items, recs, keep)
  {
    if i > 0 {
      assert items[1..][i - 1] == items[i] && recs[1..][i - 1] == recs[i];
      SelectKeeps(items[1..], recs[1..], keep, i - 1);
    }
  }

  lemma {:induction false} SelectOnly(items: seq<Node>, recs: seq<Record>, keep: KeepRule, k: nat)
    requires |items| == |recs| && k < |Select(items, recs, keep)|
    ensures exists i :: 0 <= i < |items| && Emitted(items[i], recs[i], keep) && Select(items, recs, keep)[k] == recs[i]
  {
    var r := Select(items, recs, keep);
    var rest := Select(items[1..], recs[1..], keep);
    var emit := Emitted(items[0], recs[0], keep);
    if !(emit && k == 0) {
      var k' := if emit then k - 1 else k;
      assert r[k] == rest[k'];
      SelectOnly(items[1..], recs[1..], keep, k');
      var i :| 0 <= i < |items[1..]| && Emitted(items[1..][i], recs[1..][i], keep) && rest[k'] == recs[1..][i];
      assert items[1..][i] == items[i + 1] && recs[1..][i] == recs[i + 1];
    }
  }

  lemma {:induction false} SelectAppend(a: seq<Node>, ra: seq<Record>, b: seq<Node>, rb: seq<Record>, keep: KeepRule)
    requires |a| == |ra| && |b| == |rb|
    ensures Select(a + b, ra + rb, keep) == Select(a, ra, keep) + Select(b, rb, keep)
  {
    if a == [] {
      assert a + b == b && ra + rb == rb;
    } else {
      assert (a + b)[1..] == a[1..] + b && (ra + rb)[1..] == ra[1..] + rb;
      SelectAppend(a[1..], ra[1..], b, rb, keep);
    }
  }

  /** The loop of every section parser over the enumerated items. */
  function ExtractItems(ops: CaseOps, items: seq<Node>, spec: SectionSpec): (r: seq<Record>)
    ensures |r| <= |items|
    ensures forall k :: 0 <= k < |r| ==> Keeps(spec.keep, r[k])
  {
    Select(items, Built(ops, items, spec), spec.keep)
  }

  /** An item is emitted when it has a text child and its record passes the keep condition. */
  predicate Emits(ops: CaseOps, item: Node, spec: SectionSpec) {
    Emitted(item, BuildRecord(ops, item, spec.fields), spec.keep)
  }

  /** Records come out in item order: they form a subsequence of the built records. */
  lemma ExtractItemsInOrder(ops: CaseOps, items: seq<Node>, spec: SectionSpec)
    ensures Seqs.IsSubseq(ExtractItems(ops, items, spec), Built(ops, items, spec))
  {
    SelectInOrder(items, Built(ops, items, spec), spec.keep);
  }

  /** Every emitting item's record is in the output. */
  lemma ExtractItemsKeepsEmitters(ops: CaseOps, items: seq<Node>, spec: SectionSpec, i: nat)
    requires i < |items| && Emits(ops, items[i], spec)
    ensures BuildRecord(ops, items[i], spec.fields) in ExtractItems(ops, items, spec)
  {
    SelectKeeps(items, Built(ops, items, spec), spec.keep, i);
  }

  /** Every output record is the record of an emitting item. */
  lemma ExtractItemsOnlyEmitters(ops: CaseOps, items: seq<Node>, spec: SectionSpec, k: nat)
    requires k < |ExtractItems(ops, items, spec)|
    ensures exists i :: 0 <= i < |items| && Emits(ops, items[i], spec)
                        && ExtractItems(ops, items, spec)[k] == BuildRecord(ops, items[i], spec.fields)
  {
    SelectOnly(items, Built(ops, items, spec), spec.keep, k);
  }

  /** Extraction distributes over concatenated item lists. */
  lemma ExtractItemsAppend(ops: CaseOps, a: seq<Node>, b: seq<Node>, spec: SectionSpec)
    ensures ExtractItems(ops, a + b, spec) == ExtractItems(ops, a, spec) + ExtractItems(ops, b, spec)
  {
    var ra, rb := Built(ops, a, spec), Built(ops, b, spec);
    assert Built(ops, a + b, spec) == ra + rb;
    SelectAppend(a, ra, b, rb, spec.keep);
  }

  /** The section of a document a parser reads: the first `.//tag` element. */
  function Section(root: Node, spec: SectionSpec): Option<Node> {
    Find(root, Descendant(spec.tag))
  }

  /** One section parser (`parse_instruments_financiers` and its siblings). A missing section or
      one marked `neant` gives no record whatever items it holds. */
  function ParseSection(ops: CaseOps, root: Node, spec: SectionSpec): (r: seq<Record>)
    ensures IsSectionEmpty(ops, Section(root, spec)) ==> r == []
    ensures forall k :: 0 <= k < |r| ==> Keeps(spec.keep, r[k])
  {
    var section := Section(root, spec);
    if IsSectionEmpty(ops, section) then [] else ExtractItems(ops, Items(section.value), spec)
  }

  /** A parser reading several sections one after the other (`parse_revenus_activites`,
      `parse_fonctions_dirigeantes`). */
  function ParseSections(ops: CaseOps, root: Node, specs: seq<SectionSpec>): (r: seq<Record>)
    ensures forall k :: 0 <= k < |r| ==> exists j :: 0 <= j < |specs| && Keeps(specs[j].keep, r[k])
  {
    if specs == [] then []
    else
      var first := ParseSection(ops, root, specs[0]);
      var rest := ParseSections(ops, root, specs[1..]);
      assert forall k :: 0 <= k < |rest| ==> exists j :: 0 <= j < |specs| && Keeps(specs[j].keep, rest[k]) by {
        forall k | 0 <= k < |rest|
          ensures exists j :: 0 <= j < |specs| && Keeps(specs[j].keep, rest[k])
        {
          var j :| 0 <= j < |specs[1..]| && Keeps(specs[1..][j].keep, rest[k]);
          assert specs[1..][j] == specs[j + 1];
        }
      }
      first + rest
  }

  /** Every record a section parser emits has exactly the attributes of its table, and with
      distinct names each constant attribute holds its literal. */
  lemma ParseSectionShape(ops: CaseOps, root: Node, spec: SectionSpec, k: nat)
    requires k < |ParseSection(ops, root, spec)|
    ensures ParseSection(ops, root, spec)[k].Keys == Names(spec.fields)
    ensures DistinctNames(spec.fields) ==>
              forall i :: 0 <= i < |spec.fields| && spec.fields[i].Const? ==>
                ParseSection(ops, root, spec)[k][spec.fields[i].name] == Str(spec.fields[i].literal)
  {
    var section := Section(root, spec);
    var items := Items(section.value);
    ExtractItemsOnlyEmitters(ops, items, spec, k);
    var i :| 0 <= i < |items| && Emits(ops, items[i], spec)
             && ExtractItems(ops, items, spec)[k] == BuildRecord(ops, items[i], spec.fields);
    BuildRecordFields(ops, items[i], spec.fields);
  }

  /** Every record of a multi-section parser is a record of one of its sections. */
  lemma {:induction false} ParseSectionsFrom(ops: CaseOps, root: Node, specs: seq<SectionSpec>, k: nat)
    requires k < |ParseSections(ops, root, specs)|
    ensures exists j, m :: 0 <= j < |specs| && 0 <= m < |ParseSection(ops, root, specs[j])|
                           && ParseSections(ops, root, specs)[k] == ParseSection(ops, root, specs[j])[m]
  {
    var first := ParseSection(ops, root, specs[0]);
    var rest := ParseSections(ops, root, specs[1..]);
    assert ParseSections(ops, root, specs) == first + rest;
    if k < |first| {
      assert ParseSections(ops, root, specs)[k] == ParseSection(ops, root, specs[0])[k];
    } else {
      ParseSectionsFrom(ops, root, specs[1..], k - |first|);
      var j, m :| 0 <= j < |specs[1..]| && 0 <= m < |ParseSection(ops, root, specs[1..][j])|
                  && rest[k - |first|] == ParseSection(ops, root, specs[1..][j])[m];
      assert specs[1..][j] == specs[j + 1];
    }
  }

  /** A section kept on one text attribute only emits records where that attribute is non-empty. */
  lemma ParseSectionSingleText(ops: CaseOps, root: Node, spec: SectionSpec, name: string, k: nat)
    requires spec.keep == KeepRule([name], [])
    requires k < |ParseSection(ops, root, spec)|
    ensures TextPresent(ParseSection(ops, root, spec)[k], name)
  {
    assert Keeps(spec.keep, ParseSection(ops, root, spec)[k]);
  }

  /** A table whose names are distinct and whose first rule is the constant `name`. */
  predicate LeadsWithConst(spec: SectionSpec, name: string, literals: set<string>) {
    DistinctNames(spec.fields) && |spec.fields| > 0 && spec.fields[0].Const?
    && spec.fields[0].name == name && spec.fields[0].literal in literals
  }

  /** When every section's table leads with the constant `name`, every record of the
      multi-section parser carries one of those literals under `name`. */
  lemma ParseSectionsConst(ops: CaseOps, root: Node, specs: seq<SectionSpec>, name: string, literals: set<string>, n: nat)
    requires forall j :: 0 <= j < |specs| ==> LeadsWithConst(specs[j], name, literals)
    requires n < |ParseSections(ops, root, specs)|
    ensures name in ParseSections(ops, root, specs)[n]
    ensures var v := ParseSections(ops, root, specs)[n][name]; v.Str? && v.s in literals
  {
    ParseSectionsFrom(ops, root, specs, n);
    var j, m :| 0 <= j < |specs| && 0 <= m < |ParseSection(ops, root, specs[j])|
                && ParseSections(ops, root, specs)[n] == ParseSection(ops, root, specs[j])[m];
    ParseSectionShape(ops, root, specs[j], m);
    assert specs[j].fields[0].name in Names(specs[j].fields);
  }

  /** A monetary attribute whose first non-empty candidate does not parse is `None`, whatever
      the later candidates hold. */
  lemma AmountChosenBeforeParsing(ops: CaseOps, item: Node, name: string, candidates: seq<Path>, k: nat)
    requires k < |candidates|
    requires forall j :: 0 <= j < k ==> XmlText(item, candidates[j]) == ""
    requires XmlText(item, candidates[k]) != ""
    requires Amount.ParseMontant(XmlText(item, candidates[k])) == None
    ensures FieldValue(ops, item, AmountField(name, candidates)) == Money(None)
  {
    var ts := CandidateTexts(item, candidates);
    var m := FirstNonEmptyIndex(ts);
    assert ts[k] != "";
    assert m == k;
  }
}
