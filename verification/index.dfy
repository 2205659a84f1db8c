/** The declaration index: matching an elected official's rows by normalised name, ordering them
    by filing date, reading a row's declaration type and XML address, and picking the most
    recent declaration of a family. */
module Index {
  import opened Wrappers
  import opened Text
  import opened Names
  import opened Sorting
  import Seqs

  /** One row of the index CSV; a column the file lacks is absent from the map. */
  type Row = map<string, string>

  /** `row.get(k)` where a missing column reads as "" (both are falsy). */
  function Field(row: Row, k: string): string {
    if k in row then row[k] else ""
  }

  /** Python's `a or b` on strings. */
  function Or(a: string, b: string): (r: string)
    ensures r == "" <==> a == "" && b == ""
    ensures a != "" ==> r == a
    ensures a == "" ==> r == b
  {
    if a != "" then a else b
  }

  /** `row.get(a) or row.get(b) or row.get(c) or ""`: the first non-empty of three columns. */
  function FirstField(row: Row, a: string, b: string, c: string): string {
    Or(Field(row, a), Or(Field(row, b), Field(row, c)))
  }

  /** The declarant's family name and given name as the row spells them. */
  function RowNom(row: Row): string {
    Strip(FirstField(row, "nom", "Nom", "nomDeclarant"))
  }

  function RowPrenom(row: Row): string {
    Strip(FirstField(row, "prenom", "Prenom", "prenomDeclarant"))
  }

  /** A row belongs to the official whose normalised names are `normPrenom` and `normNom`:
      it has a family name and both names normalise to the official's. */
  predicate Matches(ops: CaseOps, normPrenom: string, normNom: string, row: Row) {
    RowNom(row) != ""
    && NormalizeName(ops, RowNom(row)) == normNom
    && NormalizeName(ops, RowPrenom(row)) == normPrenom
  }

  function Matcher(ops: CaseOps, normPrenom: string, normNom: string): Row -> bool {
    row => Matches(ops, normPrenom, normNom, row)
  }

  /** The sort key of a row: its filing date, parsed by `parseDate` (the `strptime` attempts
      over the three accepted formats, as an ordinal), or 0 — `datetime.min` — when none parses. */
  function DateKey(parseDate: string -> Option<nat>, row: Row): int {
    match parseDate(Strip(FirstField(row, "dateDepot", "DateDepot", "date_depot")))
    case None => 0
    case Some(d) => d
  }

  function DateKeyOf(parseDate: string -> Option<nat>): Row -> int {
    row => DateKey(parseDate, row)
  }

  /** The official's rows, in index order. */
  function Matching(ops: CaseOps, index: seq<Row>, prenom: string, nom: string): seq<Row> {
    Seqs.Filter(index, Matcher(ops, NormalizeName(ops, prenom), NormalizeName(ops, nom)))
  }

  /** `find_declarations_for_elu`: the official's rows, most recent first. */
  function FindDeclarationsForElu(ops: CaseOps, parseDate: string -> Option<nat>, index: seq<Row>,
                                  prenom: string, nom: string): (r: seq<Row>)
    ensures |r| <= |index|
  {
    SortDesc(Matching(ops, index, prenom, nom), DateKeyOf(parseDate))
  }

  /** The result holds exactly the matching rows of the index, as often as the index holds them,
      in descending date order, with rows of equal date in index order. */
  lemma FindDeclarationsSpec(ops: CaseOps, parseDate: string -> Option<nat>, index: seq<Row>,
                             prenom: string, nom: string)
    ensures forall row :: row in FindDeclarationsForElu(ops, parseDate, index, prenom, nom) <==>
                          row in index && Matches(ops, NormalizeName(ops, prenom), NormalizeName(ops, nom), row)
    ensures multiset(FindDeclarationsForElu(ops, parseDate, index, prenom, nom)) == multiset(Matching(ops, index, prenom, nom))
    ensures SortedDesc(FindDeclarationsForElu(ops, parseDate, index, prenom, nom), DateKeyOf(parseDate))
    ensures forall v :: WithKey(FindDeclarationsForElu(ops, parseDate, index, prenom, nom), DateKeyOf(parseDate), v)
                        == WithKey(Matching(ops, index, prenom, nom), DateKeyOf(parseDate), v)
  {
    var np, nn := NormalizeName(ops, prenom), NormalizeName(ops, nom);
    var m := Matcher(ops, np, nn);
    var r := FindDeclarationsForElu(ops, parseDate, index, prenom, nom);
    SortFilterSpec(index, m, DateKeyOf(parseDate));
    assert r == SortDesc(Seqs.Filter(index, m), DateKeyOf(parseDate));
    forall row
      ensures row in r <==> row in index && Matches(ops, np, nn, row)
    {
      assert m(row) == Matches(ops, np, nn, row);
    }
  }

  /** Sorting loses no row: as many rows are found as the official has in the index. */
  lemma FindDeclarationsCount(ops: CaseOps, parseDate: string -> Option<nat>, index: seq<Row>,
                              prenom: string, nom: string)
    ensures |FindDeclarationsForElu(ops, parseDate, index, prenom, nom)| == |Matching(ops, index, prenom, nom)|
  {
    var m := Matcher(ops, NormalizeName(ops, prenom), NormalizeName(ops, nom));
    var key := DateKeyOf(parseDate);
    var matched := Matching(ops, index, prenom, nom);
    SortDescCorrect(matched, key);
    assert |multiset(SortDesc(matched, key))| == |multiset(matched)|;
  }

  /** Where the declaration files live. */
  const HatvpXmlBase: string := "https://www.hatvp.fr/livraison/dossiers/"

  /** The XML file name: the `fichier` columns, falling back on the (non-http) `url` text. */
  function FileName(row: Row, url: string): string {
    Strip(Or(FirstField(row, "fichier", "Fichier", "nomFichier"), url))
  }

  /** The `url` columns. */
  function UrlText(row: Row): string {
    Strip(FirstField(row, "url", "Url", "urlFichier"))
  }

  /** `get_xml_url`: an http address is taken as it is; otherwise the file name, when there is
      one, is resolved against the dossier base address. */
  function GetXmlUrl(row: Row): Option<string> {
    var url := UrlText(row);
    if StartsWith(url, "http") then Some(url)
    else
      var fichier := FileName(row, url);
      if fichier == "" then None else Some(ResolveFile(fichier))
  }

  /** A file name resolved against the dossier base address, given the `.xml` extension when it
      lacks one; a name that already has it is kept as it is. */
  function ResolveFile(fichier: string): (r: string)
    ensures StartsWith(r, HatvpXmlBase) && EndsWith(r, ".xml")
    ensures EndsWith(fichier, ".xml") ==> r == HatvpXmlBase + fichier
    ensures !EndsWith(fichier, ".xml") ==> r == HatvpXmlBase + fichier + ".xml"
  {
    var name := if EndsWith(fichier, ".xml") then fichier else fichier + ".xml";
    ConcatEnds(HatvpXmlBase, name, ".xml");
    HatvpXmlBase + name
  }

  /** `a + b` starts with `a`, and ends with whatever `b` ends with. */
  lemma ConcatEnds(a: string, b: string, suffix: string)
    requires EndsWith(b, suffix)
    ensures StartsWith(a + b, a) && EndsWith(a + b, suffix)
  {
    assert (a + b)[..|a|] == a;
    assert (a + b)[|a + b| - |suffix|..] == b[|b| - |suffix|..];
  }

  /** The three outcomes of `get_xml_url`: the http address, nothing when there is neither an
      http address nor a file name, and the resolved file name otherwise. */
  lemma GetXmlUrlCases(row: Row)
    ensures StartsWith(UrlText(row), "http") ==> GetXmlUrl(row) == Some(UrlText(row))
    ensures !StartsWith(UrlText(row), "http") ==>
              (GetXmlUrl(row).None? <==> FileName(row, UrlText(row)) == "")
    ensures GetXmlUrl(row).Some? && !StartsWith(UrlText(row), "http") ==>
              && StartsWith(GetXmlUrl(row).value, HatvpXmlBase) && EndsWith(GetXmlUrl(row).value, ".xml")
              && (GetXmlUrl(row).value == HatvpXmlBase + FileName(row, UrlText(row))
                  || GetXmlUrl(row).value == HatvpXmlBase + FileName(row, UrlText(row)) + ".xml")
  {
  }

  /** A prefix of a prefix is a prefix. */
  lemma StartsWithTrans(s: string, t: string, u: string)
    requires StartsWith(s, t) && StartsWith(t, u)
    ensures StartsWith(s, u)
  {
    assert s[..|u|] == s[..|t|][..|u|];
  }

  lemma BaseIsHttp()
    ensures StartsWith(HatvpXmlBase, "http") && HatvpXmlBase[0] == 'h'
  {
    var b := HatvpXmlBase;
    assert b[0] == 'h' && b[1] == 't' && b[2] == 't' && b[3] == 'p';
    assert b[..4] == "http";
  }

  /** Every address `get_xml_url` gives is an http address with no surrounding spaces. */
  lemma GetXmlUrlHttp(row: Row)
    requires GetXmlUrl(row).Some?
    ensures StartsWith(GetXmlUrl(row).value, "http")
    ensures var u := GetXmlUrl(row).value; !IsSpace(u[0]) && !IsSpace(u[|u| - 1])
  {
    var url := UrlText(row);
    var u := GetXmlUrl(row).value;
    if !StartsWith(url, "http") {
      var fichier := FileName(row, url);
      assert u == ResolveFile(fichier);
      ResolvedIsHttp(fichier);
    } else {
      StripEdges(FirstField(row, "url", "Url", "urlFichier"));
    }
  }

  /** A resolved file name is an http address that starts with `h` and ends with `l`. */
  lemma ResolvedIsHttp(fichier: string)
    ensures var u := ResolveFile(fichier);
            StartsWith(u, "http") && u[0] == 'h' && u[|u| - 1] == 'l'
  {
    var u := ResolveFile(fichier);
    BaseIsHttp();
    StartsWithTrans(u, HatvpXmlBase, "http");
    assert u[|u| - 4..][3] == 'l';
  }

  /** Round trip: a row whose only column is `url`, holding an address `get_xml_url` produced,
      gives that address back. */
  lemma GetXmlUrlRoundTrip(row: Row)
    requires GetXmlUrl(row).Some?
    ensures GetXmlUrl(map["url" := GetXmlUrl(row).value]) == GetXmlUrl(row)
  {
    var u := GetXmlUrl(row).value;
    GetXmlUrlHttp(row);
    UrlOnlyRow(u);
  }

  /** A row holding only a trimmed `url` reads that url back. */
  lemma UrlOnlyRow(u: string)
    requires u != "" && !IsSpace(u[0]) && !IsSpace(u[|u| - 1])
    ensures UrlText(map["url" := u]) == u
  {
    var one: Row := map["url" := u];
    assert FirstField(one, "url", "Url", "urlFichier") == u by {
      assert Field(one, "url") == u;
    }
    StripNoEdgeSpace(u);
  }

  /** `get_declaration_type`: the type column, trimmed and upper-cased. */
  function GetDeclarationType(ops: CaseOps, row: Row): string {
    Upper(ops, Strip(FirstField(row, "typeDeclaration", "TypeDeclaration", "type")))
  }

  /** The declaration types of situation declarations (initial and modified) and of interest
      declarations. */
  const DspTypes: set<string> := {"DSP", "DSPM"}
  const DiTypes: set<string> := {"DI", "DIM"}

  /** A row's declaration type belongs to `family`. */
  function InFamily(ops: CaseOps, family: set<string>): Row -> bool {
    row => GetDeclarationType(ops, row) in family
  }

  /** The most recent row of a family among an official's rows (the generator's `next(...)`
      over the sorted rows). */
  function LatestOfFamily(ops: CaseOps, rows: seq<Row>, family: set<string>): Option<Row> {
    FirstWhere(rows, InFamily(ops, family))
  }

  /** The row the generator retains for a family: the first of the official's sorted rows. */
  function LatestDeclaration(ops: CaseOps, parseDate: string -> Option<nat>, index: seq<Row>,
                             prenom: string, nom: string, family: set<string>): Option<Row> {
    LatestOfFamily(ops, FindDeclarationsForElu(ops, parseDate, index, prenom, nom), family)
  }

  /** Nothing is retained for a family exactly when the official has no row of that family. */
  lemma LatestDeclarationNone(ops: CaseOps, parseDate: string -> Option<nat>, index: seq<Row>,
                              prenom: string, nom: string, family: set<string>)
    ensures var matched := Matching(ops, index, prenom, nom);
            LatestDeclaration(ops, parseDate, index, prenom, nom, family).None? <==>
              forall i :: 0 <= i < |matched| ==> GetDeclarationType(ops, matched[i]) !in family
  {
    var matched := Matching(ops, index, prenom, nom);
    var inFamily, key := InFamily(ops, family), DateKeyOf(parseDate);
    assert LatestDeclaration(ops, parseDate, index, prenom, nom, family)
           == FirstWhere(SortDesc(matched, key), inFamily);
    SelectLatest(matched, inFamily, key);
    forall i | 0 <= i < |matched|
      ensures inFamily(matched[i]) == (GetDeclarationType(ops, matched[i]) in family)
    {
    }
  }

  /** A retained row is one of the official's rows, of the family. */
  lemma LatestDeclarationPicked(ops: CaseOps, parseDate: string -> Option<nat>, index: seq<Row>,
                                prenom: string, nom: string, family: set<string>)
    requires LatestDeclaration(ops, parseDate, index, prenom, nom, family).Some?
    ensures var row := LatestDeclaration(ops, parseDate, index, prenom, nom, family).value;
            row in Matching(ops, index, prenom, nom) && GetDeclarationType(ops, row) in family
  {
    var matched := Matching(ops, index, prenom, nom);
    var inFamily, key := InFamily(ops, family), DateKeyOf(parseDate);
    var picked := LatestDeclaration(ops, parseDate, index, prenom, nom, family);
    assert picked == FirstWhere(SortDesc(matched, key), inFamily);
    SelectLatest(matched, inFamily, key);
    assert inFamily(picked.value) == (GetDeclarationType(ops, picked.value) in family);
  }

  /** A retained row has the latest date among the official's rows of its family. */
  lemma LatestDeclarationLatest(ops: CaseOps, parseDate: string -> Option<nat>, index: seq<Row>,
                                prenom: string, nom: string, family: set<string>)
    requires LatestDeclaration(ops, parseDate, index, prenom, nom, family).Some?
    ensures var matched := Matching(ops, index, prenom, nom);
            var row := LatestDeclaration(ops, parseDate, index, prenom, nom, family).value;
            forall i :: 0 <= i < |matched| && GetDeclarationType(ops, matched[i]) in family ==>
              DateKey(parseDate, matched[i]) <= DateKey(parseDate, row)
  {
    var matched := Matching(ops, index, prenom, nom);
    var inFamily, key := InFamily(ops, family), DateKeyOf(parseDate);
    var picked := LatestDeclaration(ops, parseDate, index, prenom, nom, family);
    assert picked == FirstWhere(SortDesc(matched, key), inFamily);
    SelectLatest(matched, inFamily, key);
    var row := picked.value;
    forall i | 0 <= i < |matched| && GetDeclarationType(ops, matched[i]) in family
      ensures DateKey(parseDate, matched[i]) <= DateKey(parseDate, row)
    {
      assert inFamily(matched[i]);
      assert key(matched[i]) == DateKey(parseDate, matched[i]);
    }
  }

  /** Among the official's rows of the family that share the retained row's date, the retained
      row is the first in index order. */
  lemma LatestDeclarationFirst(ops: CaseOps, parseDate: string -> Option<nat>, index: seq<Row>,
                               prenom: string, nom: string, family: set<string>)
    requires LatestDeclaration(ops, parseDate, index, prenom, nom, family).Some?
    ensures var row := LatestDeclaration(ops, parseDate, index, prenom, nom, family).value;
            FirstWhere(Matching(ops, index, prenom, nom),
                       WithKeyWhere(InFamily(ops, family), DateKeyOf(parseDate), DateKey(parseDate, row)))
              == Some(row)
  {
    var matched := Matching(ops, index, prenom, nom);
    var inFamily, key := InFamily(ops, family), DateKeyOf(parseDate);
    var picked := LatestDeclaration(ops, parseDate, index, prenom, nom, family);
    assert picked == FirstWhere(SortDesc(matched, key), inFamily);
    SelectLatest(matched, inFamily, key);
    assert key(picked.value) == DateKey(parseDate, picked.value);
  }

  /** The two families are disjoint, so one row never serves as both declarations. */
  lemma FamiliesDisjoint(ops: CaseOps, row: Row)
    ensures !(InFamily(ops, DspTypes)(row) && InFamily(ops, DiTypes)(row))
  {
    TypesDisjoint(GetDeclarationType(ops, row));
  }

  /** No type belongs to both families; kept apart from any row so that the literal comparison
      is done once. */
  lemma TypesDisjoint(t: string)
    ensures !(t in DspTypes && t in DiTypes)
  {
  }

  /** Whitespace around the type column changes neither the type read from the row nor the
      family the row belongs to. */
  lemma GetDeclarationTypePadded(ops: CaseOps, row: Row, w1: string, w2: string)
    requires AllSpace(w1) && AllSpace(w2)
    requires Field(row, "typeDeclaration") != ""
    ensures var padded := row["typeDeclaration" := w1 + row["typeDeclaration"] + w2];
            && GetDeclarationType(ops, padded) == GetDeclarationType(ops, row)
            && (InFamily(ops, DspTypes)(padded) <==> InFamily(ops, DspTypes)(row))
            && (InFamily(ops, DiTypes)(padded) <==> InFamily(ops, DiTypes)(row))
  {
    StripPadded(w1, row["typeDeclaration"], w2);
  }

  /** A padded, lower-case " dspm " reads as the type "DSPM" and puts the row in the DSP family. */
  lemma PaddedLowerCaseType()
    ensures var row := map["typeDeclaration" := " dspm "];
            GetDeclarationType(LatinOps, row) == "DSPM" && InFamily(LatinOps, DspTypes)(row)
  {
    assert " dspm " == " " + "dspm" + " ";
    StripPadded(" ", "dspm", " ");
    StripNoEdgeSpace("dspm");
    assert Upper(LatinOps, "dspm") == "DSPM";
  }
}
