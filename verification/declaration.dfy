/** One parsed declaration (`parse_declaration_xml`): its metadata, the eight per-kind lists,
    the family block and the general observations. */
module Declarations {
  import opened Wrappers
  import opened Text
  import opened Xml
  import opened Records
  import opened Schema

  /** The eight per-kind lists of a declaration or a consolidated profile. */
  datatype Holdings = Holdings(
    instruments: seq<Record>, participations: seq<Record>, immobilier: seq<Record>,
    prets: seq<Record>, autres: seq<Record>, revenus: seq<Record>, mandats: seq<Record>,
    fonctions: seq<Record>)
  {
    /** The list of kind `k`. */
    function Of(k: Kind): seq<Record> {
      match k
      case Instruments => instruments
      case Participations => participations
      case Immobilier => immobilier
      case Prets => prets
      case AutresBiens => autres
      case RevenusActivites => revenus
      case Mandats => mandats
      case Fonctions => fonctions
    }
  }

  /** Two holdings are equal when all their lists are. */
  lemma HoldingsExt(a: Holdings, b: Holdings)
    requires forall k: Kind :: a.Of(k) == b.Of(k)
    ensures a == b
  {
    assert a.Of(Instruments) == b.Of(Instruments) && a.Of(Participations) == b.Of(Participations);
    assert a.Of(Immobilier) == b.Of(Immobilier) && a.Of(Prets) == b.Of(Prets);
    assert a.Of(AutresBiens) == b.Of(AutresBiens) && a.Of(RevenusActivites) == b.Of(RevenusActivites);
    assert a.Of(Mandats) == b.Of(Mandats) && a.Of(Fonctions) == b.Of(Fonctions);
  }

  /** The holdings whose list of kind `k` is `f(k)`. */
  function FromKinds(f: Kind -> seq<Record>): (h: Holdings)
    ensures forall k: Kind :: h.Of(k) == f(k)
  {
    Holdings(f(Instruments), f(Participations), f(Immobilier), f(Prets), f(AutresBiens),
             f(RevenusActivites), f(Mandats), f(Fonctions))
  }

  /** The empty lists a profile starts from. */
  function NoHoldings(): (h: Holdings)
    ensures forall k: Kind :: h.Of(k) == []
  {
    FromKinds(k => [])
  }

  /** `result[kind].extend(parsed[kind])` for every kind. */
  function Extend(a: Holdings, b: Holdings): (r: Holdings)
    ensures forall k: Kind :: r.Of(k) == a.Of(k) + b.Of(k)
  {
    FromKinds(k => a.Of(k) + b.Of(k))
  }

  /** The eight section parsers run on one document. */
  function ParseHoldings(ops: CaseOps, root: Node): (h: Holdings)
    ensures forall k: Kind :: h.Of(k) == ParseSections(ops, root, KindSpecs(k))
  {
    FromKinds(k => ParseSections(ops, root, KindSpecs(k)))
  }

  /** Extending by nothing changes nothing, on either side. */
  lemma ExtendIdentity(a: Holdings)
    ensures Extend(a, NoHoldings()) == a && Extend(NoHoldings(), a) == a
  {
    var none := NoHoldings();
    var right, left := Extend(a, none), Extend(none, a);
    forall k: Kind
      ensures right.Of(k) == a.Of(k) && left.Of(k) == a.Of(k)
    {
      assert none.Of(k) == [];
    }
    HoldingsExt(right, a);
    HoldingsExt(left, a);
  }

  /** Extending is associative: consolidating declarations one after the other is
      concatenating their lists. */
  lemma ExtendAssociative(a: Holdings, b: Holdings, c: Holdings)
    ensures Extend(Extend(a, b), c) == Extend(a, Extend(b, c))
  {
    var ab, bc := Extend(a, b), Extend(b, c);
    var x, y := Extend(ab, c), Extend(a, bc);
    forall k: Kind
      ensures x.Of(k) == y.Of(k)
    {
      assert x.Of(k) == (a.Of(k) + b.Of(k)) + c.Of(k);
      assert y.Of(k) == a.Of(k) + (b.Of(k) + c.Of(k));
      ConcatAssociative(a.Of(k), b.Of(k), c.Of(k));
    }
    HoldingsExt(x, y);
  }

  lemma ConcatAssociative(p: seq<Record>, q: seq<Record>, r: seq<Record>)
    ensures (p + q) + r == p + (q + r)
  {
  }

  /** The family block: marital status, the spouse record when a `conjoint` element exists,
      and the children. */
  datatype Famille = Famille(situation: string, conjoint: Option<Record>, enfants: seq<Record>)

  /** The spouse element of a document. */
  function ConjointNode(root: Node): Option<Node> {
    Find(root, Descendant("conjoint"))
  }

  /** `parse_informations_familiales`. */
  function ParseFamille(ops: CaseOps, root: Node): (f: Famille)
    ensures f.conjoint.Some? <==> ConjointNode(root).Some?
    ensures f.conjoint.Some? ==> f.conjoint.value.Keys == Names(ConjointFields)
    ensures IsSectionEmpty(ops, Section(root, EnfantsSpec)) ==> f.enfants == []
    ensures var labelText := XmlText(root, DescendantChild("situationFamiliale", "label"));
            f.situation == if labelText != "" then labelText else XmlText(root, DescendantChild("situationFamiliale", "id"))
  {
    var labelText := XmlText(root, DescendantChild("situationFamiliale", "label"));
    var situation := if labelText != "" then labelText else XmlText(root, DescendantChild("situationFamiliale", "id"));
    var conjoint := if ConjointNode(root).Some? then Some(Conjoint(ops, ConjointNode(root).value)) else None;
    Famille(situation, conjoint, ParseSection(ops, root, EnfantsSpec))
  }

  /** The spouse record built from the spouse element. */
  function Conjoint(ops: CaseOps, c: Node): (r: Record)
    ensures r.Keys == Names(ConjointFields)
  {
    BuildRecordFields(ops, c, ConjointFields);
    BuildRecord(ops, c, ConjointFields)
  }

  /** Every listed child has a non-empty birth date. */
  lemma EnfantsDated(ops: CaseOps, root: Node, k: nat)
    requires k < |ParseFamille(ops, root).enfants|
    ensures TextPresent(ParseFamille(ops, root).enfants[k], "date_naissance")
  {
    assert EnfantsSpec.keep == KeepRule(["date_naissance"], []);
    ParseSectionSingleText(ops, root, EnfantsSpec, "date_naissance", k);
  }

  /** The spouse's `nom` attribute is the text of the spouse element's `nom` child. */
  lemma ConjointNom(ops: CaseOps, c: Node)
    ensures "nom" in Conjoint(ops, c) && Conjoint(ops, c)["nom"] == Str(XmlText(c, Child(["nom"])))
  {
    ConjointDistinct();
    BuildRecordFields(ops, c, ConjointFields);
    var rule := TextField("nom", [Child(["nom"])]);
    assert ConjointFields[0] == rule;
    assert FieldValue(ops, c, rule) == Str(XmlText(c, Child(["nom"]))) by {
      assert CandidateTexts(c, [Child(["nom"])]) == [XmlText(c, Child(["nom"]))];
    }
  }

  /** The fields `parse_observations` reads, in order. */
  const ObservationFields: seq<string> := ["observations", "observationsGenerales", "commentaire", "precisions"]

  /** The texts of the first `.//field` element of each observation field. */
  function ObservationTexts(root: Node): (ts: seq<string>)
    ensures |ts| == |ObservationFields|
    ensures forall k :: 0 <= k < |ts| ==> ts[k] == XmlText(root, Descendant(ObservationFields[k]))
  {
    seq(|ObservationFields|, k requires 0 <= k < |ObservationFields| => XmlText(root, Descendant(ObservationFields[k])))
  }

  /** The non-empty strings of `ts`, in order. */
  function NonEmpty(ts: seq<string>): (r: seq<string>)
    ensures forall k :: 0 <= k < |r| ==> r[k] != ""
    ensures r == [] <==> forall k :: 0 <= k < |ts| ==> ts[k] == ""
  {
    if ts == [] then []
    else
      assert forall k :: 1 <= k < |ts| ==> ts[k] == ts[1..][k - 1];
      (if ts[0] != "" then [ts[0]] else []) + NonEmpty(ts[1..])
  }

  /** The leading non-empty string is the first one kept. */
  lemma {:induction false} NonEmptyHead(ts: seq<string>)
    requires NonEmpty(ts) != []
    ensures NonEmpty(ts)[0] == FirstNonEmpty(ts)
  {
    if ts[0] == "" {
      NonEmptyHead(ts[1..]);
    }
  }

  /** `" | ".join(observations) if observations else ""`. */
  function ParseObservations(root: Node): string {
    Join(NonEmpty(ObservationTexts(root)), " | ")
  }

  /** A join of non-empty parts is empty exactly when there are no parts, and starts with the
      first part. */
  lemma {:induction false} JoinNonEmpty(parts: seq<string>, sep: string)
    requires forall k :: 0 <= k < |parts| ==> parts[k] != ""
    ensures Join(parts, sep) == "" <==> parts == []
    ensures parts != [] ==> StartsWith(Join(parts, sep), parts[0])
  {
    if |parts| > 1 {
      var r := Join(parts, sep);
      assert r == parts[0] + (sep + Join(parts[1..], sep));
      assert r[..|parts[0]|] == parts[0];
    }
  }

  /** The observations are empty exactly when none of the four fields has text, and otherwise
      start with the first field that has. */
  lemma ObservationsPresent(root: Node)
    ensures ParseObservations(root) == "" <==>
              forall k :: 0 <= k < |ObservationFields| ==> XmlText(root, Descendant(ObservationFields[k])) == ""
    ensures ParseObservations(root) != "" ==>
              StartsWith(ParseObservations(root), FirstNonEmpty(ObservationTexts(root)))
  {
    var ts := ObservationTexts(root);
    JoinNonEmpty(NonEmpty(ts), " | ");
    if NonEmpty(ts) != [] {
      NonEmptyHead(ts);
    }
  }

  /** A metadata string is clean: no surrounding spaces and never the withheld-data placeholder. */
  predicate Clean(s: string) {
    s != Unpublished && (s == [] || (!IsSpace(s[0]) && !IsSpace(s[|s| - 1])))
  }

  /** A metadata text at a child path of the document root. */
  function MetaText(root: Node, steps: seq<string>): (r: string)
    ensures Clean(r)
    ensures r == "" || (FindAll(root, Child(steps)) != [] && r == Strip(RawText(FindAll(root, Child(steps))[0])))
    ensures FindAll(root, Child(steps)) != [] && Strip(RawText(FindAll(root, Child(steps))[0])) != ""
            && Strip(RawText(FindAll(root, Child(steps))[0])) != Unpublished
            ==> r == Strip(RawText(FindAll(root, Child(steps))[0]))
  {
    XmlText(root, Child(steps))
  }

  /** The declarant block of the metadata. */
  datatype Declarant = Declarant(nom: string, prenom: string, qualite: string, organe: string, mandat: string)

  /** The metadata block: uuid, type code and label, filing date, declarant. */
  datatype Metadata = Metadata(uuid: string, typeId: string, typeLabel: string, dateDepot: string, declarant: Declarant)

  /** All metadata strings are clean. */
  predicate CleanMetadata(m: Metadata) {
    Clean(m.uuid) && Clean(m.typeId) && Clean(m.typeLabel) && Clean(m.dateDepot)
    && Clean(m.declarant.nom) && Clean(m.declarant.prenom) && Clean(m.declarant.qualite)
    && Clean(m.declarant.organe) && Clean(m.declarant.mandat)
  }

  /** The metadata of a document; the type label falls back on the type code. */
  function ParseMetadata(root: Node): (m: Metadata)
    ensures CleanMetadata(m)
    ensures MetaText(root, ["general", "typeDeclaration", "label"]) != "" ==>
              m.typeLabel == MetaText(root, ["general", "typeDeclaration", "label"])
    ensures MetaText(root, ["general", "typeDeclaration", "label"]) == "" ==> m.typeLabel == m.typeId
    ensures m.typeLabel == "" <==> m.typeId == "" && MetaText(root, ["general", "typeDeclaration", "label"]) == ""
  {
    var typeId := MetaText(root, ["general", "typeDeclaration", "id"]);
    var labelText := MetaText(root, ["general", "typeDeclaration", "label"]);
    Metadata(
      MetaText(root, ["uuid"]),
      typeId,
      if labelText != "" then labelText else typeId,
      MetaText(root, ["dateDepot"]),
      Declarant(
        MetaText(root, ["general", "declarant", "nom"]),
        MetaText(root, ["general", "declarant", "prenom"]),
        MetaText(root, ["general", "qualiteDeclarant"]),
        MetaText(root, ["general", "organe", "labelOrgane"]),
        MetaText(root, ["general", "qualiteMandat", "labelTypeMandat"])))
  }

  /** A parsed declaration. */
  datatype Declaration = Declaration(
    url: string, meta: Metadata, holdings: Holdings, famille: Famille, observations: string)

  /** `parse_declaration_xml` on an already-parsed document; `None` stands for a document that
      is not well-formed XML, for which the source returns `{}`. */
  function ParseDeclaration(ops: CaseOps, doc: Option<Node>, url: string): Option<Declaration> {
    match doc
    case None => None
    case Some(root) =>
      Some(Declaration(url, ParseMetadata(root), ParseHoldings(ops, root), ParseFamille(ops, root), ParseObservations(root)))
  }

  /** Only a rejected document gives no declaration; a declaration keeps its address and has
      clean metadata. */
  lemma ParseDeclarationSpec(ops: CaseOps, doc: Option<Node>, url: string)
    ensures var r := ParseDeclaration(ops, doc, url);
            && (r.None? <==> doc.None?)
            && (r.Some? ==> r.value.url == url && CleanMetadata(r.value.meta))
  {
  }

  /** A declaration holds, for every kind, exactly the records of that kind's section parsers. */
  lemma ParseDeclarationHoldings(ops: CaseOps, root: Node, url: string)
    ensures var r := ParseDeclaration(ops, Some(root), url);
            r.Some? && forall k: Kind :: r.value.holdings.Of(k) == ParseSections(ops, root, KindSpecs(k))
  {
  }
  /** Every record a declaration holds under a kind carries one of that kind's type names and
      passed the keep rule of the section that produced it. */
  lemma DeclarationRecordsTyped(ops: CaseOps, root: Node, url: string, k: Kind, n: nat)
    requires ParseDeclaration(ops, Some(root), url).Some?
    requires n < |ParseDeclaration(ops, Some(root), url).value.holdings.Of(k)|
    ensures var rec := ParseDeclaration(ops, Some(root), url).value.holdings.Of(k)[n];
            && "type" in rec && rec["type"].Str? && rec["type"].s in TypeNames(k)
            && exists j :: 0 <= j < |KindSpecs(k)| && Keeps(KindSpecs(k)[j].keep, rec)
  {
    ParseDeclarationHoldings(ops, root, url);
    KindRecordsTyped(ops, root, k, n);
  }
}
