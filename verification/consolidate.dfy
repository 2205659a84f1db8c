/** Consolidation of an official's profile (`fetch_hatvp_complete_for_elu`): the most recent
    declaration of each family is fetched and parsed, and the parsed declarations are merged into
    one profile — per-kind lists concatenated, the family block merged by its own rule, the
    observations and the declarations' metadata collected. */
module Consolidate {
  import opened Wrappers
  import opened Text
  import opened Xml
  import opened Records
  import opened Schema
  import opened Declarations
  import opened Index

  /** The outcome of fetching a declaration file: nothing (a failed or empty download), or the
      bytes handed to the XML parser, which gives a tree or fails. */
  datatype Download = Failed | Fetched(doc: Option<Node>)

  /** The metadata the profile keeps for each declaration it absorbed. */
  datatype Entry = Entry(meta: Metadata, url: string)

  /** The consolidated profile; `famille` is None while no declaration was absorbed (the
      generator's `{}`). */
  datatype Profile = Profile(
    prenom: string, nom: string, found: nat, holdings: Holdings, famille: Option<Famille>,
    observations: seq<string>, declarations: seq<Entry>)

  /** The profile before any declaration is absorbed. */
  function EmptyProfile(prenom: string, nom: string, found: nat): (p: Profile)
    ensures p.holdings == NoHoldings() && p.famille.None?
    ensures p.observations == [] && p.declarations == []
  {
    Profile(prenom, nom, found, NoHoldings(), None, [], [])
  }

  /** A declaration parser: the parsed document (None when the XML parser rejected the bytes)
      and its address give a declaration, or nothing. */
  type Parser = (Option<Node>, string) -> Option<Declaration>

  /** The generator's parser, `parse_declaration_xml`. */
  function HatvpParser(ops: CaseOps): Parser {
    (doc, url) => ParseDeclaration(ops, doc, url)
  }

  /** The declaration a selected row yields: none when there is no row, no XML address, a failed
      download, or a document the parser rejects. */
  function Retrieve(load: string -> Download, parse: Parser, row: Option<Row>): (r: Option<Declaration>)
    ensures r.Some? ==> row.Some? && GetXmlUrl(row.value).Some?
  {
    match row
    case None => None
    case Some(x) =>
      match GetXmlUrl(x)
      case None => None
      case Some(url) =>
        match load(url)
        case Failed => None
        case Fetched(doc) => parse(doc, url)
  }

  /** The family block after absorbing `parsed`: the first family is taken whole; a later one
      contributes its spouse, when it has one, and its children, never its situation. */
  function MergeFamille(current: Option<Famille>, parsed: Famille): Famille {
    match current
    case None => parsed
    case Some(c) =>
      var conjoint := if parsed.conjoint.Some? then parsed.conjoint else c.conjoint;
      Famille(c.situation, conjoint, c.enfants + parsed.enfants)
  }

  /** Absorbing one parsed declaration into the profile. */
  function Absorb(p: Profile, d: Declaration): Profile {
    p.(holdings := Extend(p.holdings, d.holdings),
       famille := Some(MergeFamille(p.famille, d.famille)),
       observations := if d.observations != "" then p.observations + [d.observations] else p.observations,
       declarations := p.declarations + [Entry(d.meta, d.url)])
  }

  /** One pass of the generator's loop over the selected rows: a row that yields no declaration
      leaves the profile as it is. */
  function Step(load: string -> Download, parse: Parser, p: Profile, row: Option<Row>): Profile {
    match Retrieve(load, parse, row)
    case None => p
    case Some(d) => Absorb(p, d)
  }

  /** The selection and merge of `fetch_hatvp_complete_for_elu`, for a given parser: nothing for
      an official without both names or without any row in the index; otherwise the profile
      built from the latest situation declaration and then the latest interest declaration. */
  function Consolidation(ops: CaseOps, parseDate: string -> Option<nat>, load: string -> Download,
                         parse: Parser, index: seq<Row>, eluPrenom: string, eluNom: string): Option<Profile>
  {
    var prenom, nom := Strip(eluPrenom), Strip(eluNom);
    if prenom == "" || nom == "" then None
    else
      var rows := FindDeclarationsForElu(ops, parseDate, index, prenom, nom);
      if rows == [] then None
      else
        var dsp := LatestOfFamily(ops, rows, DspTypes);
        var di := LatestOfFamily(ops, rows, DiTypes);
        Some(Step(load, parse, Step(load, parse, EmptyProfile(prenom, nom, |rows|), dsp), di))
  }

  /** `fetch_hatvp_complete_for_elu` with the generator's own parser. */
  function FetchComplete(ops: CaseOps, parseDate: string -> Option<nat>, load: string -> Download,
                         index: seq<Row>, eluPrenom: string, eluNom: string): Option<Profile>
  {
    Consolidation(ops, parseDate, load, HatvpParser(ops), index, eluPrenom, eluNom)
  }

  /** The declaration retrieved for a family of the official's rows. */
  function Retrieved(ops: CaseOps, parseDate: string -> Option<nat>, load: string -> Download, parse: Parser,
                     index: seq<Row>, eluPrenom: string, eluNom: string, family: set<string>): Option<Declaration>
  {
    Retrieve(load, parse, LatestDeclaration(ops, parseDate, index, Strip(eluPrenom), Strip(eluNom), family))
  }

  /** The records of kind `k` a retrieved declaration contributes. */
  function KindOf(d: Option<Declaration>, k: Kind): seq<Record> {
    if d.Some? then d.value.holdings.Of(k) else []
  }

  /** Absorbing what a row yields appends that declaration's records to every list of the
      profile; a row that yields nothing changes nothing. */
  lemma StepHoldings(load: string -> Download, parse: Parser, p: Profile, row: Option<Row>)
    ensures forall k: Kind :: Step(load, parse, p, row).holdings.Of(k)
                              == p.holdings.Of(k) + KindOf(Retrieve(load, parse, row), k)
  {
    var d := Retrieve(load, parse, row);
    if d.None? {
      forall k: Kind
        ensures Step(load, parse, p, row).holdings.Of(k) == p.holdings.Of(k) + KindOf(d, k)
      {
        assert p.holdings.Of(k) + [] == p.holdings.Of(k);
      }
    }
  }

  /** The two selected rows of a consolidated profile and its starting point. */
  lemma ConsolidationSteps(ops: CaseOps, parseDate: string -> Option<nat>, load: string -> Download,
                           parse: Parser, index: seq<Row>, eluPrenom: string, eluNom: string)
    requires Consolidation(ops, parseDate, load, parse, index, eluPrenom, eluNom).Some?
    ensures var prenom, nom := Strip(eluPrenom), Strip(eluNom);
            var p := Consolidation(ops, parseDate, load, parse, index, eluPrenom, eluNom).value;
            var dsp := LatestDeclaration(ops, parseDate, index, prenom, nom, DspTypes);
            var di := LatestDeclaration(ops, parseDate, index, prenom, nom, DiTypes);
            && prenom != "" && nom != ""
            && p == Step(load, parse, Step(load, parse, EmptyProfile(prenom, nom, p.found), dsp), di)
            && p.found == |FindDeclarationsForElu(ops, parseDate, index, prenom, nom)| > 0
  {
  }

  /** The profile's per-kind lists are the situation declaration's list followed by the interest
      declaration's, and a family whose declaration could not be retrieved contributes nothing. */
  lemma ConsolidationHoldings(ops: CaseOps, parseDate: string -> Option<nat>, load: string -> Download,
                              parse: Parser, index: seq<Row>, eluPrenom: string, eluNom: string)
    requires Consolidation(ops, parseDate, load, parse, index, eluPrenom, eluNom).Some?
    ensures var p := Consolidation(ops, parseDate, load, parse, index, eluPrenom, eluNom).value;
            var dsp := Retrieved(ops, parseDate, load, parse, index, eluPrenom, eluNom, DspTypes);
            var di := Retrieved(ops, parseDate, load, parse, index, eluPrenom, eluNom, DiTypes);
            forall k: Kind :: p.holdings.Of(k) == KindOf(dsp, k) + KindOf(di, k)
  {
    var prenom, nom := Strip(eluPrenom), Strip(eluNom);
    var p := Consolidation(ops, parseDate, load, parse, index, eluPrenom, eluNom).value;
    var dspRow := LatestDeclaration(ops, parseDate, index, prenom, nom, DspTypes);
    var diRow := LatestDeclaration(ops, parseDate, index, prenom, nom, DiTypes);
    ConsolidationSteps(ops, parseDate, load, parse, index, eluPrenom, eluNom);
    var p0 := EmptyProfile(prenom, nom, p.found);
    var p1 := Step(load, parse, p0, dspRow);
    StepHoldings(load, parse, p0, dspRow);
    StepHoldings(load, parse, p1, diRow);
    var dsp, di := Retrieve(load, parse, dspRow), Retrieve(load, parse, diRow);
    assert dsp == Retrieved(ops, parseDate, load, parse, index, eluPrenom, eluNom, DspTypes);
    assert di == Retrieved(ops, parseDate, load, parse, index, eluPrenom, eluNom, DiTypes);
    forall k: Kind
      ensures p.holdings.Of(k) == KindOf(dsp, k) + KindOf(di, k)
    {
      assert p0.holdings.Of(k) == [];
      assert p1.holdings.Of(k) == KindOf(dsp, k);
    }
  }

  /** The observations text a retrieved declaration contributes: its text when non-empty. */
  function ObservationsOf(d: Option<Declaration>): (r: seq<string>)
    ensures |r| <= 1 && (forall k :: 0 <= k < |r| ==> r[k] != "")
  {
    if d.Some? && d.value.observations != "" then [d.value.observations] else []
  }

  /** The metadata entry a retrieved declaration contributes. */
  function EntriesOf(d: Option<Declaration>): (r: seq<Entry>)
    ensures |r| == (if d.Some? then 1 else 0)
  {
    if d.Some? then [Entry(d.value.meta, d.value.url)] else []
  }

  /** The family block a retrieved declaration contributes. */
  function FamillesOf(d: Option<Declaration>): (r: seq<Famille>)
    ensures |r| == (if d.Some? then 1 else 0)
  {
    if d.Some? then [d.value.famille] else []
  }

  /** Absorbing what a row yields leaves the names and the row count alone, appends the
      declaration's non-empty observations and its metadata entry, and merges its family. */
  lemma StepSpec(load: string -> Download, parse: Parser, p: Profile, row: Option<Row>)
    ensures var q, d := Step(load, parse, p, row), Retrieve(load, parse, row);
            && q.prenom == p.prenom && q.nom == p.nom && q.found == p.found
            && q.observations == p.observations + ObservationsOf(d)
            && q.declarations == p.declarations + EntriesOf(d)
            && q.famille == FoldFamille(p.famille, FamillesOf(d))
  {
  }

  /** Merging the family blocks `fs` one after the other into `acc`. */
  function FoldFamille(acc: Option<Famille>, fs: seq<Famille>): (r: Option<Famille>)
    ensures r.None? <==> acc.None? && fs == []
    decreases |fs|
  {
    if fs == [] then acc else FoldFamille(Some(MergeFamille(acc, fs[0])), fs[1..])
  }

  /** The spouse of the last block that has one. */
  function LastConjoint(fs: seq<Famille>): Option<Record>
    decreases |fs|
  {
    if fs == [] then None
    else if fs[|fs| - 1].conjoint.Some? then fs[|fs| - 1].conjoint
    else LastConjoint(fs[..|fs| - 1])
  }

  /** The children of all blocks, in order. */
  function AllEnfants(fs: seq<Famille>): seq<Record>
    decreases |fs|
  {
    if fs == [] then [] else AllEnfants(fs[..|fs| - 1]) + fs[|fs| - 1].enfants
  }

  /** The merged family of a non-empty sequence of blocks, stated independently of the merge
      step: the first block's situation, the spouse of the last block that has one (the first
      block's own, possibly none, otherwise), and every block's children in order. */
  function MergedFamilles(fs: seq<Famille>): Option<Famille> {
    if fs == [] then None
    else Some(Famille(fs[0].situation, LastConjoint(fs), AllEnfants(fs)))
  }

  /** Merging blocks one after the other, starting from no family, gives `MergedFamilles`. */
  lemma {:induction false} FoldFamilleMerged(fs: seq<Famille>)
    ensures FoldFamille(None, fs) == MergedFamilles(fs)
  {
    if fs != [] {
      var first := fs[..1];
      assert LastConjoint(first) == fs[0].conjoint by {
        assert first[..0] == [];
      }
      assert AllEnfants(first) == fs[0].enfants by {
        assert first[..0] == [];
      }
      assert MergedFamilles(first) == Some(fs[0]);
      FoldFamilleFrom(first, fs[1..]);
      assert first + fs[1..] == fs;
    }
  }

  /** Continuing a merge: folding `rest` into the merge of a non-empty `done`. */
  lemma {:induction false} FoldFamilleFrom(done: seq<Famille>, rest: seq<Famille>)
    requires done != []
    ensures FoldFamille(MergedFamilles(done), rest) == MergedFamilles(done + rest)
    decreases |rest|
  {
    if rest != [] {
      var all := done + [rest[0]];
      assert all[..|all| - 1] == done;
      assert all[0] == done[0];
      assert MergeFamille(MergedFamilles(done), rest[0]) == MergedFamilles(all).value;
      FoldFamilleFrom(all, rest[1..]);
      assert all + rest[1..] == done + rest;
    } else {
      assert done + rest == done;
    }
  }

  /** A consolidated profile carries the stripped names, the non-empty observations and the
      metadata entries of the retrieved declarations, situation declaration first. */
  lemma ConsolidationEntries(ops: CaseOps, parseDate: string -> Option<nat>, load: string -> Download,
                             parse: Parser, index: seq<Row>, eluPrenom: string, eluNom: string)
    requires Consolidation(ops, parseDate, load, parse, index, eluPrenom, eluNom).Some?
    ensures var p := Consolidation(ops, parseDate, load, parse, index, eluPrenom, eluNom).value;
            var dsp := Retrieved(ops, parseDate, load, parse, index, eluPrenom, eluNom, DspTypes);
            var di := Retrieved(ops, parseDate, load, parse, index, eluPrenom, eluNom, DiTypes);
            && p.prenom == Strip(eluPrenom) && p.nom == Strip(eluNom)
            && p.observations == ObservationsOf(dsp) + ObservationsOf(di)
            && p.declarations == EntriesOf(dsp) + EntriesOf(di)
  {
    var prenom, nom := Strip(eluPrenom), Strip(eluNom);
    var p := Consolidation(ops, parseDate, load, parse, index, eluPrenom, eluNom).value;
    var dspRow := LatestDeclaration(ops, parseDate, index, prenom, nom, DspTypes);
    var diRow := LatestDeclaration(ops, parseDate, index, prenom, nom, DiTypes);
    ConsolidationSteps(ops, parseDate, load, parse, index, eluPrenom, eluNom);
    var p0 := EmptyProfile(prenom, nom, p.found);
    var p1 := Step(load, parse, p0, dspRow);
    StepSpec(load, parse, p0, dspRow);
    StepSpec(load, parse, p1, diRow);
    assert p0.observations + ObservationsOf(Retrieve(load, parse, dspRow)) == ObservationsOf(Retrieve(load, parse, dspRow));
    assert p0.declarations + EntriesOf(Retrieve(load, parse, dspRow)) == EntriesOf(Retrieve(load, parse, dspRow));
  }

  /** The family block of a consolidated profile is the merge of the retrieved declarations'
      blocks: none when no declaration was retrieved. */
  lemma ConsolidationFamille(ops: CaseOps, parseDate: string -> Option<nat>, load: string -> Download,
                             parse: Parser, index: seq<Row>, eluPrenom: string, eluNom: string)
    requires Consolidation(ops, parseDate, load, parse, index, eluPrenom, eluNom).Some?
    ensures var p := Consolidation(ops, parseDate, load, parse, index, eluPrenom, eluNom).value;
            var dsp := Retrieved(ops, parseDate, load, parse, index, eluPrenom, eluNom, DspTypes);
            var di := Retrieved(ops, parseDate, load, parse, index, eluPrenom, eluNom, DiTypes);
            p.famille == MergedFamilles(FamillesOf(dsp) + FamillesOf(di))
  {
    var prenom, nom := Strip(eluPrenom), Strip(eluNom);
    var p := Consolidation(ops, parseDate, load, parse, index, eluPrenom, eluNom).value;
    var dspRow := LatestDeclaration(ops, parseDate, index, prenom, nom, DspTypes);
    var diRow := LatestDeclaration(ops, parseDate, index, prenom, nom, DiTypes);
    ConsolidationSteps(ops, parseDate, load, parse, index, eluPrenom, eluNom);
    var p0 := EmptyProfile(prenom, nom, p.found);
    var p1 := Step(load, parse, p0, dspRow);
    StepSpec(load, parse, p0, dspRow);
    StepSpec(load, parse, p1, diRow);
    var a, b := FamillesOf(Retrieve(load, parse, dspRow)), FamillesOf(Retrieve(load, parse, diRow));
    assert p.famille == FoldFamille(FoldFamille(None, a), b);
    FoldTwice(a, b);
    FoldFamilleMerged(a + b);
  }

  /** Folding two sequences of blocks one after the other is folding their concatenation. */
  lemma {:induction false} FoldTwice(a: seq<Famille>, b: seq<Famille>)
    ensures FoldFamille(FoldFamille(None, a), b) == FoldFamille(None, a + b)
  {
    FoldAppend(None, a, b);
  }

  lemma {:induction false} FoldAppend(acc: Option<Famille>, a: seq<Famille>, b: seq<Famille>)
    ensures FoldFamille(FoldFamille(acc, a), b) == FoldFamille(acc, a + b)
    decreases |a|
  {
    if a != [] {
      FoldAppend(Some(MergeFamille(acc, a[0])), a[1..], b);
      assert (a + b)[1..] == a[1..] + b;
    } else {
      assert a + b == b;
    }
  }

  /** No official is left without a profile except one lacking a name, or one with no row in
      the index; a profile counts every row of the official. */
  lemma ConsolidationFound(ops: CaseOps, parseDate: string -> Option<nat>, load: string -> Download,
                           parse: Parser, index: seq<Row>, eluPrenom: string, eluNom: string)
    ensures var prenom, nom := Strip(eluPrenom), Strip(eluNom);
            var r := Consolidation(ops, parseDate, load, parse, index, eluPrenom, eluNom);
            && (r.None? <==> prenom == "" || nom == "" || Matching(ops, index, prenom, nom) == [])
            && (r.Some? ==> r.value.found == |Matching(ops, index, prenom, nom)| > 0)
  {
    var prenom, nom := Strip(eluPrenom), Strip(eluNom);
    if prenom != "" && nom != "" {
      FindDeclarationsCount(ops, parseDate, index, prenom, nom);
    }
  }

  /** A parser that gives every declaration the address it was fetched from. */
  ghost predicate KeepsUrl(parse: Parser) {
    forall doc, url :: parse(doc, url).Some? ==> parse(doc, url).value.url == url
  }

  /** The generator's parser records the address it is given. */
  lemma HatvpParserKeepsUrl(ops: CaseOps)
    ensures KeepsUrl(HatvpParser(ops))
  {
    forall doc, url | HatvpParser(ops)(doc, url).Some?
      ensures HatvpParser(ops)(doc, url).value.url == url
    {
    }
  }

  /** With such a parser, a retrieved declaration carries the address `get_xml_url` built for
      its row. */
  lemma RetrieveUrl(load: string -> Download, parse: Parser, row: Option<Row>)
    requires KeepsUrl(parse)
    requires Retrieve(load, parse, row).Some?
    ensures row.Some? && GetXmlUrl(row.value) == Some(Retrieve(load, parse, row).value.url)
  {
  }

  /** An http address with no surrounding spaces. */
  predicate HttpAddress(u: string) {
    StartsWith(u, "http") && !IsSpace(u[0]) && !IsSpace(u[|u| - 1])
  }

  /** Every declaration a profile lists was fetched from an http address with no surrounding
      spaces. */
  lemma ConsolidationUrls(ops: CaseOps, parseDate: string -> Option<nat>, load: string -> Download,
                          parse: Parser, index: seq<Row>, eluPrenom: string, eluNom: string)
    requires KeepsUrl(parse)
    requires Consolidation(ops, parseDate, load, parse, index, eluPrenom, eluNom).Some?
    ensures var es := Consolidation(ops, parseDate, load, parse, index, eluPrenom, eluNom).value.declarations;
            forall i :: 0 <= i < |es| ==> HttpAddress(es[i].url)
  {
    var prenom, nom := Strip(eluPrenom), Strip(eluNom);
    ConsolidationEntries(ops, parseDate, load, parse, index, eluPrenom, eluNom);
    var dspRow := LatestDeclaration(ops, parseDate, index, prenom, nom, DspTypes);
    var diRow := LatestDeclaration(ops, parseDate, index, prenom, nom, DiTypes);
    assert Retrieved(ops, parseDate, load, parse, index, eluPrenom, eluNom, DspTypes) == Retrieve(load, parse, dspRow);
    assert Retrieved(ops, parseDate, load, parse, index, eluPrenom, eluNom, DiTypes) == Retrieve(load, parse, diRow);
    var ea: seq<Entry> := EntriesOf(Retrieve(load, parse, dspRow));
    var eb: seq<Entry> := EntriesOf(Retrieve(load, parse, diRow));
    EntryHttp(load, parse, dspRow);
    EntryHttp(load, parse, diRow);
    forall i | 0 <= i < |ea + eb|
      ensures HttpAddress((ea + eb)[i].url)
    {
      if i < |ea| {
        assert (ea + eb)[i] == ea[i];
      } else {
        assert (ea + eb)[i] == eb[i - |ea|];
      }
    }
  }

  /** The entry of the declaration a row yields is at an http address. */
  lemma EntryHttp(load: string -> Download, parse: Parser, row: Option<Row>)
    requires KeepsUrl(parse)
    ensures var es := EntriesOf(Retrieve(load, parse, row));
            forall i :: 0 <= i < |es| ==> HttpAddress(es[i].url)
  {
    if Retrieve(load, parse, row).Some? {
      RetrieveUrl(load, parse, row);
      GetXmlUrlHttp(row.value);
    }
  }
}
