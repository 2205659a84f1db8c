/** The statistical summary of a consolidated profile (`build_resume_complet`) and its
    recording in the list of officials (`update_elu_in_list`). */
module Resume {
  import opened Wrappers
  import opened Records
  import opened Schema
  import opened Declarations
  import opened Consolidate
  import Seqs

  /** `rec.get(key, 0) or 0`: a record's amount, where a missing attribute and an amount that
      did not parse both count as 0. */
  function AmountOf(rec: Record, key: string): real {
    if key in rec && rec[key].Money? && rec[key].amount.Some? then rec[key].amount.value else 0.0
  }

  /** The sum of the amounts `key` over `rs`. */
  function Total(rs: seq<Record>, key: string): real
    decreases |rs|
  {
    if rs == [] then 0.0 else AmountOf(rs[0], key) + Total(rs[1..], key)
  }

  /** Summing over two lists one after the other is summing over their concatenation. */
  lemma {:induction false} TotalAppend(a: seq<Record>, b: seq<Record>, key: string)
    ensures Total(a + b, key) == Total(a, key) + Total(b, key)
    decreases |a|
  {
    if a == [] {
      assert a + b == b;
    } else {
      assert (a + b)[1..] == a[1..] + b;
      TotalAppend(a[1..], b, key);
    }
  }

  /** A record carries an amount under `key`. */
  predicate Priced(rec: Record, key: string) {
    key in rec && rec[key].Money? && rec[key].amount.Some?
  }

  function PricedBy(key: string): Record -> bool {
    rec => Priced(rec, key)
  }

  /** Records without an amount change no sum: the total is the total over the priced records. */
  lemma {:induction false} TotalIgnoresUnpriced(rs: seq<Record>, key: string)
    ensures Total(rs, key) == Total(Seqs.Filter(rs, PricedBy(key)), key)
    decreases |rs|
  {
    if rs != [] {
      TotalIgnoresUnpriced(rs[1..], key);
      var p := PricedBy(key);
      if p(rs[0]) {
        assert Seqs.Filter(rs, p) == [rs[0]] + Seqs.Filter(rs[1..], p);
        assert (([rs[0]] + Seqs.Filter(rs[1..], p)))[1..] == Seqs.Filter(rs[1..], p);
      } else {
        assert Seqs.Filter(rs, p) == Seqs.Filter(rs[1..], p);
      }
    }
  }

  /** The amount attribute each kind contributes to the gross assets, debts or income. */
  const ValueKey := "valeur_euro"
  const DebtKey := "capital_restant_du_euro"
  const IncomeKey := "montant_annuel_euro"

  /** Gross assets: the values of instruments, participations, real estate and other assets. */
  function Brut(h: Holdings): real {
    Total(h.instruments, ValueKey) + Total(h.participations, ValueKey)
    + Total(h.immobilier, ValueKey) + Total(h.autres, ValueKey)
  }

  /** Debts: the capital still owed on the loans. */
  function Dettes(h: Holdings): real {
    Total(h.prets, DebtKey)
  }

  /** Income: the annual amounts of the income and activity records. */
  function Revenus(h: Holdings): real {
    Total(h.revenus, IncomeKey)
  }

  /** The summary; amounts are exact (the source rounds each to two decimals). */
  datatype Summary = Summary(
    nbInstruments: nat, nbParticipations: nat, nbImmobilier: nat, nbPrets: nat, nbAutres: nat,
    nbRevenus: nat, nbMandats: nat, nbFonctions: nat,
    brut: real, net: real, valeurInstruments: real, valeurParticipations: real,
    valeurImmobilier: real, valeurAutres: real, dettes: real, revenus: real,
    nbDeclarations: nat, aConjoint: bool, nbEnfants: nat)
  {
    /** The count reported for kind `k`. */
    function Count(k: Kind): nat {
      match k
      case Instruments => nbInstruments
      case Participations => nbParticipations
      case Immobilier => nbImmobilier
      case Prets => nbPrets
      case AutresBiens => nbAutres
      case RevenusActivites => nbRevenus
      case Mandats => nbMandats
      case Fonctions => nbFonctions
    }
  }

  /** `bool(famille.get("conjoint", {}).get("nom"))`: the family has a spouse with a name. */
  predicate HasNamedConjoint(f: Option<Famille>) {
    && f.Some? && f.value.conjoint.Some?
    && var c := f.value.conjoint.value;
       "nom" in c && c["nom"].Str? && c["nom"].s != ""
  }

  /** `build_resume_complet`. */
  function BuildResume(p: Profile): Summary {
    var h := p.holdings;
    var brut := Brut(h);
    var dettes := Dettes(h);
    Summary(
      |h.instruments|, |h.participations|, |h.immobilier|, |h.prets|, |h.autres|,
      |h.revenus|, |h.mandats|, |h.fonctions|,
      brut, brut - dettes,
      Total(h.instruments, ValueKey), Total(h.participations, ValueKey),
      Total(h.immobilier, ValueKey), Total(h.autres, ValueKey),
      dettes, Revenus(h),
      p.found, HasNamedConjoint(p.famille),
      if p.famille.Some? then |p.famille.value.enfants| else 0)
  }

  /** Every count is the length of its list, so records without an amount are counted too; the
      net assets are the gross assets less the debts, the gross assets the four asset values. */
  lemma ResumeCounts(p: Profile)
    ensures forall k: Kind :: BuildResume(p).Count(k) == |p.holdings.Of(k)|
    ensures var r := BuildResume(p);
            && r.net + r.dettes == r.brut
            && r.brut == r.valeurInstruments + r.valeurParticipations + r.valeurImmobilier + r.valeurAutres
  {
  }

  /** The amount a retrieved declaration contributes to a sum (nothing when none was retrieved). */
  function DeclaredBrut(d: Option<Declaration>): real {
    if d.Some? then Brut(d.value.holdings) else 0.0
  }

  function DeclaredDettes(d: Option<Declaration>): real {
    if d.Some? then Dettes(d.value.holdings) else 0.0
  }

  function DeclaredRevenus(d: Option<Declaration>): real {
    if d.Some? then Revenus(d.value.holdings) else 0.0
  }

  /** The holdings of two declarations absorbed in turn: every sum adds up. */
  lemma SumsOfConcatenation(h: Holdings, a: Option<Declaration>, b: Option<Declaration>)
    requires forall k: Kind :: h.Of(k) == KindOf(a, k) + KindOf(b, k)
    ensures Brut(h) == DeclaredBrut(a) + DeclaredBrut(b)
    ensures Dettes(h) == DeclaredDettes(a) + DeclaredDettes(b)
    ensures Revenus(h) == DeclaredRevenus(a) + DeclaredRevenus(b)
  {
    forall k: Kind, key: string
      ensures Total(h.Of(k), key) == Total(KindOf(a, k), key) + Total(KindOf(b, k), key)
    {
      TotalAppend(KindOf(a, k), KindOf(b, k), key);
    }
    assert h.Of(Instruments) == h.instruments && h.Of(Participations) == h.participations;
    assert h.Of(Immobilier) == h.immobilier && h.Of(AutresBiens) == h.autres;
    assert h.Of(Prets) == h.prets && h.Of(RevenusActivites) == h.revenus;
  }

  /** The summary of a consolidated profile: gross assets, debts and income are those of the
      situation declaration plus those of the interest declaration, and the net assets follow. */
  lemma ResumeOfConsolidation(ops: Text.CaseOps, parseDate: string -> Option<nat>, load: string -> Download,
                              parse: Parser, index: seq<Index.Row>, eluPrenom: string, eluNom: string)
    requires Consolidation(ops, parseDate, load, parse, index, eluPrenom, eluNom).Some?
    ensures var r := BuildResume(Consolidation(ops, parseDate, load, parse, index, eluPrenom, eluNom).value);
            var dsp := Retrieved(ops, parseDate, load, parse, index, eluPrenom, eluNom, Index.DspTypes);
            var di := Retrieved(ops, parseDate, load, parse, index, eluPrenom, eluNom, Index.DiTypes);
            && r.brut == DeclaredBrut(dsp) + DeclaredBrut(di)
            && r.dettes == DeclaredDettes(dsp) + DeclaredDettes(di)
            && r.revenus == DeclaredRevenus(dsp) + DeclaredRevenus(di)
            && r.net == (DeclaredBrut(dsp) - DeclaredDettes(dsp)) + (DeclaredBrut(di) - DeclaredDettes(di))
  {
    var p := Consolidation(ops, parseDate, load, parse, index, eluPrenom, eluNom).value;
    var dsp := Retrieved(ops, parseDate, load, parse, index, eluPrenom, eluNom, Index.DspTypes);
    var di := Retrieved(ops, parseDate, load, parse, index, eluPrenom, eluNom, Index.DiTypes);
    ConsolidationHoldings(ops, parseDate, load, parse, index, eluPrenom, eluNom);
    SumsOfConcatenation(p.holdings, dsp, di);
  }

  /** The children counted in the summary of a consolidated profile are those of every
      retrieved declaration's family block together (none when no declaration was retrieved). */
  lemma ResumeChildrenOfConsolidation(ops: Text.CaseOps, parseDate: string -> Option<nat>, load: string -> Download,
                                      parse: Parser, index: seq<Index.Row>, eluPrenom: string, eluNom: string)
    requires Consolidation(ops, parseDate, load, parse, index, eluPrenom, eluNom).Some?
    ensures var r := BuildResume(Consolidation(ops, parseDate, load, parse, index, eluPrenom, eluNom).value);
            var dsp := Retrieved(ops, parseDate, load, parse, index, eluPrenom, eluNom, Index.DspTypes);
            var di := Retrieved(ops, parseDate, load, parse, index, eluPrenom, eluNom, Index.DiTypes);
            r.nbEnfants == |AllEnfants(FamillesOf(dsp) + FamillesOf(di))|
  {
    ConsolidationFamille(ops, parseDate, load, parse, index, eluPrenom, eluNom);
  }

  /** An official in the list of officials: the `id` attribute (absent for some), the other
      attributes, and the summary stored under `hatvp_complete`. */
  datatype Elu = Elu(id: Option<string>, attributes: map<string, string>, hatvpComplete: Option<Summary>)

  function HasId(eluId: string): Elu -> bool {
    (e: Elu) => e.id == Some(eluId)
  }

  /** `update_elu_in_list`: the first official whose `id` is `eluId` gets `data` as summary;
      the others, and every official when none has that id, are left as they are. */
  method UpdateEluInList(elus: seq<Elu>, eluId: string, data: Summary) returns (r: seq<Elu>)
    ensures |r| == |elus|
    ensures forall i :: 0 <= i < |elus| ==>
              r[i] == if i == Seqs.FirstIndex(elus, HasId(eluId)) then elus[i].(hatvpComplete := Some(data))
                      else elus[i]
  {
    var i := 0;
    while i < |elus|
      invariant 0 <= i <= |elus|
      invariant forall j :: 0 <= j < i ==> elus[j].id != Some(eluId)
    {
      if elus[i].id == Some(eluId) {
        r := elus[i := elus[i].(hatvpComplete := Some(data))];
        return;
      }
      i := i + 1;
    }
    r := elus;
  }
}
