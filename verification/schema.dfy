/** The attribute tables of the nine section parsers, with their section tags and keep
    conditions, transcribed from `parse_instruments_financiers` … `parse_informations_familiales`. */
module Schema {
  import opened Xml
  import opened Records
  import opened Text

  /** A one-step child path, "tag". */
  function Tag(t: string): Path {
    Child([t])
  }

  /** A two-step child path, "parent/tag". */
  function Sub(parent: string, t: string): Path {
    Child([parent, t])
  }

  const Commentaire: FieldRule := TextField("commentaire", [Tag("commentaire"), Tag("observation")])
  const DateDebut: FieldRule := TextField("date_debut", [Tag("dateDebut"), Tag("depuis")])
  const DateFin: FieldRule := TextField("date_fin", [Tag("dateFin"), Tag("jusqua")])
  const EnCours: FieldRule := BoolField("en_cours", Tag("enCours"))
  const ModeDetention: FieldRule := TextField("mode_detention", [Sub("modeDetention", "label"), Sub("modeDetention", "id")])

  /** `parse_instruments_financiers`: listed securities, savings plans, life insurance. */
  const InstrumentsSpec: SectionSpec := SectionSpec("instrumentsFinanciersDto", [
    Const("type", "instrument_financier"),
    TextField("nature", [Sub("nature", "label"), Sub("typeInstrument", "label"), Sub("nature", "id"), Sub("typeInstrument", "id")]),
    TextField("nature_code", [Sub("nature", "id"), Sub("typeInstrument", "id")]),
    TextField("description", [Tag("description"), Tag("denomination"), Tag("libelle"), Tag("nomEmetteur")]),
    AmountField("valeur_euro", [Tag("valeur"), Tag("valeurEstimee"), Tag("montant"), Tag("valeurTotale")]),
    ModeDetention,
    TextField("nombre_titres", [Tag("nombreTitres"), Tag("nbTitres")]),
    AmountField("valeur_unitaire_euro", [Tag("valeurUnitaire")]),
    TextField("isin", [Tag("codeISIN"), Tag("isin")]),
    TextField("devise", [Tag("devise"), Sub("devise", "id")]),
    TextField("date_acquisition", [Tag("dateAcquisition"), Tag("dateOuverture")]),
    TextField("etablissement", [Tag("etablissement"), Tag("nomEtablissement")]),
    Commentaire
  ], KeepRule(["nature", "description"], ["valeur_euro"]))

  /** `parse_participation_financiere`: holdings in unlisted companies. */
  const ParticipationsSpec: SectionSpec := SectionSpec("participationFinanciereDto", [
    Const("type", "participation_financiere"),
    TextField("nom_societe", [Tag("nomSociete"), Tag("denomination"), Tag("raisonSociale")]),
    TextField("forme_juridique", [Tag("formeJuridique"), Sub("typeStructure", "label")]),
    TextField("nb_parts", [Tag("nbParts"), Tag("nombreParts")]),
    AmountField("valeur_euro", [Tag("valeurParts"), Tag("valeur"), Tag("montant"), Tag("valeurEstimee")]),
    TextField("pourcentage_detention", [Tag("pourcentage"), Tag("tauxDetention")]),
    ModeDetention,
    TextField("objet_social", [Tag("objetSocial"), Tag("activite"), Tag("secteurActivite")]),
    TextField("adresse", [Tag("adresse"), Tag("siege")]),
    TextField("siren", [Tag("siren"), Tag("numeroSIREN")]),
    TextField("date_acquisition", [Tag("dateAcquisition"), Tag("dateEntree")]),
    Commentaire
  ], KeepRule(["nom_societe"], ["valeur_euro"]))

  /** `parse_biens_immobiliers`: homes, land, commercial premises. */
  const ImmobilierSpec: SectionSpec := SectionSpec("biensImmobiliersDto", [
    Const("type", "bien_immobilier"),
    TextField("nature", [Sub("nature", "label"), Sub("nature", "id"), Sub("typeBien", "label")]),
    TextField("nature_code", [Sub("nature", "id"), Sub("typeBien", "id")]),
    TextField("adresse", [Tag("adresse"), Tag("localisation"), Tag("commune")]),
    TextField("surface_m2", [Tag("surface"), Tag("superficieM2")]),
    AmountField("valeur_euro", [Tag("valeur"), Tag("valeurEstimee"), Tag("montant")]),
    ModeDetention,
    TextField("date_acquisition", [Tag("dateAcquisition"), Tag("dateAchat")]),
    TextField("mode_acquisition", [Sub("modeAcquisition", "label"), Sub("modeAcquisition", "id"), Tag("origine")]),
    TextField("usage", [Tag("usage"), Tag("affectation")]),
    Commentaire
  ], KeepRule(["nature", "adresse"], ["valeur_euro"]))

  /** `parse_prets_bancaires`: loans. */
  const PretsSpec: SectionSpec := SectionSpec("pretsBancairesDto", [
    Const("type", "pret_bancaire"),
    TextField("nature", [Sub("nature", "label"), Sub("nature", "id"), Sub("typeCredit", "label")]),
    TextField("etablissement", [Tag("etablissement"), Tag("organisme"), Tag("preteur")]),
    AmountField("montant_emprunte_euro", [Tag("montant"), Tag("montantEmprunte"), Tag("capitalEmprunte")]),
    AmountField("capital_restant_du_euro", [Tag("capitalRestantDu"), Tag("montantRestant"), Tag("solde")]),
    TextField("date_souscription", [Tag("dateSouscription"), Tag("dateEmprunt"), Tag("dateOuverture")]),
    TextField("duree_annees", [Tag("duree"), Tag("dureeAnnees")]),
    TextField("taux_interet", [Tag("tauxInteret"), Tag("taux")]),
    TextField("objet", [Tag("objet"), Tag("finalite"), Tag("motif")]),
    Commentaire
  ], KeepRule([], ["montant_emprunte_euro", "capital_restant_du_euro"]))

  /** `parse_autres_biens`: vehicles, art, jewellery, furniture. */
  const AutresBiensSpec: SectionSpec := SectionSpec("autresBiensDto", [
    Const("type", "autre_bien"),
    TextField("nature", [Sub("nature", "label"), Sub("nature", "id"), Sub("categorie", "label")]),
    TextField("description", [Tag("description"), Tag("designation"), Tag("libelle")]),
    AmountField("valeur_euro", [Tag("valeur"), Tag("valeurEstimee"), Tag("montant")]),
    TextField("date_acquisition", [Tag("dateAcquisition"), Tag("dateAchat")]),
    Commentaire
  ], KeepRule(["nature", "description"], ["valeur_euro"]))

  /** The `revenusDto` half of `parse_revenus_activites`. */
  const RevenusSpec: SectionSpec := SectionSpec("revenusDto", [
    Const("type", "revenu"),
    TextField("nature", [Sub("nature", "label"), Sub("nature", "id"), Sub("typeRevenu", "label")]),
    TextField("employeur", [Tag("employeur"), Tag("source"), Tag("organisme")]),
    AmountField("montant_annuel_euro", [Tag("montant"), Tag("montantAnnuel"), Tag("revenusAnnuels")]),
    TextField("activite", [Tag("activite"), Tag("fonction")]),
    DateDebut,
    DateFin,
    Commentaire
  ], KeepRule(["nature"], ["montant_annuel_euro"]))

  /** The `activitesRemunerees` half of `parse_revenus_activites`. */
  const ActivitesSpec: SectionSpec := SectionSpec("activitesRemunerees", [
    Const("type", "activite_remuneree"),
    TextField("nature", [Sub("nature", "label"), Sub("nature", "id"), Sub("typeActivite", "label")]),
    TextField("employeur", [Tag("employeur"), Tag("nomEmployeur"), Tag("organisme")]),
    TextField("fonction", [Tag("fonction"), Tag("intitulePoste"), Tag("activite")]),
    AmountField("montant_annuel_euro", [Tag("montant"), Tag("remunerationAnnuelle"), Tag("revenuAnnuel")]),
    TextField("secteur_activite", [Tag("secteurActivite"), Tag("domaine")]),
    DateDebut,
    DateFin,
    Commentaire
  ], KeepRule(["employeur", "fonction"], []))

  /** `parse_mandats_electifs`: elected offices. */
  const MandatsSpec: SectionSpec := SectionSpec("mandatsElectifsDto", [
    Const("type", "mandat_electif"),
    TextField("nature", [Sub("nature", "label"), Sub("nature", "id"), Sub("typeMandat", "label")]),
    TextField("fonction", [Tag("fonction"), Tag("intituleFonction"), Tag("qualite")]),
    TextField("collectivite", [Tag("collectivite"), Tag("organe"), Tag("assemblee")]),
    TextField("circonscription", [Tag("circonscription"), Tag("territoire"), Tag("zone")]),
    DateDebut,
    DateFin,
    EnCours,
    Commentaire
  ], KeepRule(["nature", "fonction"], []))

  /** The attribute table shared by the three sections of `parse_fonctions_dirigeantes`. */
  const FonctionFields: seq<FieldRule> := [
    Const("type", "fonction_dirigeante"),
    TextField("fonction", [Tag("fonction"), Tag("intituleFonction"), Tag("titre")]),
    TextField("organisme", [Tag("organisme"), Tag("nomOrganisme"), Tag("structure")]),
    TextField("nature_organisme", [Sub("natureOrganisme", "label"), Sub("natureOrganisme", "id"), Sub("typeStructure", "label")]),
    TextField("secteur_activite", [Tag("secteurActivite"), Tag("domaine"), Tag("objet")]),
    BoolField("remuneree", Tag("remuneree")),
    AmountField("montant_annuel_euro", [Tag("montant"), Tag("remuneration")]),
    DateDebut,
    DateFin,
    EnCours,
    Commentaire
  ]

  const FonctionKeep: KeepRule := KeepRule(["fonction", "organisme"], [])

  /** The section tags `parse_fonctions_dirigeantes` visits, in order. */
  const FonctionTags: seq<string> := ["fonctionsDto", "fonctionsDirigeantes", "fonctionsBenevoles"]

  /** The children of `parse_informations_familiales`; no "type" attribute. */
  const EnfantsSpec: SectionSpec := SectionSpec("enfantsDto", [
    TextField("date_naissance", [Tag("dateNaissance"), Tag("anneeNaissance")]),
    BoolField("a_charge", Tag("aCharge"))
  ], KeepRule(["date_naissance"], []))

  /** The spouse record of `parse_informations_familiales`. */
  const ConjointFields: seq<FieldRule> := [
    TextField("nom", [Tag("nom")]),
    TextField("prenom", [Tag("prenom")]),
    TextField("profession", [Tag("profession"), Tag("activiteProfessionnelle")]),
    TextField("employeur", [Tag("employeur"), Tag("nomEmployeur")]),
    TextField("secteur_activite", [Tag("secteurActivite")])
  ]

  /** The eight per-kind lists a declaration and a profile carry. */
  datatype Kind =
    | Instruments | Participations | Immobilier | Prets | AutresBiens | RevenusActivites
    | Mandats | Fonctions

  /** The section parsers each kind's list is made of, in the order they are concatenated. */
  function KindSpecs(k: Kind): (specs: seq<SectionSpec>)
    ensures |specs| >= 1
  {
    match k
    case Instruments => [InstrumentsSpec]
    case Participations => [ParticipationsSpec]
    case Immobilier => [ImmobilierSpec]
    case Prets => [PretsSpec]
    case AutresBiens => [AutresBiensSpec]
    case RevenusActivites => [RevenusSpec, ActivitesSpec]
    case Mandats => [MandatsSpec]
    case Fonctions =>
      [SectionSpec(FonctionTags[0], FonctionFields, FonctionKeep),
       SectionSpec(FonctionTags[1], FonctionFields, FonctionKeep),
       SectionSpec(FonctionTags[2], FonctionFields, FonctionKeep)]
  }

  /** The "type" attribute values a kind's records carry. */
  function TypeNames(k: Kind): set<string> {
    match k
    case Instruments => {"instrument_financier"}
    case Participations => {"participation_financiere"}
    case Immobilier => {"bien_immobilier"}
    case Prets => {"pret_bancaire"}
    case AutresBiens => {"autre_bien"}
    case RevenusActivites => {"revenu", "activite_remuneree"}
    case Mandats => {"mandat_electif"}
    case Fonctions => {"fonction_dirigeante"}
  }

  /* No table defines an attribute twice, so no rule is shadowed by a later one in the dict,
     and every kind's table leads with its "type" constant. */

  lemma InstrumentsTyped()
    ensures LeadsWithConst(InstrumentsSpec, "type", TypeNames(Instruments))
  {
    InstrumentsDistinct();
  }

  lemma ParticipationsTyped()
    ensures LeadsWithConst(ParticipationsSpec, "type", TypeNames(Participations))
  {
    ParticipationsDistinct();
  }

  lemma ImmobilierTyped()
    ensures LeadsWithConst(ImmobilierSpec, "type", TypeNames(Immobilier))
  {
    ImmobilierDistinct();
  }

  lemma PretsTyped()
    ensures LeadsWithConst(PretsSpec, "type", TypeNames(Prets))
  {
    PretsDistinct();
  }

  lemma AutresBiensTyped()
    ensures LeadsWithConst(AutresBiensSpec, "type", TypeNames(AutresBiens))
  {
    AutresBiensDistinct();
  }

  lemma RevenusTyped()
    ensures LeadsWithConst(RevenusSpec, "type", TypeNames(RevenusActivites))
  {
    RevenusDistinct();
  }

  lemma ActivitesTyped()
    ensures LeadsWithConst(ActivitesSpec, "type", TypeNames(RevenusActivites))
  {
    ActivitesDistinct();
  }

  lemma MandatsTyped()
    ensures LeadsWithConst(MandatsSpec, "type", TypeNames(Mandats))
  {
    MandatsDistinct();
  }

  lemma FonctionsTyped(tag: string)
    ensures LeadsWithConst(SectionSpec(tag, FonctionFields, FonctionKeep), "type", TypeNames(Fonctions))
  {
    FonctionsDistinct();
  }

  lemma InstrumentsDistinct()
    ensures DistinctNames(InstrumentsSpec.fields)
  {
  }

  lemma ParticipationsDistinct()
    ensures DistinctNames(ParticipationsSpec.fields)
  {
  }

  lemma ImmobilierDistinct()
    ensures DistinctNames(ImmobilierSpec.fields)
  {
  }

  lemma PretsDistinct()
    ensures DistinctNames(PretsSpec.fields)
  {
  }

  lemma AutresBiensDistinct()
    ensures DistinctNames(AutresBiensSpec.fields)
  {
  }

  lemma RevenusDistinct()
    ensures DistinctNames(RevenusSpec.fields)
  {
  }

  lemma ActivitesDistinct()
    ensures DistinctNames(ActivitesSpec.fields)
  {
  }

  lemma MandatsDistinct()
    ensures DistinctNames(MandatsSpec.fields)
  {
  }

  lemma FonctionsDistinct()
    ensures DistinctNames(FonctionFields)
  {
  }

  lemma EnfantsDistinct()
    ensures DistinctNames(EnfantsSpec.fields)
  {
  }

  lemma ConjointDistinct()
    ensures DistinctNames(ConjointFields)
  {
  }

  /** Each of a kind's section tables has distinct names and leads with its "type" constant. */
  lemma KindTablesTyped(k: Kind, j: nat)
    requires j < |KindSpecs(k)|
    ensures LeadsWithConst(KindSpecs(k)[j], "type", TypeNames(k))
  {
    match k
    case Instruments => InstrumentsTyped();
    case Participations => ParticipationsTyped();
    case Immobilier => ImmobilierTyped();
    case Prets => PretsTyped();
    case AutresBiens => AutresBiensTyped();
    case RevenusActivites => RevenusTyped(); ActivitesTyped();
    case Mandats => MandatsTyped();
    case Fonctions => FonctionsTyped(FonctionTags[j]);
  }

  /** Every record of a kind's list carries the kind's "type" attribute. */
  lemma KindRecordsTyped(ops: CaseOps, root: Node, k: Kind, n: nat)
    requires n < |ParseSections(ops, root, KindSpecs(k))|
    ensures "type" in ParseSections(ops, root, KindSpecs(k))[n]
    ensures var v := ParseSections(ops, root, KindSpecs(k))[n]["type"]; v.Str? && v.s in TypeNames(k)
  {
    forall j | 0 <= j < |KindSpecs(k)|
      ensures LeadsWithConst(KindSpecs(k)[j], "type", TypeNames(k))
    {
      KindTablesTyped(k, j);
    }
    ParseSectionsConst(ops, root, KindSpecs(k), "type", TypeNames(k), n);
  }
  /** A loan is emitted only when its borrowed amount or its outstanding capital parsed. */
  lemma PretsKept(ops: CaseOps, root: Node, n: nat)
    requires n < |ParseSection(ops, root, PretsSpec)|
    ensures var r := ParseSection(ops, root, PretsSpec)[n];
            AmountPresent(r, "montant_emprunte_euro") || AmountPresent(r, "capital_restant_du_euro")
  {
    var r := ParseSection(ops, root, PretsSpec)[n];
    assert PretsSpec.keep == KeepRule([], ["montant_emprunte_euro", "capital_restant_du_euro"]);
    KeepsEitherAmount(r, "montant_emprunte_euro", "capital_restant_du_euro");
  }

  lemma KeepsEitherAmount(r: Record, a: string, b: string)
    requires Keeps(KeepRule([], [a, b]), r)
    ensures AmountPresent(r, a) || AmountPresent(r, b)
  {
  }

  /** An elective mandate is emitted only when its nature or its role is non-empty. */
  lemma MandatsKept(ops: CaseOps, root: Node, n: nat)
    requires n < |ParseSection(ops, root, MandatsSpec)|
    ensures var r := ParseSection(ops, root, MandatsSpec)[n];
            TextPresent(r, "nature") || TextPresent(r, "fonction")
  {
    var r := ParseSection(ops, root, MandatsSpec)[n];
    assert MandatsSpec.keep == KeepRule(["nature", "fonction"], []);
    KeepsEitherText(r, "nature", "fonction");
  }

  lemma KeepsEitherText(r: Record, a: string, b: string)
    requires Keeps(KeepRule([a, b], []), r)
    ensures TextPresent(r, a) || TextPresent(r, b)
  {
  }

  /** A real-estate record is emitted only when its nature, its address or its value is present. */
  lemma ImmobilierKept(ops: CaseOps, root: Node, n: nat)
    requires n < |ParseSection(ops, root, ImmobilierSpec)|
    ensures var r := ParseSection(ops, root, ImmobilierSpec)[n];
            TextPresent(r, "nature") || TextPresent(r, "adresse") || AmountPresent(r, "valeur_euro")
  {
    var r := ParseSection(ops, root, ImmobilierSpec)[n];
    assert ImmobilierSpec.keep == KeepRule(["nature", "adresse"], ["valeur_euro"]);
    KeepsTwoTextsOrAmount(r, "nature", "adresse", "valeur_euro");
  }

  lemma KeepsTwoTextsOrAmount(r: Record, a: string, b: string, c: string)
    requires Keeps(KeepRule([a, b], [c]), r)
    ensures TextPresent(r, a) || TextPresent(r, b) || AmountPresent(r, c)
  {
  }
}
