/** The simulated compatibility analysis of TestResults.tsx: the body of the
    timer callback that draws random base values, applies at most one
    disease-specific adjustment, clamps, and writes a `TestResult`; and the
    bands the result panel uses to label it.

    Each `Math.floor(Math.random() * n) + k` becomes a draw parameter
    `0 <= draw < n` and the value `draw + k`. */
module Assessment {
  import opened Strings
  import opened Types
  import opened Criteria

  // ---------------------------------------------------------------------
  // The adjustment rules, tried in this order; the first that applies wins

  datatype Adjustment = AmpkForNeurological | ReductaseForMetabolic | AspirinForHematological

  const AdjustmentOrder: seq<Adjustment> := [AmpkForNeurological, ReductaseForMetabolic, AspirinForHematological]

  predicate Applies(adjustment: Adjustment, drug: Drug, disease: Disease)
  {
    match adjustment
    case AmpkForNeurological => disease.category == Neurological && TargetsAmpk(drug)
    case ReductaseForMetabolic => disease.category == Metabolic && MechanismMentionsReductase(drug)
    case AspirinForHematological => disease.category == Hematological && IsAspirin(drug)
  }

  /** The first rule of `rules` that applies, if any. */
  function FirstApplying(rules: seq<Adjustment>, drug: Drug, disease: Disease): Option<Adjustment>
  {
    if rules == [] then None
    else if Applies(rules[0], drug, disease) then Some(rules[0])
    else FirstApplying(rules[1..], drug, disease)
  }

  /** The adjustment the analysis makes; none without a disease. */
  function SelectAdjustment(drug: Drug, disease: Option<Disease>): Option<Adjustment>
  {
    match disease
    case None => None
    case Some(d) => FirstApplying(AdjustmentOrder, drug, d)
  }

  /** First match: the chosen rule applies and no rule listed before it
      does; no rule is chosen exactly when none applies. */
  lemma {:induction false} FirstApplyingIsFirst(rules: seq<Adjustment>, drug: Drug, disease: Disease)
    ensures FirstApplying(rules, drug, disease).None?
        <==> forall q | 0 <= q < |rules| :: !Applies(rules[q], drug, disease)
    ensures FirstApplying(rules, drug, disease).Some? ==>
      exists p | 0 <= p < |rules| ::
        && rules[p] == FirstApplying(rules, drug, disease).value
        && Applies(rules[p], drug, disease)
        && forall q | 0 <= q < p :: !Applies(rules[q], drug, disease)
  {
    if rules != [] && !Applies(rules[0], drug, disease) {
      FirstApplyingIsFirst(rules[1..], drug, disease);
      var r := FirstApplying(rules, drug, disease);
      if r.Some? {
        var p :| 0 <= p < |rules[1..]| && rules[1..][p] == r.value && Applies(rules[1..][p], drug, disease)
          && forall q | 0 <= q < p :: !Applies(rules[1..][q], drug, disease);
        assert rules[p + 1] == r.value;
        assert forall q | 0 <= q < p + 1 :: !Applies(rules[q], drug, disease) by {
          forall q | 0 <= q < p + 1 ensures !Applies(rules[q], drug, disease) {
            if q > 0 {
              assert rules[q] == rules[1..][q - 1];
            }
          }
        }
      } else {
        forall q | 0 <= q < |rules| ensures !Applies(rules[q], drug, disease) {
          if q > 0 {
            assert rules[q] == rules[1..][q - 1];
          }
        }
      }
    }
  }

  /** The ordered table is the source's if/else-if chain. */
  lemma TableIsChain(drug: Drug, disease: Disease)
    ensures FirstApplying(AdjustmentOrder, drug, disease)
         == if Applies(AmpkForNeurological, drug, disease) then Some(AmpkForNeurological)
            else if Applies(ReductaseForMetabolic, drug, disease) then Some(ReductaseForMetabolic)
            else if Applies(AspirinForHematological, drug, disease) then Some(AspirinForHematological)
            else None
  {
    var third := [AspirinForHematological];
    var second := [ReductaseForMetabolic] + third;
    assert AdjustmentOrder == [AmpkForNeurological] + second;
    assert second[1..] == third && third[1..] == [];
    assert FirstApplying(third, drug, disease)
        == if Applies(AspirinForHematological, drug, disease) then Some(AspirinForHematological) else None;
    assert FirstApplying(second, drug, disease)
        == if Applies(ReductaseForMetabolic, drug, disease) then Some(ReductaseForMetabolic)
           else FirstApplying(third, drug, disease);
  }

  /** Every rule names a different category, so for one disease at most
      one rule can apply: the order of the chain never decides anything. */
  lemma AtMostOneApplies(drug: Drug, disease: Disease, a: Adjustment, b: Adjustment)
    requires Applies(a, drug, disease) && Applies(b, drug, disease)
    ensures a == b
  {
  }

  /** `compatibility += …` of the chosen rule. */
  function CompatibilityBonus(adjustment: Option<Adjustment>): int
  {
    match adjustment
    case None => 0
    case Some(AmpkForNeurological) => 5
    case Some(ReductaseForMetabolic) => 8
    case Some(AspirinForHematological) => 6
  }

  /** `toxicity -= …` of the chosen rule. */
  function ToxicityChange(adjustment: Option<Adjustment>): int
  {
    match adjustment
    case Some(ReductaseForMetabolic) => -5
    case _ => 0
  }

  // ---------------------------------------------------------------------
  // The text of the result

  const AmpkOpening: string := " The drug's AMPK activation mechanism shows enhanced compatibility with "
  const AmpkClosing: string := ", as AMPK pathways are crucial in neurological disorders."
  const ReductaseOpening: string := " The reductase inhibition mechanism is particularly well-suited for "
  const ReductaseClosing: string := ", showing improved safety profile in metabolic conditions."
  const AspirinOpening: string := " Aspirin's " + "antiplatelet"
  const AspirinMiddle: string := " effects demonstrate strong therapeutic potential for "
  const AspirinClosing: string := " management."

  function AmpkClause(diseaseName: string): string
  {
    AmpkOpening + diseaseName + AmpkClosing
  }

  function ReductaseClause(diseaseName: string): string
  {
    ReductaseOpening + diseaseName + ReductaseClosing
  }

  function AspirinClause(diseaseName: string): string
  {
    AspirinOpening + AspirinMiddle + diseaseName + AspirinClosing
  }

  /** The sentence the chosen rule adds to the explanation; empty if none. */
  function DiseaseClause(adjustment: Option<Adjustment>, diseaseName: string): string
  {
    match adjustment
    case None => ""
    case Some(AmpkForNeurological) => AmpkClause(diseaseName)
    case Some(ReductaseForMetabolic) => ReductaseClause(diseaseName)
    case Some(AspirinForHematological) => AspirinClause(diseaseName)
  }

  const Rationale: string :=
    " compatibility due to its selective binding mechanism and favorable pharmacokinetic properties."
    + " However, potential off-target effects may limit its effectiveness in certain patient populations."

  /** The fixed sentence, "high" or "moderate" by the compatibility before
      clamping, followed by the disease clause. */
  function Explanation(adjustedCompatibility: int, clause: string): string
  {
    "The drug shows " + Qualifier(adjustedCompatibility) + Rationale + clause
  }

  function Qualifier(adjustedCompatibility: int): string
  {
    if adjustedCompatibility > 85 then "high" else "moderate"
  }

  /** The explanation opens with "The drug shows high" exactly when the
      compatibility it was built from exceeds 85. */
  lemma QualifierChoice(adjustedCompatibility: int, clause: string)
    ensures var e := Explanation(adjustedCompatibility, clause);
      |e| >= 19 && (e[..19] == "The drug shows high" <==> adjustedCompatibility > 85)
  {
    var e := Explanation(adjustedCompatibility, clause);
    var opening, rest := "The drug shows ", Rationale + clause;
    assert e == opening + Qualifier(adjustedCompatibility) + rest;
    if adjustedCompatibility > 85 {
      assert e[..19] == opening + "high";
    } else {
      assert e[15] == 'm';
      assert (opening + "high")[15] == 'h';
    }
  }

  const GenericModifications: seq<string> := [
    "Modify the aromatic ring system to improve selectivity",
    "Add a hydrophilic group to enhance bioavailability",
    "Consider stereochemical optimization for better binding"
  ]

  /** Three fixed suggestions and a fourth about the disease's category, or
      a prodrug suggestion when there is no disease. */
  function Modifications(disease: Option<Disease>): seq<string>
  {
    GenericModifications + [
      match disease
      case Some(d) => "Optimize dosing regimen for " + ToLower(d.category) + " conditions"
      case None => "Explore prodrug approaches to reduce toxicity"
    ]
  }

  function Min(a: int, b: int): int { if a <= b then a else b }

  function Max(a: int, b: int): int { if a >= b then a else b }

  function DiseaseName(disease: Option<Disease>): string
  {
    match disease
    case None => ""
    case Some(d) => d.name
  }

  // ---------------------------------------------------------------------
  // The assessment

  /** Whether three draws can come out of `Math.floor(Math.random() * n)`
      for n = 20 (compatibility), 30 (toxicity) and 15 (confidence). */
  predicate ValidDraws(compatibilityDraw: int, toxicityDraw: int, confidenceDraw: int)
  {
    && 0 <= compatibilityDraw < 20
    && 0 <= toxicityDraw < 30
    && 0 <= confidenceDraw < 15
  }

  /** The result, computed from the rule table. Whatever the draws, the
      scores stay in the ranges the result panel expects, there are always
      four suggestions and the explanation is never empty. */
  function Assess(drug: Drug, disease: Option<Disease>, compatibilityDraw: int, toxicityDraw: int, confidenceDraw: int)
    : (r: TestResult)
    requires ValidDraws(compatibilityDraw, toxicityDraw, confidenceDraw)
    ensures 75 <= r.compatibility <= 98
    ensures 5 <= r.toxicity <= 39
    ensures 85 <= r.confidence <= 99
    ensures |r.modifications| == 4 && r.modifications[..3] == GenericModifications
    ensures |r.explanation| > 0
  {
    var adjustment := SelectAdjustment(drug, disease);
    var compatibility := compatibilityDraw + 75 + CompatibilityBonus(adjustment);
    var toxicity := toxicityDraw + 10 + ToxicityChange(adjustment);
    TestResult(
      Min(compatibility, 98),
      Max(toxicity, 5),
      Explanation(compatibility, DiseaseClause(adjustment, DiseaseName(disease))),
      Modifications(disease),
      confidenceDraw + 85)
  }

  /** The five fields of the result, one by one. */
  lemma AssessFields(drug: Drug, disease: Option<Disease>, cDraw: int, tDraw: int, kDraw: int)
    requires ValidDraws(cDraw, tDraw, kDraw)
    ensures var adjustment := SelectAdjustment(drug, disease);
      Assess(drug, disease, cDraw, tDraw, kDraw) == TestResult(
        Min(cDraw + 75 + CompatibilityBonus(adjustment), 98),
        Max(tDraw + 10 + ToxicityChange(adjustment), 5),
        Explanation(cDraw + 75 + CompatibilityBonus(adjustment), DiseaseClause(adjustment, DiseaseName(disease))),
        Modifications(disease),
        kDraw + 85)
  {
  }

  /** The timer callback as the component runs it: local variables adjusted
      by an if/else-if chain, then one `setTestResult`. */
  method RunAssessment(drug: Drug, disease: Option<Disease>, compatibilityDraw: int, toxicityDraw: int, confidenceDraw: int)
    returns (result: TestResult)
    requires ValidDraws(compatibilityDraw, toxicityDraw, confidenceDraw)
    ensures result == Assess(drug, disease, compatibilityDraw, toxicityDraw, confidenceDraw)
  {
    ghost var adjustment := SelectAdjustment(drug, disease);
    var baseCompatibility := compatibilityDraw + 75;
    var baseToxicity := toxicityDraw + 10;
    var adjustedCompatibility := baseCompatibility;
    var adjustedToxicity := baseToxicity;
    var diseaseSpecificExplanation := "";
    if disease.Some? {
      var d := disease.value;
      TableIsChain(drug, d);
      if d.category == Neurological && TargetsAmpk(drug) {
        assert adjustment == Some(AmpkForNeurological);
        adjustedCompatibility := adjustedCompatibility + 5;
        diseaseSpecificExplanation := AmpkClause(d.name);
      } else if d.category == Metabolic && MechanismMentionsReductase(drug) {
        assert adjustment == Some(ReductaseForMetabolic);
        adjustedCompatibility := adjustedCompatibility + 8;
        adjustedToxicity := adjustedToxicity - 5;
        diseaseSpecificExplanation := ReductaseClause(d.name);
      } else if d.category == Hematological && IsAspirin(drug) {
        assert adjustment == Some(AspirinForHematological);
        adjustedCompatibility := adjustedCompatibility + 6;
        diseaseSpecificExplanation := AspirinClause(d.name);
      } else {
        assert adjustment == None;
      }
    }
    assert adjustedCompatibility == baseCompatibility + CompatibilityBonus(adjustment);
    assert adjustedToxicity == baseToxicity + ToxicityChange(adjustment);
    assert diseaseSpecificExplanation == DiseaseClause(adjustment, DiseaseName(disease));
    AssessFields(drug, disease, compatibilityDraw, toxicityDraw, confidenceDraw);
    result := TestResult(
      Min(adjustedCompatibility, 98),
      Max(adjustedToxicity, 5),
      Explanation(adjustedCompatibility, diseaseSpecificExplanation),
      Modifications(disease),
      confidenceDraw + 85);
  }

  // ---------------------------------------------------------------------
  // Properties of the assessment

  /** Without a disease, or when no rule applies, the draws are reported
      as drawn and the explanation has no disease clause. */
  lemma NoAdjustmentWithoutMatch(drug: Drug, disease: Option<Disease>, cDraw: int, tDraw: int, kDraw: int)
    requires ValidDraws(cDraw, tDraw, kDraw)
    requires disease == None || forall a: Adjustment :: !Applies(a, drug, disease.value)
    ensures Assess(drug, disease, cDraw, tDraw, kDraw).compatibility == cDraw + 75
    ensures Assess(drug, disease, cDraw, tDraw, kDraw).toxicity == tDraw + 10
    ensures Assess(drug, disease, cDraw, tDraw, kDraw).explanation
         == Explanation(cDraw + 75, "")
  {
    if disease.Some? {
      FirstApplyingIsFirst(AdjustmentOrder, drug, disease.value);
    }
  }

  /** The lower clamp on toxicity never changes anything: the lowest value
      a rule can produce is 10 - 5 = 5. */
  lemma ToxicityClampIsInert(drug: Drug, disease: Option<Disease>, cDraw: int, tDraw: int, kDraw: int)
    requires ValidDraws(cDraw, tDraw, kDraw)
    ensures Assess(drug, disease, cDraw, tDraw, kDraw).toxicity
         == tDraw + 10 + ToxicityChange(SelectAdjustment(drug, disease))
  {
  }

  /** The upper clamp on compatibility does bite: a reductase drug for a
      metabolic disease with the highest draw would reach 94 + 8 = 102. */
  lemma CompatibilityClampBites(drug: Drug, disease: Disease)
    requires disease.category == Metabolic && MechanismMentionsReductase(drug)
    ensures Assess(drug, Some(disease), 19, 0, 0).compatibility == 98
    ensures 19 + 75 + CompatibilityBonus(SelectAdjustment(drug, Some(disease))) == 102
  {
    TableIsChain(drug, disease);
  }

  /** The explanation says "high" exactly when the reported compatibility
      exceeds 85, so the text never contradicts the score it comes with,
      though it is chosen before clamping. */
  lemma ExplanationAgreesWithScore(drug: Drug, disease: Option<Disease>, cDraw: int, tDraw: int, kDraw: int)
    requires ValidDraws(cDraw, tDraw, kDraw)
    ensures var r := Assess(drug, disease, cDraw, tDraw, kDraw);
      |r.explanation| >= 19 && (r.explanation[..19] == "The drug shows high" <==> r.compatibility > 85)
  {
    var adjustment := SelectAdjustment(drug, disease);
    QualifierChoice(cDraw + 75 + CompatibilityBonus(adjustment), DiseaseClause(adjustment, DiseaseName(disease)));
  }

  /** For a haematological disease and Aspirin the analysis adds 6 to the
      drawn compatibility, clamped at 98, leaves toxicity alone and cites
      the antiplatelet effect. */
  lemma AspirinForHematologicalScenario(drug: Drug, disease: Disease, cDraw: int, tDraw: int, kDraw: int)
    requires ValidDraws(cDraw, tDraw, kDraw)
    requires disease.category == Hematological && drug.name == "Aspirin"
    ensures var r := Assess(drug, Some(disease), cDraw, tDraw, kDraw);
      && r.compatibility == Min(cDraw + 75 + 6, 98)
      && r.toxicity == tDraw + 10
      && Contains(r.explanation, "antiplatelet")
  {
    TableIsChain(drug, disease);
    assert SelectAdjustment(drug, Some(disease)) == Some(AspirinForHematological);
    AspirinClauseCitesAntiplatelet(disease.name);
    ExplanationKeepsClause(cDraw + 75 + 6, AspirinClause(disease.name), "antiplatelet");
  }

  lemma AspirinClauseCitesAntiplatelet(diseaseName: string)
    ensures Contains(AspirinClause(diseaseName), "antiplatelet")
  {
    assert AspirinOpening[11..] == "antiplatelet";
    ContainsAt(AspirinOpening, "antiplatelet", 11);
    ContainsInLeft(AspirinOpening, AspirinMiddle + diseaseName + AspirinClosing, "antiplatelet");
    assert AspirinClause(diseaseName) == AspirinOpening + (AspirinMiddle + diseaseName + AspirinClosing);
  }

  /** Whatever the disease clause mentions, the explanation mentions too. */
  lemma ExplanationKeepsClause(adjustedCompatibility: int, clause: string, needle: string)
    requires Contains(clause, needle)
    ensures Contains(Explanation(adjustedCompatibility, clause), needle)
  {
    var front := "The drug shows " + Qualifier(adjustedCompatibility) + Rationale;
    ContainsInRight(front, clause, needle);
  }

  /** The fourth suggestion names the disease's category in lower case, and
      only the prodrug fallback is used without a disease. */
  lemma FourthSuggestion(drug: Drug, disease: Option<Disease>, cDraw: int, tDraw: int, kDraw: int)
    requires ValidDraws(cDraw, tDraw, kDraw)
    ensures var r := Assess(drug, disease, cDraw, tDraw, kDraw);
      && (disease.Some? ==> Contains(r.modifications[3], ToLower(disease.value.category)))
      && (disease.None? ==> r.modifications[3] == "Explore prodrug approaches to reduce toxicity")
  {
    if disease.Some? {
      var category := ToLower(disease.value.category);
      var lead := "Optimize dosing regimen for ";
      ContainsAt(lead + category, category, |lead|);
      ContainsInLeft(lead + category, " conditions", category);
    }
  }

  // ---------------------------------------------------------------------
  // Result panel bands

  datatype CompatibilityLabel = Excellent | VeryGood | Good | Fair

  /** The label under the compatibility ring. */
  function LabelFor(compatibility: int): CompatibilityLabel
  {
    if compatibility >= 90 then Excellent
    else if compatibility >= 80 then VeryGood
    else if compatibility >= 70 then Good
    else Fair
  }

  function LabelRank(grade: CompatibilityLabel): nat
  {
    match grade
    case Fair => 0
    case Good => 1
    case VeryGood => 2
    case Excellent => 3
  }

  /** Each label covers one interval of scores and together they cover
      every score. */
  lemma LabelBands(compatibility: int)
    ensures LabelFor(compatibility) == Excellent <==> 90 <= compatibility
    ensures LabelFor(compatibility) == VeryGood <==> 80 <= compatibility < 90
    ensures LabelFor(compatibility) == Good <==> 70 <= compatibility < 80
    ensures LabelFor(compatibility) == Fair <==> compatibility < 70
  {
  }

  /** A higher score never gets a worse label. */
  lemma LabelMonotone(c1: int, c2: int)
    requires c1 <= c2
    ensures LabelRank(LabelFor(c1)) <= LabelRank(LabelFor(c2))
  {
  }

  datatype ToxicityRisk = LowRisk | ModerateRisk | HighRisk

  /** The risk band under the toxicity ring (also its colour). */
  function RiskFor(toxicity: int): ToxicityRisk
  {
    if toxicity < 25 then LowRisk
    else if toxicity < 50 then ModerateRisk
    else HighRisk
  }

  function RiskRank(risk: ToxicityRisk): nat
  {
    match risk
    case LowRisk => 0
    case ModerateRisk => 1
    case HighRisk => 2
  }

  lemma RiskBands(toxicity: int)
    ensures RiskFor(toxicity) == LowRisk <==> toxicity < 25
    ensures RiskFor(toxicity) == ModerateRisk <==> 25 <= toxicity < 50
    ensures RiskFor(toxicity) == HighRisk <==> 50 <= toxicity
  {
  }

  /** A more toxic result never gets a lower risk. */
  lemma RiskMonotone(t1: int, t2: int)
    requires t1 <= t2
    ensures RiskRank(RiskFor(t1)) <= RiskRank(RiskFor(t2))
  {
  }

  /** A simulated result is never labelled Fair nor rated High Risk. */
  lemma AssessedBands(drug: Drug, disease: Option<Disease>, cDraw: int, tDraw: int, kDraw: int)
    requires ValidDraws(cDraw, tDraw, kDraw)
    ensures LabelFor(Assess(drug, disease, cDraw, tDraw, kDraw).compatibility) != Fair
    ensures RiskFor(Assess(drug, disease, cDraw, tDraw, kDraw).toxicity) != HighRisk
  {
  }

  /** The "Disease Match Score" tile: a constant per category. */
  function CategoryMatchScore(category: string): int
  {
    if category == Neurological then 92
    else if category == Metabolic then 89
    else if category == Hematological then 87
    else 84
  }

  datatype TherapeuticPotential = VeryHighPotential | HighPotential | ModeratePotential

  /** The "Therapeutic Potential" tile. */
  function PotentialFor(category: string): TherapeuticPotential
  {
    if category == Neurological then HighPotential
    else if category == Metabolic then VeryHighPotential
    else ModeratePotential
  }

  /** The adjective of the insight sentence below the tiles. */
  function InsightAdjective(category: string): string
  {
    if category == Metabolic then "exceptional" else "strong"
  }

  /** Only the three rule categories score above the default 84, every
      category other than Neurological and Metabolic is rated Moderate, and
      the sentence says "exceptional" exactly when the tile says Very High. */
  lemma CategoryTiles(category: string)
    ensures CategoryMatchScore(category) > 84 <==> KnownCategory(category)
    ensures 84 <= CategoryMatchScore(category) <= 92
    ensures PotentialFor(category) == ModeratePotential
        <==> category != Neurological && category != Metabolic
    ensures InsightAdjective(category) == "exceptional" <==> PotentialFor(category) == VeryHighPotential
  {
  }
}
