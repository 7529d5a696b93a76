/** The computed figures of the drug details panel (DrugDetails.tsx): the
    disease-match percentage, the randomly drawn efficacy prediction and the
    safety margin. */
module DrugDetails {
  import opened Types
  import opened Criteria
  import opened Assessment

  /** The "Disease Match" tile: a nested conditional over the same three
      tests, in the same order, as the analysis adjustments. */
  function DiseaseMatch(drug: Drug, disease: Disease): int
  {
    if disease.category == Neurological && TargetsAmpk(drug) then 94
    else if disease.category == Metabolic && MechanismMentionsReductase(drug) then 91
    else if disease.category == Hematological && IsAspirin(drug) then 89
    else 82
  }

  /** The tile agrees with the analysis: it shows 94, 91 or 89 for exactly
      the adjustment the analysis would make, and 82 exactly when the
      analysis makes none. */
  lemma DiseaseMatchFollowsAdjustment(drug: Drug, disease: Disease)
    ensures DiseaseMatch(drug, disease)
         == match SelectAdjustment(drug, Some(disease))
            case Some(AmpkForNeurological) => 94
            case Some(ReductaseForMetabolic) => 91
            case Some(AspirinForHematological) => 89
            case None => 82
    ensures DiseaseMatch(drug, disease) != 82 <==> SelectAdjustment(drug, Some(disease)).Some?
  {
    TableIsChain(drug, disease);
  }

  /** "Efficacy Prediction": `Math.floor(Math.random() * 15) + 75`. */
  function EfficacyPrediction(draw: int): (r: int)
    requires 0 <= draw < 15
    ensures 75 <= r <= 89
  {
    draw + 75
  }

  /** "Safety Margin": `100 - drug.toxicity`. */
  function SafetyMargin(toxicity: int): int
  {
    100 - toxicity
  }

  /** A toxicity percentage gives a margin that is a percentage too, and the
      margin of the margin is the toxicity again. */
  lemma SafetyMarginBounds(toxicity: int)
    requires 0 <= toxicity <= 100
    ensures 0 <= SafetyMargin(toxicity) <= 100
    ensures SafetyMargin(SafetyMargin(toxicity)) == toxicity
  {
  }
}
