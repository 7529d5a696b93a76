/** The drug attribute tests the disease-specific rules are built from.
    Target membership and name equality are exact; the mechanism test is a
    case-sensitive substring search, as written in the application. */
module Criteria {
  import opened Strings
  import opened Types

  /** `drug.targets.includes('AMPK')`: an exact element of the target list. */
  predicate TargetsAmpk(drug: Drug)
  {
    "AMPK" in drug.targets
  }

  /** `drug.mechanism.includes('reductase')`: a case-sensitive substring. */
  predicate MechanismMentionsReductase(drug: Drug)
  {
    Contains(drug.mechanism, "reductase")
  }

  predicate IsRapamycin(drug: Drug)
  {
    drug.name == "Rapamycin"
  }

  predicate IsAspirin(drug: Drug)
  {
    drug.name == "Aspirin"
  }
}
