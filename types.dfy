/** The record shapes of the application: a drug candidate, a disease and
    the result of one compatibility assessment. */
module Types {

  datatype Option<T> = None | Some(value: T)

  /** A candidate compound. `affinity` is the only fractional field; the
      percentages and the ranking weight are integers in the catalog. */
  datatype Drug = Drug(
    id: string,
    name: string,
    structure: string,
    smiles: string,
    affinity: real,
    compatibility: int,
    toxicity: int,
    mechanism: string,
    targets: seq<string>,
    phase: string,
    score: int)

  /** A target condition. `category` is an open set of strings; only
      "Neurological", "Metabolic" and "Hematological" drive any rule. */
  datatype Disease = Disease(
    id: string,
    name: string,
    category: string,
    prevalence: string,
    selected: bool)

  /** What one run of the compatibility analysis reports. */
  datatype TestResult = TestResult(
    compatibility: int,
    toxicity: int,
    explanation: string,
    modifications: seq<string>,
    confidence: int)

  /** The three disease categories the rule tables know by name. */
  const Neurological: string := "Neurological"
  const Metabolic: string := "Metabolic"
  const Hematological: string := "Hematological"

  predicate KnownCategory(category: string)
  {
    category == Neurological || category == Metabolic || category == Hematological
  }
}
