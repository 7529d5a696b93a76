/** The built-in catalogs the page starts with (mockData.ts), as constants
    for concrete examples. */
module Catalog {
  import opened Types

  const Metformin := Drug("1", "Metformin", "C4H11N5", "CN(C)C(=N)NC(=N)N", 8.2, 87, 12,
    "AMPK activator", ["AMPK", "Complex I"], "FDA Approved", 92)
  const Rapamycin := Drug("2", "Rapamycin", "C51H79NO13",
    "CC[C@H]1CC[C@@H]2[C@@H](C[C@H]([C@@H]3[C@H]2CC[C@H]4[C@@H]3CC[C@@H]([C@H]4C)O)C)C", 9.1, 94, 23,
    "mTOR inhibitor", ["mTOR", "FKBP12"], "FDA Approved", 88)
  const Lovastatin := Drug("3", "Lovastatin", "C24H36O5",
    "CCC(C)(C)C(=O)O[C@H]1C[C@@H](C)C=C2[C@H]1[C@H](C)C[C@@H]3[C@@H]2CC[C@@H](C3)O", 7.8, 79, 18,
    "HMG-CoA reductase inhibitor", ["HMG-CoA reductase"], "FDA Approved", 85)
  const Thalidomide := Drug("4", "Thalidomide", "C13H10N2O4", "O=C1N(C(=O)C2=CC=CC=C12)C3CCC(=O)NC3=O", 8.7, 72, 45,
    "Immunomodulator", ["CRBN", "TNF-α"], "FDA Approved", 76)
  const Aspirin := Drug("5", "Aspirin", "C9H8O4", "CC(=O)OC1=CC=CC=C1C(=O)O", 6.5, 91, 8,
    "COX inhibitor", ["COX-1", "COX-2"], "FDA Approved", 89)
  const Chloroquine := Drug("6", "Chloroquine", "C18H26ClN3", "CCN(CC)CCCC(C)NC1=C2C=CC(=CC2=NC=C1)Cl", 7.3, 68, 32,
    "Autophagy modulator", ["Autophagy", "TLR"], "FDA Approved", 74)

  const Drugs: seq<Drug> := [Metformin, Rapamycin, Lovastatin, Thalidomide, Aspirin, Chloroquine]

  const Huntingtons := Disease("1", "Huntington's Disease", "Neurological", "1 in 10,000", false)
  const Als := Disease("2", "Amyotrophic Lateral Sclerosis", "Neurological", "1 in 50,000", true)
  const Duchenne := Disease("3", "Duchenne Muscular Dystrophy", "Muscular", "1 in 3,500", false)
  const CysticFibrosis := Disease("4", "Cystic Fibrosis", "Respiratory", "1 in 2,500", false)
  const SickleCell := Disease("5", "Sickle Cell Disease", "Hematological", "1 in 365", false)
  const HemophiliaA := Disease("6", "Hemophilia A", "Hematological", "1 in 5,000", false)
  const Gaucher := Disease("7", "Gaucher Disease", "Metabolic", "1 in 57,000", false)
  const Wilsons := Disease("8", "Wilson's Disease", "Metabolic", "1 in 30,000", false)

  const Diseases: seq<Disease> :=
    [Huntingtons, Als, Duchenne, CysticFibrosis, SickleCell, HemophiliaA, Gaucher, Wilsons]
}
