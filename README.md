# DrugScope AI decision logic in Dafny

DrugScope AI is a single-page React application. It lists repurposable
drugs and rare diseases. It filters and re-ranks the drug list, and it shows
a simulated drug–disease compatibility analysis. This project models the
decision logic of that page and proves properties of it:

- **Search** (`Search`, `Strings`). The drug list is filtered by a
  case-insensitive substring search over name, mechanism and targets. An
  empty term keeps the list as it is.
- **Ranking** (`Ranking`). With a disease selected, every drug gets its
  baseline score plus additive bonuses from a fixed rule table (`getScore`).
  A copy of the list is then sorted by that score, highest first. The sort
  is specified as a stable insertion sort on sequences, a function over any
  key. It is implemented as an in-place insertion sort on an array, proved
  equal to the specification. A uniqueness lemma shows that any stable
  descending sort produces the same list. So the model covers every engine
  that meets section 22.1.3.27 of ECMA-262, 10th edition (ES2019), which
  requires `Array.prototype.sort` to be stable.
- **Selection** (`Selection`). The page keeps the selected disease and the
  selected drug in two fields. The two click handlers update them. The
  analysis report is rendered only when both are set.
- **Assessment** (`Assessment`). This is the simulated analysis of the
  result panel. Two random integer bases are drawn. Then at most one
  disease rule applies, first match wins. The results are clamped, and the
  explanation and the four suggestions are built. It also covers the
  panel's label, risk and category tiles.
- **Card and details panels** (`DrugCard`, `DrugDetails`). The toxicity
  colour and the phase badge of a drug card. The disease-match tile, the
  efficacy prediction and the safety margin of the details panel.
- **Catalog** (`Catalog`, `Scenarios`). The built-in six drugs and eight
  diseases as constants. Concrete scenarios are proved on them.

Each `Math.floor(Math.random() * n) + k` draw is a parameter `draw` with
`0 <= draw < n`. The model then computes `draw + k`. Strings are
`seq<char>`. `toLowerCase` folds only the ASCII capitals. `includes` on a
string is a substring test. `includes` on the targets array is exact
membership.

The code's own comments give the ranges as 75-95% for compatibility and
85-100% for confidence. The code draws 75..94 and 85..99, and the model
follows the code.

The operations themselves are functions and methods with these names:

- `Search.FilterDrugs` is the `filteredDrugs` computation, with
  `Search.Matches` as the `filter` callback and `Search.KeepMatching` as
  `filter` itself.
- `Ranking.DiseaseBonus` and `Ranking.AdjustedScore` are `getScore`.
  `Ranking.Insert` and `Ranking.SortByKey` specify the sort, and
  `Ranking.Rank` is `sortedDrugs`. `Ranking.SortInPlace` and
  `Ranking.RankDrugs` run it on an array.
- `Assessment.SelectAdjustment` is the disease if / else-if chain as a rule
  table, and `Assessment.Assess` is the whole simulated result.
  `Assessment.RunAssessment` is the effect callback written step by step.
  `Assessment.LabelFor`, `Assessment.RiskFor`,
  `Assessment.CategoryMatchScore`, `Assessment.PotentialFor` and
  `Assessment.InsightAdjective` are the panel's helpers.
- `DrugCard.ToxicityColourFor` and `DrugCard.PhaseBadgeFor` are the card's
  two helpers. `DrugDetails.DiseaseMatch`, `DrugDetails.EfficacyPrediction`
  and `DrugDetails.SafetyMargin` are the details panel's figures.
- `Selection.SelectionState` holds the two selection fields.
  `AnalysisVisible` and `CurrentStage` are what the page renders from them.

The table below names, for each source passage, the lemma or method whose
contract states what that passage promises. Sequence and string lemmas used
only inside those proofs have no row.

## Model

| member | source | states |
|---|---|---|
| Search.FilterEmptyTerm | src/App.tsx:20 | An empty search term returns the drug list unchanged: same drugs, same order. |
| Search.FilterMembership | src/App.tsx:22-28 | For a non-empty term, a drug is in the result exactly when it is in the input and its lower-cased name, mechanism or some target contains the lower-cased term. |
| Search.KeepMatchingMembership | src/App.tsx:22-28 | The `filter` callback keeps a drug exactly when it is in the list and matches. |
| Search.FilterIsSubsequence | src/App.tsx:20-28 | The filtered list is a subsequence of the input: survivors keep their relative order. |
| Search.KeepMatchingIsSubsequence | src/App.tsx:22-28 | `filter` returns an order-preserving subsequence of its input. |
| Search.KeepMatchingAppend | src/App.tsx:22 | Filtering a concatenation is the concatenation of the filtered parts, because each drug is judged on its own. |
| Search.MatchesIgnoresCase | src/App.tsx:23-26 | Whether a drug matches depends only on the lower-cased term. |
| Search.FilterIgnoresCase | src/App.tsx:19-28 | Any term and its lower-case form give the same filtered list. |
| Search.KeepMatchingIgnoresCase | src/App.tsx:22-28 | The `filter` result is the same for a term and its lower-case form. |
| Search.NameIsFound | src/App.tsx:23 | Searching for a listed drug's own name, if non-empty, always finds that drug. |
| Strings.ToLowerIdempotent | src/App.tsx:23-26 | Lower-casing twice is lower-casing once. |
| Strings.ToLowerLength | src/App.tsx:23-26 | Lower-casing keeps the length, so a non-empty term stays non-empty. |
| Strings.ContainsEmpty | src/App.tsx:23 | Every string includes the empty string. |
| Ranking.BonusByCategory | src/App.tsx:38-45 | Neurological adds 10 for an AMPK target plus 20 for Rapamycin. Metabolic adds 15 for a "reductase" mechanism. Hematological adds 15 for Aspirin. Any other category adds nothing. The bonus lies in [0,30]. |
| Ranking.RankContract | src/App.tsx:32-48 | With no disease the filtered list is returned unchanged. With one, the result is a permutation of the input, in descending order of adjusted score, and every group of equally scored drugs keeps its input order. |
| Ranking.StableSortIsUnique | src/App.tsx:36-47 | Any descending list that keeps each score group in input order equals the model's sort, so the result does not depend on which stable algorithm the engine uses. |
| Ranking.SortIdempotent | src/App.tsx:36-47 | Sorting an already ranked list for the same disease changes nothing. |
| Ranking.SortOfDescending | src/App.tsx:36-47 | A list already in descending order is left as it is. |
| Ranking.SortPermutation | src/App.tsx:36 | The sort keeps every drug, with its multiplicity. |
| Ranking.SortDescending | src/App.tsx:46 | The sorted list is non-increasing in the key. |
| Ranking.SortStable | src/App.tsx:36-47 | For every key value, the drugs with that key appear in the same order as in the input. |
| Ranking.InsertPermutation | src/App.tsx:36 | One insertion step adds the new drug once and keeps the others. |
| Ranking.InsertDescending | src/App.tsx:46 | Inserting into a descending list gives a descending list. |
| Ranking.InsertWithKey | src/App.tsx:36-47 | Inserting appends the new drug to the end of its own key group and leaves every other group alone. |
| Ranking.DescendingHeadIsMax | src/App.tsx:46 | In a descending list no drug has a higher key than the first. |
| Ranking.DescendingGroupsDetermine | src/App.tsx:36-47 | Two descending lists with the same key groups are equal. |
| Ranking.InsertAt | src/App.tsx:46 | Insertion places the drug right after the last drug whose key is at least its own. |
| Ranking.InsertInPlace | src/App.tsx:36-47 | Shifting the lower-scored drugs right and dropping the element into the gap leaves the array prefix equal to the specified insertion. The rest of the array is unchanged. |
| Ranking.SortInPlace | src/App.tsx:36-47 | The in-place insertion sort leaves the array equal to the specified stable descending sort of its old contents. |
| Ranking.RankDrugs | src/App.tsx:32-48 | Copying the filtered list into a fresh array and sorting it yields `Rank` of the filtered list. The caller's list is a value and cannot change. |
| Selection.SelectionState.constructor | src/App.tsx:14-15 | The page starts with neither a disease nor a drug selected, and asks for a disease. |
| Selection.SelectionState.SelectDisease | src/App.tsx:50-53 | Choosing a disease sets it and clears the drug, even when it is the same disease. The report is hidden, and the page asks for a drug. |
| Selection.SelectionState.SelectDrug | src/App.tsx:55-57 | Choosing a drug sets it and leaves the disease unchanged. The report is visible exactly when a disease was already chosen. |
| Selection.StageAgreesWithReport | src/App.tsx:263-310 | The report is rendered exactly when the empty-state prompt is not. |
| Selection.ReselectingDiseaseClearsDrug | src/App.tsx:50-57 | Disease, then drug, then any disease leaves no drug selected and the report hidden. |
| Selection.DrugBeforeDisease | src/App.tsx:55-57 | A drug chosen before any disease shows no report, and a later disease choice discards it. |
| Assessment.FirstApplyingIsFirst | src/components/TestResults.tsx:28-40 | The chosen rule applies and no earlier rule does. No rule is chosen exactly when none applies. |
| Assessment.TableIsChain | src/components/TestResults.tsx:28-40 | The ordered rule table selects the same rule as the if / else-if chain. |
| Assessment.AtMostOneApplies | src/components/TestResults.tsx:28-40 | The three rules require different categories, so at most one applies and the order never decides. |
| Assessment.Assess | src/components/TestResults.tsx:20-53 | For any draws, compatibility is in [75,98], toxicity in [5,39] and confidence in [85,99]. There are exactly four suggestions, the first three fixed. The explanation is non-empty. |
| Assessment.RunAssessment | src/components/TestResults.tsx:19-53 | The callback's local variables and if / else-if chain produce exactly the result specified by the rule table. |
| Assessment.NoAdjustmentWithoutMatch | src/components/TestResults.tsx:24-45 | Without a disease, or with no matching rule, the draws are reported unchanged and the explanation has no disease clause. |
| Assessment.ToxicityClampIsInert | src/components/TestResults.tsx:21-44 | `Math.max(adjustedToxicity, 5)` never changes the value, since the lowest adjusted toxicity is 10 - 5 = 5. |
| Assessment.CompatibilityClampBites | src/components/TestResults.tsx:32-43 | A reductase drug for a metabolic disease with the highest draw reaches 102 and is clamped to 98. |
| Assessment.QualifierChoice | src/components/TestResults.tsx:45 | The explanation opens with "The drug shows high" exactly when the pre-clamp compatibility exceeds 85. |
| Assessment.ExplanationAgreesWithScore | src/components/TestResults.tsx:43-45 | "high" appears exactly when the reported compatibility exceeds 85, so the text agrees with the clamped score. |
| Assessment.AspirinForHematologicalScenario | src/components/TestResults.tsx:36-45 | Hematological disease with Aspirin: compatibility `min(base + 6, 98)`, toxicity unchanged, and the explanation mentions "antiplatelet". |
| Assessment.AspirinClauseCitesAntiplatelet | src/components/TestResults.tsx:38 | The Aspirin clause contains "antiplatelet". |
| Assessment.ExplanationKeepsClause | src/components/TestResults.tsx:45 | Whatever the disease clause contains, the explanation contains. |
| Assessment.FourthSuggestion | src/components/TestResults.tsx:46-51 | With a disease, the fourth suggestion contains its lower-cased category. Without one, it is the prodrug suggestion. |
| Assessment.LabelBands | src/components/TestResults.tsx:181-183 | Excellent at 90 and above, Very Good from 80 to 89, Good from 70 to 79, Fair below 70. |
| Assessment.LabelMonotone | src/components/TestResults.tsx:181-183 | A higher compatibility never gets a worse label. |
| Assessment.RiskBands | src/components/TestResults.tsx:200-213 | Low Risk below 25, Moderate Risk from 25 to 49, High Risk from 50. |
| Assessment.RiskMonotone | src/components/TestResults.tsx:200-213 | A higher toxicity never gets a lower risk. |
| Assessment.AssessedBands | src/components/TestResults.tsx:181-213 | A simulated result is never labelled Fair and never rated High Risk. |
| Assessment.CategoryTiles | src/components/TestResults.tsx:234-249 | The match score exceeds the default 84 exactly for the three rule categories, and lies in [84,92]. Only Neurological and Metabolic are rated above Moderate. The insight sentence says "exceptional" exactly when the tile says Very High. |
| DrugCard.ToxicityColourBands | src/components/DrugCard.tsx:15-19 | Green below 20, yellow from 20 to 39, red from 40. Every value gets exactly one colour. |
| DrugCard.ToxicityColourMonotone | src/components/DrugCard.tsx:15-19 | A more toxic drug never gets a safer colour. |
| DrugCard.CardIsStricterThanPanel | src/components/DrugCard.tsx:15-19 | The card's colour is never less alarming than the result panel's risk band. The two disagree exactly from 20 to 24 and from 40 to 49. |
| DrugCard.PhaseBadgeDefault | src/components/DrugCard.tsx:21-28 | Every phase other than the three named ones gets the gray badge, so the switch is total. |
| DrugDetails.DiseaseMatchFollowsAdjustment | src/components/DrugDetails.tsx:139-141 | The tile shows 94, 91 or 89 for exactly the adjustment the analysis makes, and 82 exactly when it makes none. |
| DrugDetails.EfficacyPrediction | src/components/DrugDetails.tsx:147 | The efficacy prediction lies in [75,89]. |
| DrugDetails.SafetyMarginBounds | src/components/DrugDetails.tsx:232 | A toxicity percentage gives a margin in [0,100], and the margin of the margin is the toxicity. |
| Scenarios.NeurologicalScores | src/App.tsx:38-45 | For a neurological disease the catalog scores 102, 108, 85, 76, 89 and 74. |
| Scenarios.NeurologicalRanking | src/App.tsx:32-48 | For ALS the grid reads Rapamycin (108), Metformin (102), Aspirin, Lovastatin, Thalidomide, Chloroquine. |
| Scenarios.UnknownCategoryStillSorts | src/App.tsx:32-48 | A "Muscular" disease adds no bonus, yet the list is re-sorted by baseline score, so Aspirin moves up to second and the catalog order is lost. |
| Scenarios.LovastatinForMetabolic | src/App.tsx:41 | For a metabolic disease Lovastatin scores 85 + 15 = 100. |
| Scenarios.MetforminFoundByTarget | src/App.tsx:25-27 | The term "complex" finds Metformin through its target "Complex I" alone: neither its lower-cased name nor its mechanism text ("AMPK activator") contains the term. |
| Scenarios.SortSix | src/App.tsx:36-47 | Six drugs keyed 102, 108, 85, 76, 89, 74 sort to the order second, first, fifth, third, fourth, sixth. |
| Scenarios.SortSixByBaseline | src/App.tsx:36-47 | Six drugs keyed 92, 88, 85, 76, 89, 74 sort to the order first, fifth, second, third, fourth, sixth. |

## Left out

- Rendering: JSX, framer-motion animation, Tailwind classes and layout. This is presentation with no behaviour to state.
- The step indicator at src/App.tsx:128-147. It restates the selection fields as colours; `Selection.CurrentStage` covers the same three stages.
- Timers: the 2000 ms `setTimeout` and its `clearTimeout` cleanup. Because of the cleanup, a superseded request never writes a result. `RunAssessment` models only the callback body. The `loading` flag is left out too; it is never set back to true when the effect runs again.
- Floating point: `Math.random` becomes integer draw parameters. The `CircularProgress` geometry is float arithmetic. The `affinity` field is carried as a `real` but no modelled logic reads it.
- UI toggles: `activeTab`, `showTestResults` and `expandedModification` are view state only.
- SearchBar and DiseaseTag are presentational components with no logic. The `selected` flag of a disease is data only.
- Strings.ToLower: folds only ASCII capitals. Full Unicode case folding depends on the JavaScript engine's tables, which are not part of this model.
- Null props: DrugDetails guards against a missing drug at src/components/DrugDetails.tsx:16, and TestResults requires a drug. The model's `Drug` cannot be null, so neither path exists here. A missing disease is modelled as `Option.None`.
- Ranking.SortInPlace: the engine's actual algorithm is not modelled. The model's insertion sort stands for it through `Ranking.StableSortIsUnique`.
