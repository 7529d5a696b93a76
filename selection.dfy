/** The selection state of the main page (App.tsx): the chosen disease and
    the chosen drug, the two click handlers that change them, and what the
    page shows for each combination. */
module Selection {
  import opened Types

  /** The prompt of the empty state, or the analysis report. */
  datatype Stage = ChooseDisease | ChooseDrug | ShowAnalysis

  class SelectionState {
    var selectedDisease: Option<Disease>
    var selectedDrug: Option<Drug>

    /** The page starts with nothing selected. */
    constructor ()
      ensures selectedDisease == None && selectedDrug == None
      ensures !AnalysisVisible() && CurrentStage() == ChooseDisease
    {
      selectedDisease := None;
      selectedDrug := None;
    }

    /** The analysis report is rendered only when both are chosen. */
    predicate AnalysisVisible()
      reads this
    {
      selectedDrug.Some? && selectedDisease.Some?
    }

    /** What the lower half of the page shows. */
    function CurrentStage(): Stage
      reads this
    {
      if selectedDisease.None? then ChooseDisease
      else if selectedDrug.None? then ChooseDrug
      else ShowAnalysis
    }

    /** `handleDiseaseSelect`: choose the disease and drop the drug, even
        when the same disease is chosen again. */
    method SelectDisease(disease: Disease)
      modifies this
      ensures selectedDisease == Some(disease) && selectedDrug == None
      ensures !AnalysisVisible() && CurrentStage() == ChooseDrug
    {
      selectedDisease := Some(disease);
      selectedDrug := None;
    }

    /** `handleDrugSelect`: choose the drug; the disease is untouched. */
    method SelectDrug(drug: Drug)
      modifies this
      ensures selectedDrug == Some(drug) && selectedDisease == old(selectedDisease)
      ensures AnalysisVisible() <==> old(selectedDisease).Some?
    {
      selectedDrug := Some(drug);
    }
  }

  /** The report is shown exactly when the empty-state prompts are not. */
  lemma StageAgreesWithReport(s: SelectionState)
    ensures s.CurrentStage() == ShowAnalysis <==> s.AnalysisVisible()
  {
  }

  /** Disease A, then drug D, then disease B: the drug is gone afterwards,
      whether or not B is A, and the report is hidden. */
  method ReselectingDiseaseClearsDrug(a: Disease, d: Drug, b: Disease)
    returns (drug: Option<Drug>, disease: Option<Disease>, shown: bool)
    ensures drug == None && disease == Some(b) && !shown
  {
    var page := new SelectionState();
    page.SelectDisease(a);
    page.SelectDrug(d);
    assert page.AnalysisVisible();
    page.SelectDisease(b);
    drug, disease, shown := page.selectedDrug, page.selectedDisease, page.AnalysisVisible();
  }

  /** The drug list is clickable before any disease is chosen: the drug is
      kept but nothing is shown, and a later disease choice discards it. */
  method DrugBeforeDisease(d: Drug, a: Disease)
    returns (shownBefore: bool, drugAfter: Option<Drug>, stageAfter: Stage)
    ensures !shownBefore && drugAfter == None && stageAfter == ChooseDrug
  {
    var page := new SelectionState();
    page.SelectDrug(d);
    assert page.selectedDrug == Some(d);
    shownBefore := page.AnalysisVisible();
    page.SelectDisease(a);
    drugAfter, stageAfter := page.selectedDrug, page.CurrentStage();
  }
}
