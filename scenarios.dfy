/** The rules applied to the built-in catalogs. */
module Scenarios {
  import opened Strings
  import opened Types
  import opened Criteria
  import opened Catalog
  import opened Search
  import opened Ranking
  import opened Assessment
  import opened DrugDetails

  /** The adjusted scores for a neurological disease. */
  lemma NeurologicalScores()
    ensures AdjustedScore(Metformin, Als) == 102
    ensures AdjustedScore(Rapamycin, Als) == 108
    ensures AdjustedScore(Lovastatin, Als) == 85
    ensures AdjustedScore(Thalidomide, Als) == 76
    ensures AdjustedScore(Aspirin, Als) == 89
    ensures AdjustedScore(Chloroquine, Als) == 74
  {
  }

  /** One insertion step of the sort on a known sorted prefix. */
  lemma SortedPrefix(prefix: seq<Drug>, x: Drug, sortedPrefix: seq<Drug>, key: Drug -> int)
    requires SortByKey(prefix, key) == sortedPrefix
    ensures SortByKey(prefix + [x], key) == Insert(sortedPrefix, x, key)
  {
    assert (prefix + [x])[..|prefix|] == prefix;
  }

  /** `x` goes to the end when the last drug scores at least as much. */
  lemma InsertAtEnd(sorted: seq<Drug>, x: Drug, key: Drug -> int)
    requires sorted != [] && key(sorted[|sorted| - 1]) >= key(x)
    ensures Insert(sorted, x, key) == sorted + [x]
  {
  }

  lemma InsertBeforeOne(p: Drug, x: Drug, key: Drug -> int)
    requires key(p) < key(x)
    ensures Insert([p], x, key) == [x, p]
  {
    assert [p][..0] == [];
  }

  lemma InsertSecondOfFour(p: Drug, q: Drug, u: Drug, v: Drug, x: Drug, key: Drug -> int)
    requires key(q) < key(x) && key(u) < key(x) && key(v) < key(x)
    requires key(p) >= key(x)
    ensures Insert([p, q, u, v], x, key) == [p, x, q, u, v]
  {
    assert [p, q, u, v][..3] == [p, q, u];
    assert [p, q, u][..2] == [p, q];
    assert [p, q][..1] == [p];
    InsertAtEnd([p], x, key);
    assert Insert([p, q], x, key) == [p, x] + [q] == [p, x, q];
    assert Insert([p, q, u], x, key) == [p, x, q] + [u] == [p, x, q, u];
    assert Insert([p, q, u, v], x, key) == [p, x, q, u] + [v];
  }

  lemma InsertThirdOfFour(p: Drug, q: Drug, u: Drug, v: Drug, x: Drug, key: Drug -> int)
    requires key(u) < key(x) && key(v) < key(x)
    requires key(q) >= key(x)
    ensures Insert([p, q, u, v], x, key) == [p, q, x, u, v]
  {
    assert [p, q, u, v][..3] == [p, q, u];
    assert [p, q, u][..2] == [p, q];
    InsertAtEnd([p, q], x, key);
    assert Insert([p, q, u], x, key) == [p, q, x] + [u] == [p, q, x, u];
    assert Insert([p, q, u, v], x, key) == [p, q, x, u] + [v];
  }

  /** Sorting six drugs whose keys are 102, 108, 85, 76, 89, 74 in that
      order: the second comes first, the fifth moves up to third. */
  lemma SortSix(m: Drug, r: Drug, l: Drug, t: Drug, a: Drug, c: Drug, key: Drug -> int)
    requires key(m) == 102 && key(r) == 108 && key(l) == 85
    requires key(t) == 76 && key(a) == 89 && key(c) == 74
    ensures SortByKey([m, r, l, t, a, c], key) == [r, m, a, l, t, c]
  {
    assert SortByKey([m], key) == [m] by {
      assert [m][..0] == [];
    }
    InsertBeforeOne(m, r, key);
    SortedPrefix([m], r, [m], key);
    assert [m] + [r] == [m, r];
    InsertAtEnd([r, m], l, key);
    SortedPrefix([m, r], l, [r, m], key);
    assert [m, r] + [l] == [m, r, l];
    InsertAtEnd([r, m, l], t, key);
    SortedPrefix([m, r, l], t, [r, m, l], key);
    assert [m, r, l] + [t] == [m, r, l, t];
    InsertThirdOfFour(r, m, l, t, a, key);
    SortedPrefix([m, r, l, t], a, [r, m, l, t], key);
    assert [m, r, l, t] + [a] == [m, r, l, t, a];
    InsertAtEnd([r, m, a, l, t], c, key);
    SortedPrefix([m, r, l, t, a], c, [r, m, a, l, t], key);
    assert [m, r, l, t, a] + [c] == [m, r, l, t, a, c];
  }

  /** Sorting six drugs whose keys are 92, 88, 85, 76, 89, 74 in that
      order: only the fifth moves, up to second place. */
  lemma SortSixByBaseline(m: Drug, r: Drug, l: Drug, t: Drug, a: Drug, c: Drug, key: Drug -> int)
    requires key(m) == 92 && key(r) == 88 && key(l) == 85
    requires key(t) == 76 && key(a) == 89 && key(c) == 74
    ensures SortByKey([m, r, l, t, a, c], key) == [m, a, r, l, t, c]
  {
    assert SortByKey([m], key) == [m] by {
      assert [m][..0] == [];
    }
    InsertAtEnd([m], r, key);
    SortedPrefix([m], r, [m], key);
    assert [m] + [r] == [m, r];
    InsertAtEnd([m, r], l, key);
    SortedPrefix([m, r], l, [m, r], key);
    assert [m, r] + [l] == [m, r, l];
    InsertAtEnd([m, r, l], t, key);
    SortedPrefix([m, r, l], t, [m, r, l], key);
    assert [m, r, l] + [t] == [m, r, l, t];
    InsertSecondOfFour(m, r, l, t, a, key);
    SortedPrefix([m, r, l, t], a, [m, r, l, t], key);
    assert [m, r, l, t] + [a] == [m, r, l, t, a];
    InsertAtEnd([m, a, r, l, t], c, key);
    SortedPrefix([m, r, l, t, a], c, [m, a, r, l, t], key);
    assert [m, r, l, t, a] + [c] == [m, r, l, t, a, c];
  }

  /** For a neurological disease Rapamycin (88 + 20 = 108) moves to the top,
      ahead of Metformin (92 + 10 = 102); the others keep their baseline. */
  lemma NeurologicalRanking()
    ensures Rank(Drugs, Some(Als))
         == [Rapamycin, Metformin, Aspirin, Lovastatin, Thalidomide, Chloroquine]
  {
    NeurologicalScores();
    SortSix(Metformin, Rapamycin, Lovastatin, Thalidomide, Aspirin, Chloroquine, ScoreKey(Als));
  }

  /** A disease of a category no rule mentions (Duchenne muscular
      dystrophy is "Muscular") adds no bonus, but the list is still sorted
      by baseline score, so the catalog order is not kept: Aspirin (89)
      overtakes Rapamycin (88), Lovastatin (85) and Thalidomide (76). */
  lemma UnknownCategoryStillSorts()
    ensures Rank(Drugs, Some(Duchenne))
         == [Metformin, Aspirin, Rapamycin, Lovastatin, Thalidomide, Chloroquine]
    ensures Rank(Drugs, Some(Duchenne)) != Drugs
  {
    assert !KnownCategory(Duchenne.category);
    forall drug: Drug ensures AdjustedScore(drug, Duchenne) == drug.score {
      BonusByCategory(drug, Duchenne);
    }
    SortSixByBaseline(Metformin, Rapamycin, Lovastatin, Thalidomide, Aspirin, Chloroquine, ScoreKey(Duchenne));
    assert Drugs[1] == Rapamycin != Aspirin;
  }

  /** For a metabolic disease Lovastatin's reductase mechanism lifts it from
      85 to 100. */
  lemma LovastatinForMetabolic()
    ensures AdjustedScore(Lovastatin, Gaucher) == 100
  {
    var m := "HMG-CoA " + "reductase" + " inhibitor";
    assert Lovastatin.mechanism == m;
    assert m[8..17] == "reductase";
    ContainsAt(m, "reductase", 8);
  }

  /** Metformin's name, lower-cased, has no 'x', so it cannot contain "complex". */
  lemma MetforminNameLacksComplex()
    ensures !Contains(ToLower(Metformin.name), "complex")
  {
    assert ToLower(Metformin.name) == "metformin";
    MissingCharacter("metformin", "complex", 6);
  }

  /** Nor can its mechanism text, "AMPK activator", lower-cased. */
  lemma MetforminMechanismLacksComplex()
    ensures !Contains(ToLower(Metformin.mechanism), "complex")
  {
    assert ToLower(Metformin.mechanism) == "ampk activator";
    MissingCharacter("ampk activator", "complex", 6);
  }

  /** Searching for "complex" (in any case) finds Metformin through its
      target list alone: "Complex I" is one of its targets, while neither its
      name nor its mechanism text contains the term. */
  lemma MetforminFoundByTarget()
    ensures !Contains(ToLower(Metformin.name), "complex")
    ensures !Contains(ToLower(Metformin.mechanism), "complex")
    ensures SomeTargetContains(Metformin, "complex")
    ensures Metformin in FilterDrugs(Drugs, "complex")
  {
    MetforminNameLacksComplex();
    MetforminMechanismLacksComplex();
    assert ToLower(Metformin.targets[1]) == "complex i";
    ContainsAt("complex i", "complex", 0);
    assert ToLower("complex") == "complex";
    assert Matches(Metformin, "complex");
    FilterMembership(Drugs, "complex", Metformin);
  }
}
