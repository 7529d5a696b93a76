/** Disease-aware re-ranking of the drug list (`sortedDrugs` in App.tsx).
    Without a selected disease the filtered list is shown as it is. With one,
    every drug gets its baseline `score` plus the bonuses of a fixed rule
    table, and a copy of the list is sorted by that adjusted score, highest
    first. `Array.prototype.sort` is stable (section 22.1.3.27 of ECMA-262,
    10th edition, ES2019), so drugs with equal adjusted scores keep their
    input order. */
module Ranking {
  import opened Types
  import opened Criteria

  /** The bonuses `getScore` adds for the selected disease. The four tests
      are independent, so a drug may collect more than one. */
  function DiseaseBonus(drug: Drug, disease: Disease): int
  {
    (if disease.category == Neurological && TargetsAmpk(drug) then 10 else 0)
    + (if disease.category == Metabolic && MechanismMentionsReductase(drug) then 15 else 0)
    + (if disease.category == Neurological && IsRapamycin(drug) then 20 else 0)
    + (if disease.category == Hematological && IsAspirin(drug) then 15 else 0)
  }

  /** `getScore(drug)`: the key the list is sorted by. */
  function AdjustedScore(drug: Drug, disease: Disease): int
  {
    drug.score + DiseaseBonus(drug, disease)
  }

  /** The comparator's key for the selected disease. The sort below is
      written for any key, so its proofs never look inside the bonuses. */
  function ScoreKey(disease: Disease): Drug -> int
  {
    drug => AdjustedScore(drug, disease)
  }

  /** What each category can add: Neurological rewards AMPK targets and
      Rapamycin (both may apply), Metabolic a reductase mechanism,
      Hematological Aspirin, and any other category nothing at all. */
  lemma BonusByCategory(drug: Drug, disease: Disease)
    ensures disease.category == Neurological ==>
      DiseaseBonus(drug, disease) == (if TargetsAmpk(drug) then 10 else 0) + (if IsRapamycin(drug) then 20 else 0)
    ensures disease.category == Metabolic ==>
      DiseaseBonus(drug, disease) == (if MechanismMentionsReductase(drug) then 15 else 0)
    ensures disease.category == Hematological ==>
      DiseaseBonus(drug, disease) == (if IsAspirin(drug) then 15 else 0)
    ensures !KnownCategory(disease.category) ==> AdjustedScore(drug, disease) == drug.score
    ensures 0 <= DiseaseBonus(drug, disease) <= 30
  {
  }

  // ---------------------------------------------------------------------
  // The sort, specified as a stable insertion sort on sequences

  /** Put `x` behind every drug of `sorted` that scores at least as much as
      it; a drug with an equal score stays in front of `x`. */
  function Insert(sorted: seq<Drug>, x: Drug, key: Drug -> int): seq<Drug>
    decreases |sorted|
  {
    if sorted == [] || key(sorted[|sorted| - 1]) >= key(x) then
      sorted + [x]
    else
      Insert(sorted[..|sorted| - 1], x, key) + [sorted[|sorted| - 1]]
  }

  /** The drugs in descending order of `key`, ties in input order. */
  function SortByKey(drugs: seq<Drug>, key: Drug -> int): seq<Drug>
    decreases |drugs|
  {
    if drugs == [] then []
    else Insert(SortByKey(drugs[..|drugs| - 1], key), drugs[|drugs| - 1], key)
  }

  /** `sortedDrugs`: the list as it is when no disease is selected, else
      sorted by adjusted score. */
  function Rank(drugs: seq<Drug>, selected: Option<Disease>): seq<Drug>
  {
    match selected
    case None => drugs
    case Some(disease) => SortByKey(drugs, ScoreKey(disease))
  }

  /** No drug has a higher key than one listed before it. */
  ghost predicate Descending(s: seq<Drug>, key: Drug -> int)
  {
    forall i, j | 0 <= i < j < |s| :: key(s[i]) >= key(s[j])
  }

  /** The drugs of `s` whose key is `k`, in their order in `s`. */
  function WithKey(s: seq<Drug>, key: Drug -> int, k: int): seq<Drug>
  {
    if s == [] then []
    else (if key(s[0]) == k then [s[0]] else []) + WithKey(s[1..], key, k)
  }

  lemma {:induction false} WithKeyAppend(a: seq<Drug>, b: seq<Drug>, key: Drug -> int, k: int)
    ensures WithKey(a + b, key, k) == WithKey(a, key, k) + WithKey(b, key, k)
  {
    if a == [] {
      assert a + b == b;
    } else {
      var head := if key(a[0]) == k then [a[0]] else [];
      assert (a + b)[0] == a[0];
      assert (a + b)[1..] == a[1..] + b;
      WithKeyAppend(a[1..], b, key, k);
      var x, y := WithKey(a[1..], key, k), WithKey(b, key, k);
      assert WithKey(a + b, key, k) == head + (x + y);
      assert WithKey(a, key, k) == head + x;
      assert head + (x + y) == (head + x) + y;
    }
  }

  lemma {:induction false} WithKeyMember(s: seq<Drug>, key: Drug -> int, k: int, y: Drug)
    requires y in WithKey(s, key, k)
    ensures y in s && key(y) == k
  {
    if s != [] && !(key(s[0]) == k && y == s[0]) {
      assert y in WithKey(s[1..], key, k);
      WithKeyMember(s[1..], key, k, y);
    }
  }

  /** Inserting keeps every drug and adds `x` once. */
  lemma {:induction false} InsertPermutation(sorted: seq<Drug>, x: Drug, key: Drug -> int)
    ensures multiset(Insert(sorted, x, key)) == multiset(sorted) + multiset{x}
    decreases |sorted|
  {
    if !(sorted == [] || key(sorted[|sorted| - 1]) >= key(x)) {
      var init, last := sorted[..|sorted| - 1], sorted[|sorted| - 1];
      InsertPermutation(init, x, key);
      assert sorted == init + [last];
    }
  }

  /** Inserting into a descending list gives a descending list. */
  lemma {:induction false} InsertDescending(sorted: seq<Drug>, x: Drug, key: Drug -> int)
    requires Descending(sorted, key)
    ensures Descending(Insert(sorted, x, key), key)
    decreases |sorted|
  {
    var r := Insert(sorted, x, key);
    if sorted == [] || key(sorted[|sorted| - 1]) >= key(x) {
      assert r == sorted + [x];
      forall i, j | 0 <= i < j < |r|
        ensures key(r[i]) >= key(r[j])
      {
        if j == |sorted| && i < |sorted| - 1 {
          assert key(sorted[i]) >= key(sorted[|sorted| - 1]);
        }
      }
    } else {
      var init, last := sorted[..|sorted| - 1], sorted[|sorted| - 1];
      var front := Insert(init, x, key);
      InsertDescending(init, x, key);
      InsertPermutation(init, x, key);
      assert r == front + [last];
      forall i, j | 0 <= i < j < |r|
        ensures key(r[i]) >= key(r[j])
      {
        if j == |front| {
          // r[i] is either x, which outscores `last`, or a drug of `init`,
          // which comes before `last` in the descending list `sorted`.
          var y := front[i];
          assert y in multiset(init) + multiset{x} by {
            assert y in multiset(front);
          }
          if y != x {
            assert y in init;
            var p :| 0 <= p < |init| && init[p] == y;
            assert sorted[p] == y;
          }
        }
      }
    }
  }

  /** Inserting `x` adds it at the end of its own score group and changes
      no other group: this is where stability comes from. */
  lemma {:induction false} InsertWithKey(sorted: seq<Drug>, x: Drug, key: Drug -> int, k: int)
    ensures WithKey(Insert(sorted, x, key), key, k)
         == WithKey(sorted, key, k) + WithKey([x], key, k)
    decreases |sorted|
  {
    if sorted == [] || key(sorted[|sorted| - 1]) >= key(x) {
      WithKeyAppend(sorted, [x], key, k);
    } else {
      var init, last := sorted[..|sorted| - 1], sorted[|sorted| - 1];
      InsertWithKey(init, x, key, k);
      WithKeyAppend(Insert(init, x, key), [last], key, k);
      WithKeyAppend(init, [last], key, k);
      assert sorted == init + [last];
      assert WithKey([last], key, k) == [] || WithKey([x], key, k) == [];
    }
  }

  lemma {:induction false} SortPermutation(drugs: seq<Drug>, key: Drug -> int)
    ensures multiset(SortByKey(drugs, key)) == multiset(drugs)
    decreases |drugs|
  {
    if drugs != [] {
      var init, last := drugs[..|drugs| - 1], drugs[|drugs| - 1];
      SortPermutation(init, key);
      InsertPermutation(SortByKey(init, key), last, key);
      assert drugs == init + [last];
    }
  }

  lemma {:induction false} SortDescending(drugs: seq<Drug>, key: Drug -> int)
    ensures Descending(SortByKey(drugs, key), key)
    decreases |drugs|
  {
    if drugs != [] {
      var init := drugs[..|drugs| - 1];
      SortDescending(init, key);
      InsertDescending(SortByKey(init, key), drugs[|drugs| - 1], key);
    }
  }

  lemma {:induction false} SortStable(drugs: seq<Drug>, key: Drug -> int, k: int)
    ensures WithKey(SortByKey(drugs, key), key, k) == WithKey(drugs, key, k)
    decreases |drugs|
  {
    if drugs != [] {
      var init, last := drugs[..|drugs| - 1], drugs[|drugs| - 1];
      SortStable(init, key, k);
      InsertWithKey(SortByKey(init, key), last, key, k);
      WithKeyAppend(init, [last], key, k);
      assert drugs == init + [last];
    }
  }

  /** The ranking contract: with no key the list is unchanged; with a
      key the result is a permutation of the input, in descending order
      of adjusted score, and every group of equally scored drugs keeps the
      order it had in the input. */
  lemma RankContract(drugs: seq<Drug>, selected: Option<Disease>)
    ensures selected == None ==> Rank(drugs, selected) == drugs
    ensures multiset(Rank(drugs, selected)) == multiset(drugs)
    ensures selected.Some? ==> Descending(Rank(drugs, selected), ScoreKey(selected.value))
    ensures selected.Some? ==> forall k ::
      WithKey(Rank(drugs, selected), ScoreKey(selected.value), k) == WithKey(drugs, ScoreKey(selected.value), k)
  {
    if selected.Some? {
      SortPermutation(drugs, ScoreKey(selected.value));
      SortDescending(drugs, ScoreKey(selected.value));
      forall k ensures WithKey(Rank(drugs, selected), ScoreKey(selected.value), k) == WithKey(drugs, ScoreKey(selected.value), k) {
        SortStable(drugs, ScoreKey(selected.value), k);
      }
    }
  }

  // ---------------------------------------------------------------------
  // A stable descending sort has exactly one possible outcome

  lemma WithKeyHead(s: seq<Drug>, key: Drug -> int)
    requires s != []
    ensures WithKey(s, key, key(s[0])) != []
  {
  }

  lemma DescendingHeadIsMax(s: seq<Drug>, key: Drug -> int, y: Drug)
    requires Descending(s, key) && y in s
    ensures key(y) <= key(s[0])
  {
    var p :| 0 <= p < |s| && s[p] == y;
    assert p == 0 || key(s[0]) >= key(s[p]);
  }

  /** Two non-empty descending lists with the same score groups start with
      the same drug: both heads carry the highest key, and each is the first
      of its group. */
  lemma HeadsAgree(r: seq<Drug>, t: seq<Drug>, key: Drug -> int)
    requires r != [] && t != []
    requires Descending(r, key) && Descending(t, key)
    requires forall k :: WithKey(r, key, k) == WithKey(t, key, k)
    ensures r[0] == t[0]
  {
    var k0, k1 := key(r[0]), key(t[0]);
    WithKeyHead(r, key);
    WithKeyHead(t, key);
    var a := WithKey(t, key, k0)[0];
    WithKeyMember(t, key, k0, a);
    DescendingHeadIsMax(t, key, a);
    var b := WithKey(r, key, k1)[0];
    WithKeyMember(r, key, k1, b);
    DescendingHeadIsMax(r, key, b);
    assert k0 == k1;
    assert WithKey(r, key, k0) == [r[0]] + WithKey(r[1..], key, k0);
    assert WithKey(t, key, k0) == [t[0]] + WithKey(t[1..], key, k0);
  }

  /** Removing the same head from two lists with the same score groups
      leaves lists with the same score groups. */
  lemma TailGroupsAgree(r: seq<Drug>, t: seq<Drug>, key: Drug -> int, k: int)
    requires r != [] && t != [] && r[0] == t[0]
    requires WithKey(r, key, k) == WithKey(t, key, k)
    ensures WithKey(r[1..], key, k) == WithKey(t[1..], key, k)
  {
    var restR, restT := WithKey(r[1..], key, k), WithKey(t[1..], key, k);
    if key(r[0]) == k {
      assert WithKey(r, key, k) == [r[0]] + restR;
      assert WithKey(t, key, k) == [t[0]] + restT;
      assert ([r[0]] + restR)[1..] == restR;
      assert ([t[0]] + restT)[1..] == restT;
    } else {
      assert WithKey(r, key, k) == [] + restR;
      assert WithKey(t, key, k) == [] + restT;
      assert [] + restR == restR && [] + restT == restT;
    }
  }

  lemma DescendingTail(s: seq<Drug>, key: Drug -> int)
    requires s != [] && Descending(s, key)
    ensures Descending(s[1..], key)
  {
    forall i, j | 0 <= i < j < |s| - 1 ensures key(s[1..][i]) >= key(s[1..][j]) {
      assert s[1..][i] == s[i + 1] && s[1..][j] == s[j + 1];
    }
  }

  /** Two descending lists with the same score groups are equal. */
  lemma {:induction false} DescendingGroupsDetermine(r: seq<Drug>, t: seq<Drug>, key: Drug -> int)
    requires Descending(r, key) && Descending(t, key)
    requires forall k :: WithKey(r, key, k) == WithKey(t, key, k)
    ensures r == t
    decreases |r|
  {
    if r != [] && t != [] {
      HeadsAgree(r, t, key);
      forall k ensures WithKey(r[1..], key, k) == WithKey(t[1..], key, k) {
        TailGroupsAgree(r, t, key, k);
      }
      DescendingTail(r, key);
      DescendingTail(t, key);
      DescendingGroupsDetermine(r[1..], t[1..], key);
      assert r == [r[0]] + r[1..];
      assert t == [t[0]] + t[1..];
    } else if r != [] || t != [] {
      var u := if r != [] then r else t;
      WithKeyHead(u, key);
      assert false;
    }
  }

  /** Any list that is in descending order of `key` and keeps the
      input order within every score group is the one `SortByKey` gives:
      the model stands for every conforming stable sort. */
  lemma StableSortIsUnique(drugs: seq<Drug>, key: Drug -> int, r: seq<Drug>)
    requires Descending(r, key)
    requires forall k :: WithKey(r, key, k) == WithKey(drugs, key, k)
    ensures r == SortByKey(drugs, key)
  {
    SortDescending(drugs, key);
    forall k ensures WithKey(r, key, k) == WithKey(SortByKey(drugs, key), key, k) {
      SortStable(drugs, key, k);
    }
    DescendingGroupsDetermine(r, SortByKey(drugs, key), key);
  }

  /** A list already in descending order of `key` is left as it is. */
  lemma SortOfDescending(s: seq<Drug>, key: Drug -> int)
    requires Descending(s, key)
    ensures SortByKey(s, key) == s
  {
    StableSortIsUnique(s, key, s);
  }

  /** Sorting twice for the same key gives the same list as sorting once,
      so re-rendering with an unchanged selection does not reorder the grid. */
  lemma SortIdempotent(drugs: seq<Drug>, key: Drug -> int)
    ensures SortByKey(SortByKey(drugs, key), key) == SortByKey(drugs, key)
  {
    SortDescending(drugs, key);
    SortOfDescending(SortByKey(drugs, key), key);
  }

  // ---------------------------------------------------------------------
  // The sort as the application runs it: in place, on a fresh copy

  /** `Insert` puts `x` right after the last drug that scores at least as
      much as `x`: if every drug from position `j` on scores less and the
      one before it (if any) does not, `x` lands at position `j`. */
  lemma {:induction false} InsertAt(sorted: seq<Drug>, x: Drug, key: Drug -> int, j: nat)
    requires j <= |sorted|
    requires j > 0 ==> key(sorted[j - 1]) >= key(x)
    requires forall k | j <= k < |sorted| :: key(sorted[k]) < key(x)
    ensures Insert(sorted, x, key) == sorted[..j] + [x] + sorted[j..]
    decreases |sorted|
  {
    if j == |sorted| {
      assert sorted[..j] == sorted && sorted[j..] == [];
    } else {
      var init, last := sorted[..|sorted| - 1], sorted[|sorted| - 1];
      InsertAt(init, x, key, j);
      assert init[..j] == sorted[..j];
      assert init[j..] + [last] == sorted[j..];
    }
  }

  /** Insert `a[i]` into the sorted prefix `a[..i]` by shifting every drug
      that scores less than it one place to the right. */
  method InsertInPlace(a: array<Drug>, i: nat, key: Drug -> int)
    requires i < a.Length
    modifies a
    ensures a[..i + 1] == Insert(old(a[..i]), old(a[i]), key)
    ensures a[i + 1..] == old(a[i + 1..])
  {
    var x := a[i];
    var xKey := key(x);
    ghost var sorted := a[..i];
    ghost var rest := a[i + 1..];
    var j := i;
    while j > 0 && key(a[j - 1]) < xKey
      invariant 0 <= j <= i
      invariant forall k | 0 <= k < j :: a[k] == sorted[k]
      invariant forall k | j < k <= i :: a[k] == sorted[k - 1]
      invariant a[i + 1..] == rest
      invariant forall k | j <= k < i :: key(sorted[k]) < xKey
    {
      a[j] := a[j - 1];
      j := j - 1;
    }
    a[j] := x;
    InsertAt(sorted, x, key, j);
    Spliced(a[..i + 1], sorted, x, j);
  }

  /** A list that agrees with `sorted` before `j`, holds `x` at `j` and
      `sorted` shifted by one after it is `sorted` with `x` spliced in. */
  lemma Spliced(b: seq<Drug>, sorted: seq<Drug>, x: Drug, j: nat)
    requires j <= |sorted| && |b| == |sorted| + 1
    requires forall k | 0 <= k < j :: b[k] == sorted[k]
    requires b[j] == x
    requires forall k | j < k < |b| :: b[k] == sorted[k - 1]
    ensures b == sorted[..j] + [x] + sorted[j..]
  {
  }

  /** Stable insertion sort of `a` by descending key. */
  method SortInPlace(a: array<Drug>, key: Drug -> int)
    modifies a
    ensures a[..] == SortByKey(old(a[..]), key)
  {
    ghost var input := a[..];
    var i := 0;
    while i < a.Length
      invariant 0 <= i <= a.Length
      invariant a[..i] == SortByKey(input[..i], key)
      invariant a[i..] == input[i..]
    {
      ghost var before := a[..];
      assert before[..i] == a[..i] && before[i] == input[i];
      assert before[i + 1..] == input[i + 1..] by {
        assert before[i + 1..] == a[i..][1..];
      }
      InsertInPlace(a, i, key);
      assert input[..i + 1][..i] == input[..i] && input[..i + 1][i] == input[i];
      assert a[..i + 1] == SortByKey(input[..i + 1], key);
      i := i + 1;
    }
    assert input[..a.Length] == input;
  }

  /** `sortedDrugs`: copy the filtered list (`[...filteredDrugs]`), sort the
      copy, and leave the caller's list alone. */
  method RankDrugs(filtered: seq<Drug>, selected: Option<Disease>) returns (ranked: seq<Drug>)
    ensures ranked == Rank(filtered, selected)
  {
    if selected == None {
      return filtered;
    }
    var copy := new Drug[|filtered|](i requires 0 <= i < |filtered| => filtered[i]);
    assert copy[..] == filtered;
    SortInPlace(copy, ScoreKey(selected.value));
    ranked := copy[..];
  }
}
