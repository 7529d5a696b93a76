/** The search box of the drug list (`filteredDrugs` in App.tsx): keep the
    drugs whose name, mechanism or one of whose targets contains the search
    term, ignoring case; an empty term keeps the whole list. */
module Search {
  import opened Strings
  import opened Types

  /** Some target of `drug` contains the (already lower-cased) term. */
  predicate SomeTargetContains(drug: Drug, lowerTerm: string)
  {
    exists i | 0 <= i < |drug.targets| :: Contains(ToLower(drug.targets[i]), lowerTerm)
  }

  /** The filter's callback: name, mechanism or some target contains the
      term, after lower-casing both sides. */
  predicate Matches(drug: Drug, term: string)
  {
    var lowerTerm := ToLower(term);
    || Contains(ToLower(drug.name), lowerTerm)
    || Contains(ToLower(drug.mechanism), lowerTerm)
    || SomeTargetContains(drug, lowerTerm)
  }

  /** `drugs.filter(drug => Matches(drug, term))`, in list order. */
  function KeepMatching(drugs: seq<Drug>, term: string): seq<Drug>
  {
    if drugs == [] then []
    else (if Matches(drugs[0], term) then [drugs[0]] else []) + KeepMatching(drugs[1..], term)
  }

  /** The memoised `filteredDrugs`: an empty term returns the list itself. */
  function FilterDrugs(drugs: seq<Drug>, term: string): seq<Drug>
  {
    if term == "" then drugs else KeepMatching(drugs, term)
  }

  /** `sub` is `s` with some elements dropped and the rest in their order. */
  predicate IsSubsequence<T(==)>(sub: seq<T>, s: seq<T>)
    decreases |s|
  {
    if sub == [] then true
    else if s == [] then false
    else if sub[0] == s[0] then IsSubsequence(sub[1..], s[1..])
    else IsSubsequence(sub, s[1..])
  }

  /** An empty term leaves the list exactly as it was. */
  lemma FilterEmptyTerm(drugs: seq<Drug>)
    ensures FilterDrugs(drugs, "") == drugs
  {
  }

  /** With a non-empty term a drug survives exactly when it is in the list
      and matches the term. */
  lemma {:induction false} KeepMatchingMembership(drugs: seq<Drug>, term: string, d: Drug)
    ensures d in KeepMatching(drugs, term) <==> d in drugs && Matches(d, term)
  {
    if drugs != [] {
      KeepMatchingMembership(drugs[1..], term, d);
      assert drugs == [drugs[0]] + drugs[1..];
    }
  }

  lemma FilterMembership(drugs: seq<Drug>, term: string, d: Drug)
    requires term != ""
    ensures d in FilterDrugs(drugs, term) <==> d in drugs && Matches(d, term)
  {
    KeepMatchingMembership(drugs, term, d);
  }

  /** The survivors keep their relative order: the result is a subsequence. */
  lemma {:induction false} KeepMatchingIsSubsequence(drugs: seq<Drug>, term: string)
    ensures IsSubsequence(KeepMatching(drugs, term), drugs)
  {
    if drugs != [] {
      KeepMatchingIsSubsequence(drugs[1..], term);
      var rest := KeepMatching(drugs[1..], term);
      if Matches(drugs[0], term) {
        assert KeepMatching(drugs, term) == [drugs[0]] + rest;
        assert ([drugs[0]] + rest)[1..] == rest;
      } else {
        assert KeepMatching(drugs, term) == rest;
        SubsequenceOfTail(rest, drugs);
      }
    }
  }

  /** Dropping the head of the larger list keeps a subsequence a subsequence. */
  lemma {:induction false} SubsequenceOfTail<T>(sub: seq<T>, s: seq<T>)
    requires s != []
    requires IsSubsequence(sub, s[1..])
    ensures IsSubsequence(sub, s)
    decreases |s|, 0
  {
    if sub != [] && sub[0] == s[0] {
      // s[0] is taken for sub[0]; the rest of sub still fits after it.
      SubsequenceDropHead(sub, s[1..]);
    }
  }

  /** A subsequence without its head is still a subsequence. */
  lemma {:induction false} SubsequenceDropHead<T>(sub: seq<T>, s: seq<T>)
    requires sub != []
    requires IsSubsequence(sub, s)
    ensures IsSubsequence(sub[1..], s)
    decreases |s|, 1
  {
    assert s != [];
    if sub[0] == s[0] {
      SubsequenceOfTail(sub[1..], s);
    } else {
      SubsequenceDropHead(sub, s[1..]);
      SubsequenceOfTail(sub[1..], s);
    }
  }

  lemma FilterIsSubsequence(drugs: seq<Drug>, term: string)
    ensures IsSubsequence(FilterDrugs(drugs, term), drugs)
  {
    if term == "" {
      SubsequenceReflexive(drugs);
    } else {
      KeepMatchingIsSubsequence(drugs, term);
    }
  }

  lemma {:induction false} SubsequenceReflexive<T>(s: seq<T>)
    ensures IsSubsequence(s, s)
  {
    if s != [] {
      SubsequenceReflexive(s[1..]);
    }
  }

  /** Filtering a concatenation filters each part: whether a drug survives
      depends on that drug alone. */
  lemma {:induction false} KeepMatchingAppend(a: seq<Drug>, b: seq<Drug>, term: string)
    ensures KeepMatching(a + b, term) == KeepMatching(a, term) + KeepMatching(b, term)
  {
    if a != [] {
      assert (a + b)[1..] == a[1..] + b;
      KeepMatchingAppend(a[1..], b, term);
    } else {
      assert a + b == b;
    }
  }

  /** Whether a drug matches depends only on the lower-cased term. */
  lemma MatchesIgnoresCase(drug: Drug, term: string)
    ensures Matches(drug, term) <==> Matches(drug, ToLower(term))
  {
    ToLowerIdempotent(term);
  }

  /** The search ignores the case of the term: a term and its lower-case
      form select the same drugs in the same order. */
  lemma {:induction false} FilterIgnoresCase(drugs: seq<Drug>, term: string)
    ensures FilterDrugs(drugs, term) == FilterDrugs(drugs, ToLower(term))
  {
    ToLowerLength(term);
    if term != "" {
      KeepMatchingIgnoresCase(drugs, term);
    }
  }

  lemma {:induction false} KeepMatchingIgnoresCase(drugs: seq<Drug>, term: string)
    ensures KeepMatching(drugs, term) == KeepMatching(drugs, ToLower(term))
  {
    if drugs != [] {
      MatchesIgnoresCase(drugs[0], term);
      KeepMatchingIgnoresCase(drugs[1..], term);
    }
  }

  /** A drug whose name equals the term up to case is always found. */
  lemma NameIsFound(drugs: seq<Drug>, d: Drug)
    requires d in drugs && d.name != ""
    ensures d in FilterDrugs(drugs, d.name)
  {
    ContainsAt(ToLower(d.name), ToLower(d.name), 0);
    FilterMembership(drugs, d.name, d);
  }
}
