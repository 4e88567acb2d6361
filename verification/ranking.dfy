/** Keyword scoring and Python's `max(d, key=d.get)`, which picks the first
    key, in insertion order, that carries the largest value. */
module Ranking {
  import opened Wrappers
  import opened Text
  import opened Seqs

  /** `sum(1 for k in keywords if k in text)`: how many list entries occur. */
  function Hits(text: string, keywords: seq<string>): (n: nat)
    ensures n <= |keywords|
    ensures n == 0 <==> !AnyIn(text, keywords)
    decreases |keywords|
  {
    if |keywords| == 0 then 0
    else (if Contains(text, keywords[0]) then 1 else 0) + Hits(text, keywords[1..])
  }

  /** The keywords of the list that occur in the text. */
  ghost function Present(text: string, keywords: seq<string>): set<string> {
    set k | k in keywords && Contains(text, k)
  }

  /** For a keyword list without repeats the score is the number of distinct
      keywords present in the text. */
  lemma {:induction false} HitsIsPresentKeywordCount(text: string, keywords: seq<string>)
    requires Distinct(keywords)
    ensures Hits(text, keywords) == |Present(text, keywords)|
    decreases |keywords|
  {
    if |keywords| == 0 {
      assert Present(text, keywords) == {};
    } else {
      var rest := keywords[1..];
      HitsIsPresentKeywordCount(text, rest);
      assert keywords[0] !in rest;
      if Contains(text, keywords[0]) {
        assert Present(text, keywords) == Present(text, rest) + {keywords[0]};
      } else {
        assert Present(text, keywords) == Present(text, rest);
      }
    }
  }

  /** Index of the first largest score. */
  function FirstMax(scores: seq<int>): (i: nat)
    requires |scores| > 0
    ensures i < |scores|
    ensures forall j :: 0 <= j < |scores| ==> scores[j] <= scores[i]
    ensures forall j :: 0 <= j < i ==> scores[j] < scores[i]
    decreases |scores|
  {
    if |scores| == 1 then 0
    else
      var k := FirstMax(scores[..|scores| - 1]);
      if scores[|scores| - 1] > scores[k] then |scores| - 1 else k
  }

  /** The same choice over real-valued scores. */
  function FirstMaxReal(scores: seq<real>): (i: nat)
    requires |scores| > 0
    ensures i < |scores|
    ensures forall j :: 0 <= j < |scores| ==> scores[j] <= scores[i]
    ensures forall j :: 0 <= j < i ==> scores[j] < scores[i]
    decreases |scores|
  {
    if |scores| == 1 then 0
    else
      var k := FirstMaxReal(scores[..|scores| - 1]);
      if scores[|scores| - 1] > scores[k] then |scores| - 1 else k
  }

  /** The two properties pin the index down: no other index has both. */
  lemma FirstMaxUnique(scores: seq<int>, i: nat)
    requires |scores| > 0 && i < |scores|
    requires forall j :: 0 <= j < |scores| ==> scores[j] <= scores[i]
    requires forall j :: 0 <= j < i ==> scores[j] < scores[i]
    ensures i == FirstMax(scores)
  {
  }

  /** Index of the first keyword list with an entry in the text: the
      `if any(...) elif any(...)` chains of the categorisers. */
  function FirstHit(text: string, lists: seq<seq<string>>): (r: Option<nat>)
    ensures r.Some? ==> r.value < |lists| && AnyIn(text, lists[r.value])
    ensures r.Some? ==> forall j :: 0 <= j < r.value ==> !AnyIn(text, lists[j])
    ensures r.None? <==> forall j :: 0 <= j < |lists| ==> !AnyIn(text, lists[j])
    decreases |lists|
  {
    if |lists| == 0 then None
    else if AnyIn(text, lists[0]) then Some(0)
    else
      assert forall j :: 1 <= j < |lists| ==> lists[1..][j - 1] == lists[j];
      match FirstHit(text, lists[1..])
      case None => None
      case Some(i) => Some(i + 1)
  }
}
