/** What a filter leaves, said by position: no filter is named. */
module Positions {
  /** `r` is what stands at the ascending positions `at` of `s`. */
  ghost predicate PicksAt<T>(s: seq<T>, at: seq<nat>, r: seq<T>) {
    && |at| == |r|
    && (forall i, j :: 0 <= i < j < |at| ==> at[i] < at[j])
    && (forall i :: 0 <= i < |at| ==> at[i] < |s| && r[i] == s[at[i]])
  }

  /** `at` lists those of the positions in `kept` that are below `n`. */
  ghost predicate Lists(at: seq<nat>, kept: set<nat>, n: nat) {
    forall k: nat :: k in at <==> k in kept && k < n
  }

  /** `r` is the elements of `s` at exactly the positions in `kept`, in order. */
  ghost predicate Picks<T>(s: seq<T>, kept: set<nat>, r: seq<T>) {
    exists at: seq<nat> :: PicksAt(s, at, r) && Lists(at, kept, |s|)
  }

  lemma {:induction false} PicksNone<T>(s: seq<T>, kept: set<nat>)
    requires forall k: nat :: k < |s| ==> k !in kept
    ensures Picks<T>(s, kept, [])
  {
    assert PicksAt<T>(s, [], []) && Lists([], kept, |s|);
  }

  /** One more element at the end is kept or dropped. */
  lemma {:induction false} PicksOneMore<T>(s: seq<T>, x: T, kept: set<nat>, r: seq<T>, kept': set<nat>)
    requires Picks(s, kept, r) && forall k: nat :: k < |s| ==> (k in kept' <==> k in kept)
    ensures Picks(s + [x], kept', if |s| in kept' then r + [x] else r)
  {
    var at: seq<nat> :| PicksAt(s, at, r) && Lists(at, kept, |s|);
    var end: seq<nat> := [|s|];
    if |s| in kept' {
      assert PicksAt(s + [x], at + end, r + [x]) && Lists(at + end, kept', |s| + 1);
    } else {
      assert PicksAt(s + [x], at, r) && Lists(at, kept', |s| + 1);
    }
  }

  /** One more element is kept, before all that are kept so far. */
  lemma {:induction false} PicksInFront<T>(s: seq<T>, from: nat, kept: set<nat>, r: seq<T>, kept': set<nat>)
    requires from < |s| && Picks(s, kept, r) && forall k: nat :: k in kept && k < |s| ==> from < k
    requires forall k: nat :: k < |s| ==> (k in kept' <==> k in kept || k == from)
    ensures Picks(s, kept', [s[from]] + r)
  {
    var at: seq<nat> :| PicksAt(s, at, r) && Lists(at, kept, |s|);
    var first: seq<nat> := [from];
    forall j | 0 <= j < |at| ensures from < at[j] {
      assert at[j] in at;
    }
    assert PicksAt(s, first + at, [s[from]] + r) && Lists(first + at, kept', |s|);
  }

  /** Only the positions that exist matter. */
  lemma {:induction false} PicksSame<T>(s: seq<T>, kept: set<nat>, r: seq<T>, kept': set<nat>)
    requires Picks(s, kept, r) && forall k: nat :: k < |s| ==> (k in kept' <==> k in kept)
    ensures Picks(s, kept', r)
  {
    var at: seq<nat> :| PicksAt(s, at, r) && Lists(at, kept, |s|);
    assert PicksAt(s, at, r) && Lists(at, kept', |s|);
  }

  /** Where one position is kept, or none, there is that one element, or none. */
  lemma {:induction false} PicksFew<T>(s: seq<T>, kept: set<nat>, r: seq<T>)
    requires Picks(s, kept, r)
    ensures (forall k: nat :: k < |s| ==> k !in kept) ==> r == []
    ensures forall n: nat :: n < |s| && (forall k: nat :: k < |s| ==> (k in kept <==> k == n)) ==> r == [s[n]]
  {
    var at: seq<nat> :| PicksAt(s, at, r) && Lists(at, kept, |s|);
    if at != [] {
      assert at[0] in at && at[|at| - 1] in at;
    }
    forall n: nat | n < |s| && (forall k: nat :: k < |s| ==> (k in kept <==> k == n)) ensures r == [s[n]] {
      assert n in at;
    }
  }
}
