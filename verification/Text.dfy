/**
 The string operations of the Rust standard library that the conversation code is
 written with (`find`, `rfind`, `replace`, `trim`), and the laws about occurrences
 that its proofs rest on. A string is a sequence of Unicode scalar values, so the
 source's byte offsets become character offsets: every offset it computes lies on a
 character boundary.
 */
module Text {
  import opened Common

  // ---------------------------------------------------------------- occurrences

  predicate At(s: string, t: string, i: int): (b: bool)
    ensures b ==> 0 <= i && i + |t| <= |s|
  {
    0 <= i && i + |t| <= |s| && forall k :: 0 <= k < |t| ==> s[i + k] == t[k]
  }

  ghost predicate Contains(s: string, t: string) {
    exists i :: At(s, t, i)
  }

  predicate Lacks(t: string, c: char) {
    forall i :: 0 <= i < |t| ==> t[i] != c
  }

  /** First occurrence of `t` at or after `from`. */
  function FindFrom(s: string, t: string, from: nat): (r: Option<nat>)
    requires from <= |s|
    ensures r.Some? ==> from <= r.value && At(s, t, r.value)
    ensures r.Some? ==> forall j :: from <= j < r.value ==> !At(s, t, j)
    ensures r.None? ==> forall j :: from <= j ==> !At(s, t, j)
    decreases |s| - from
  {
    if At(s, t, from) then Some(from)
    else if from == |s| then None
    else FindFrom(s, t, from + 1)
  }

  function Find(s: string, t: string): (r: Option<nat>)
    ensures r.Some? ==> At(s, t, r.value) && forall j :: j < r.value ==> !At(s, t, j)
    ensures r.None? <==> !Contains(s, t)
  {
    FindFrom(s, t, 0)
  }

  /** Last occurrence of `t` that starts at or before `upto`. */
  function RFindUpTo(s: string, t: string, upto: nat): (r: Option<nat>)
    ensures r.Some? ==> r.value <= upto && At(s, t, r.value)
    ensures r.Some? ==> forall j :: r.value < j <= upto ==> !At(s, t, j)
    ensures r.None? ==> forall j :: j <= upto ==> !At(s, t, j)
  {
    if At(s, t, upto) then Some(upto)
    else if upto == 0 then None
    else RFindUpTo(s, t, upto - 1)
  }

  function RFind(s: string, t: string): (r: Option<nat>)
    ensures r.Some? ==> At(s, t, r.value) && forall j :: r.value < j ==> !At(s, t, j)
    ensures r.None? <==> !Contains(s, t)
  {
    RFindUpTo(s, t, |s|)
  }

  /** An occurrence shows each of its characters. */
  lemma {:induction false} AtShows(s: string, t: string, i: int, k: nat)
    requires k < |t|
    ensures At(s, t, i) ==> i + k < |s| && s[i + k] == t[k]
  {}

  lemma {:induction false} PrefixIsAtZero(s: string, t: string)
    ensures t <= s <==> At(s, t, 0)
  {
    if At(s, t, 0) {
      assert s[..|t|] == t;
    }
  }

  lemma {:induction false} AtInDrop(s: string, t: string, k: nat, i: int)
    requires k <= |s|
    ensures At(s[k..], t, i) <==> 0 <= i && At(s, t, i + k)
  {
    var d := s[k..];
    if 0 <= i && i + k + |t| <= |s| {
      if At(d, t, i) {
        forall m | 0 <= m < |t| ensures s[i + k + m] == t[m] {
          assert d[i + m] == t[m];
        }
      }
    }
  }

  /** Cutting text out of the ends of a string creates no occurrence. */
  lemma {:induction false} SliceLacks(s: string, t: string, lo: nat, hi: nat)
    requires lo <= hi <= |s|
    requires !Contains(s, t)
    ensures !Contains(s[lo..hi], t)
  {
    var d := s[lo..hi];
    forall i ensures !At(d, t, i) {
      if At(d, t, i) {
        forall k | 0 <= k < |t| ensures s[lo + i + k] == t[k] {
          assert d[i + k] == t[k];
        }
        assert At(s, t, lo + i);
      }
    }
  }

  /** An occurrence that avoids the separator lies wholly on one side of it. */
  lemma {:induction false} NoStraddle(a: string, c: char, b: string, t: string, i: int)
    requires t != "" && Lacks(t, c)
    ensures At(a + [c] + b, t, i) <==> At(a, t, i) || (|a| < i && At(b, t, i - |a| - 1))
  {
    var s := a + [c] + b;
    if 0 <= i <= |a| < i + |t| {
      var k := |a| - i;
      assert s[i + k] == c && t[k] != c;
    }
    if i > |a| {
      assert At(s, t, i) <==> At(b, t, i - |a| - 1) by {
        assert s[|a| + 1..] == b;
        AtInDrop(s, t, |a| + 1, i - |a| - 1);
      }
    }
  }

  /** Text that starts with its only `<`, such as a tag. */
  predicate OneBracket(t: string) {
    t != "" && t[0] == '<' && forall k :: 0 < k < |t| ==> t[k] != '<'
  }

  lemma {:induction false} StandsAt(a: string, t: string, b: string, s: string)
    requires s == a + (t + b)
    ensures At(s, t, |a|) && forall k :: |a| <= k < |a| + |t| ==> s[k] == t[k - |a|]
  {
    forall k | 0 <= k < |t| ensures s[|a| + k] == t[k] {
      assert (t + b)[k] == t[k];
    }
  }

  /** A tag does not straddle the place where another begins. */
  lemma {:induction false} NoTagBefore(a: string, rest: string, s: string, t: string)
    requires s == a + rest && rest != "" && rest[0] == '<' && OneBracket(t) && !Contains(a, t)
    ensures forall i :: i < |a| ==> !At(s, t, i)
  {
    forall i | 0 <= i < |a| ensures !At(s, t, i) {
      if i + |t| <= |a| {
        assert !At(a, t, i);
        if k :| 0 <= k < |t| && a[i + k] != t[k] {
          AtShows(s, t, i, k);
        }
      } else {
        AtShows(s, t, i, |a| - i);
        assert s[|a|] == '<';
      }
    }
  }

  /** The first tag is the one behind text without it. */
  lemma {:induction false} FoundAfter(a: string, t: string, b: string, s: string)
    requires s == a + (t + b) && OneBracket(t) && !Contains(a, t)
    ensures At(s, t, |a|) && Find(s, t) == Some(|a|)
    ensures forall i :: i < |a| ==> !At(s, t, i)
  {
    StandsAt(a, t, b, s);
    assert (t + b)[0] == t[0];
    NoTagBefore(a, t + b, s, t);
    hide At, Contains, OneBracket;
    assert Find(s, t).Some?;
  }

  /** The last tag is the one before text without it. */
  lemma {:induction false} FoundLast(a: string, t: string, b: string, s: string)
    requires s == a + (t + b) && OneBracket(t) && !Contains(b, t)
    ensures At(s, t, |a|) && RFind(s, t) == Some(|a|)
  {
    StandsAt(a, t, b, s);
    var end := |a| + |t|;
    assert s[end..] == b;
    forall j | |a| < j ensures !At(s, t, j) {
      AtInDrop(s, t, end, j - end);
      AtShows(s, t, j, 0);
    }
    hide At, Contains, OneBracket;
    assert RFind(s, t).Some?;
  }

  // ------------------------------------------------------------------ trimming

  /** Unicode `White_Space`, the class `char::is_whitespace` tests. U+200B is not in it. */
  predicate IsSpace(c: char) {
    || '\U{0009}' <= c <= '\U{000D}' || c == ' ' || c == '\U{0085}' || c == '\U{00A0}'
    || c == '\U{1680}' || '\U{2000}' <= c <= '\U{200A}' || c == '\U{2028}' || c == '\U{2029}'
    || c == '\U{202F}' || c == '\U{205F}' || c == '\U{3000}'
  }

  function TrimStart(s: string): (r: string)
    ensures |r| <= |s|
    ensures r == "" || !IsSpace(r[0])
  {
    if s != "" && IsSpace(s[0]) then TrimStart(s[1..]) else s
  }

  function TrimEnd(s: string): (r: string)
    ensures r <= s
    ensures r == "" || !IsSpace(r[|r| - 1])
  {
    if s != "" && IsSpace(s[|s| - 1]) then TrimEnd(s[..|s| - 1]) else s
  }

  predicate Trimmed(s: string) {
    s == "" || (!IsSpace(s[0]) && !IsSpace(s[|s| - 1]))
  }

  predicate AllSpace(s: string) {
    forall i :: 0 <= i < |s| ==> IsSpace(s[i])
  }

  function Trim(s: string): (r: string)
    ensures |r| <= |s| && Trimmed(r)
    ensures Trimmed(s) ==> r == s
  {
    TrimEnd(TrimStart(s))
  }

  /** Trimming cuts whitespace, and nothing else, off the two ends. */
  lemma {:induction false} TrimSlice(s: string) returns (lo: nat, hi: nat)
    ensures lo <= hi <= |s| && Trim(s) == s[lo..hi]
    ensures AllSpace(s[..lo]) && AllSpace(s[hi..])
  {
    TrimStartSlice(s);
    var a := TrimStart(s);
    TrimEndSlice(a);
    lo, hi := |s| - |a|, |s| - |a| + |TrimEnd(a)|;
    assert s[hi..] == a[|TrimEnd(a)|..];
  }

  lemma {:induction false} TrimStartSlice(s: string)
    ensures var k := |s| - |TrimStart(s)|; TrimStart(s) == s[k..] && AllSpace(s[..k])
  {
    if s != "" && IsSpace(s[0]) {
      TrimStartSlice(s[1..]);
      var k := |s| - |TrimStart(s)|;
      assert s[..k] == [s[0]] + s[1..][..k - 1];
    }
  }

  lemma {:induction false} TrimEndSlice(s: string)
    ensures AllSpace(s[|TrimEnd(s)|..])
  {
    if s != "" && IsSpace(s[|s| - 1]) {
      var shorter := s[..|s| - 1];
      TrimEndSlice(shorter);
      assert s[|TrimEnd(s)|..] == shorter[|TrimEnd(s)|..] + [s[|s| - 1]];
    }
  }

  /** Leading and trailing whitespace around a trimmed core is what `Trim` removes. */
  lemma {:induction false} TrimOfPadded(a: string, core: string, b: string)
    requires AllSpace(a) && AllSpace(b) && Trimmed(core)
    ensures Trim(a + core + b) == core
  {
    var tail := core + b;
    assert a + core + b == a + tail;
    TrimStartSkips(a, tail);
    if core == "" {
      assert tail == b && b + "" == b;
      TrimStartSkips(b, "");
    } else {
      assert tail[0] == core[0];
      assert TrimStart(tail) == tail;
      TrimEndSkips(core, b);
    }
  }

  lemma {:induction false} TrimStartSkips(a: string, b: string)
    requires AllSpace(a)
    ensures TrimStart(a + b) == TrimStart(b)
  {
    if a == "" {
      assert a + b == b;
    } else {
      assert (a + b)[1..] == a[1..] + b;
      TrimStartSkips(a[1..], b);
    }
  }

  lemma {:induction false} TrimEndSkips(a: string, b: string)
    requires AllSpace(b)
    ensures TrimEnd(a + b) == TrimEnd(a)
  {
    if b == "" {
      assert a + b == a;
    } else {
      assert (a + b)[..|a + b| - 1] == a + b[..|b| - 1];
      TrimEndSkips(a, b[..|b| - 1]);
    }
  }

  lemma {:induction false} TrimLacks(s: string, t: string)
    requires !Contains(s, t)
    ensures !Contains(Trim(s), t)
  {
    var lo, hi := TrimSlice(s);
    SliceLacks(s, t, lo, hi);
  }

  /** One more space on either side does not change what trimming leaves. */
  lemma {:induction false} TrimAround(c: char, s: string, d: char)
    requires IsSpace(c) && IsSpace(d)
    ensures Trim([c] + s + [d]) == Trim(s)
  {
    var lo, hi := TrimSlice(s);
    var before, core, after := [c] + s[..lo], Trim(s), s[hi..] + [d];
    AllSpaceConcat([c], s[..lo]);
    AllSpaceConcat(s[hi..], [d]);
    assert [c] + s + [d] == before + core + after;
    TrimOfPadded(before, core, after);
  }

  lemma {:induction false} AllSpaceConcat(a: string, b: string)
    requires AllSpace(a) && AllSpace(b)
    ensures AllSpace(a + b)
  {
  }

  lemma {:induction false} TrimDropsLeadingSpace(c: char, s: string)
    requires IsSpace(c)
    ensures |Trim([c] + s)| <= |s|
  {
    assert ([c] + s)[1..] == s;
    var a := TrimStart([c] + s);
    assert a == TrimStart(s);
  }

  // --------------------------------------------------------------- replacement

  /** `str::replace`: leftmost, non-overlapping occurrences of `t` become `u`. */
  function Replace(s: string, t: string, u: string): string
    requires t != ""
  {
    if s == "" then ""
    else if t <= s then u + Replace(s[|t|..], t, u)
    else [s[0]] + Replace(s[1..], t, u)
  }

  lemma {:induction false} ReplaceAbsent(s: string, t: string, u: string)
    requires t != "" && !Contains(s, t)
    ensures Replace(s, t, u) == s
  {
    if s != "" {
      PrefixIsAtZero(s, t);
      SliceLacks(s, t, 1, |s|);
      assert s[1..|s|] == s[1..];
      ReplaceAbsent(s[1..], t, u);
    }
  }

  lemma {:induction false} ReplaceShrinks(s: string, t: string, u: string)
    requires t != "" && |u| < |t|
    ensures |Replace(s, t, u)| <= |s|
    ensures Contains(s, t) ==> |Replace(s, t, u)| < |s|
  {
    if s == "" {
    } else if t <= s {
      ReplaceShrinks(s[|t|..], t, u);
    } else {
      ReplaceShrinks(s[1..], t, u);
      if Contains(s, t) {
        var i :| At(s, t, i);
        PrefixIsAtZero(s, t);
        AtInDrop(s, t, 1, i - 1);
        assert At(s[1..], t, i - 1);
      }
    }
  }
}
