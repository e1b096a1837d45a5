/**
 What stripping the metadata tags one after another leaves. Removing the blocks of a
 later tag can join the two halves of an earlier tag's block; on text whose angle
 brackets are paired it cannot, and no block of any tag is left.
 */
module MetadataTags {
  import opened Common
  import opened Text
  import opened UserQuery

  // ------------------------------------------------- text with paired brackets

  /** The `<` at `i` is closed at `j` before another one opens. */
  ghost predicate Closes(s: string, i: nat, j: nat) {
    i < j < |s| && s[j] == '>' && forall k :: i < k < j ==> s[k] != '<'
  }

  ghost predicate Bracketed(s: string) {
    forall i: nat :: i < |s| && s[i] == '<' ==> exists j: nat :: Closes(s, i, j)
  }

  /** Text from `<` to `>` with no bracket in between, such as a tag. */
  predicate IsMark(t: string) {
    |t| >= 2 && t[0] == '<' && t[|t| - 1] == '>' && forall k :: 0 < k < |t| - 1 ==> t[k] != '<' && t[k] != '>'
  }

  lemma {:induction false} TagsAreMarks(tag: string)
    requires IsPlainTag(tag)
    ensures IsMark(OpenTag(tag)) && IsMark(CloseTag(tag))
  {}

  /** Cutting out text that starts with a `<` leaves the rest paired. */
  lemma {:induction false} CutKeepsBracketed(s: string, from: nat, to: nat, cut: string)
    requires Bracketed(s) && from < to <= |s| && s[from] == '<' && cut == s[..from] + s[to..]
    ensures Bracketed(cut)
  {
    forall i: nat | i < |cut| && cut[i] == '<' ensures exists j: nat :: Closes(cut, i, j) {
      if i < from {
        var j: nat :| Closes(s, i, j);
        assert j < from;
        assert Closes(cut, i, j);
      } else {
        var shift := to - from;
        var j: nat :| Closes(s, i + shift, j);
        assert forall k :: i < k < j - shift ==> cut[k] == s[k + shift];
        assert Closes(cut, i, j - shift);
      }
    }
  }

  /** A mark in what is left lies on one side of the cut. */
  lemma {:induction false} CutMakesNoMark(s: string, from: nat, to: nat, cut: string, t: string, i: int)
    requires Bracketed(s) && from < to <= |s| && s[from] == '<' && cut == s[..from] + s[to..]
    requires IsMark(t) && At(cut, t, i)
    ensures At(s, t, if i < from then i else i + (to - from))
  {
    if i < from {
      assert cut[i + 0] == t[0];
      var j: nat :| Closes(s, i, j);
      assert j < from;
      assert j - i < |t| ==> t[j - i] == cut[i + (j - i)] == s[j];
      assert i + |t| <= from;
      assert forall k :: 0 <= k < |t| ==> t[k] == cut[i + k] == s[i + k];
    } else {
      assert forall k :: 0 <= k < |t| ==> t[k] == cut[i + k] == s[i + (to - from) + k];
    }
  }

  lemma {:induction false} CutMakesNoBlock(s: string, from: nat, to: nat, cut: string, tag: string)
    requires Bracketed(s) && from < to <= |s| && s[from] == '<' && cut == s[..from] + s[to..]
    requires IsPlainTag(tag) && !HasClosedBlock(s, tag)
    ensures !HasClosedBlock(cut, tag)
  {
    hide At, IsPlainTag;
    TagsAreMarks(tag);
    if i, j :| i <= j && At(cut, OpenTag(tag), i) && At(cut, CloseTag(tag), j) {
      CutMakesNoMark(s, from, to, cut, OpenTag(tag), i);
      CutMakesNoMark(s, from, to, cut, CloseTag(tag), j);
      assert false;
    }
  }

  /** On paired text, removing one tag's blocks keeps it paired and makes no block of another tag. */
  lemma {:induction false} StripTagMakesNoBlock(s: string, tag: string, other: string)
    requires Bracketed(s) && IsPlainTag(other)
    ensures Bracketed(StripTag(s, tag))
    ensures !HasClosedBlock(s, other) ==> !HasClosedBlock(StripTag(s, tag), other)
    decreases |s|
  {
    hide IsPlainTag, HasClosedBlock, Find, FindFrom, Bracketed, StripTag;
    var start := Find(s, OpenTag(tag));
    if start.Some? && FindFrom(s, CloseTag(tag), start.value).Some? {
      var end := FindFrom(s, CloseTag(tag), start.value).value;
      var to := end + |CloseTag(tag)|;
      var cut := s[..start.value] + s[to..];
      assert s[start.value + 0] == OpenTag(tag)[0] == '<';
      StripsBlock(s, tag, start.value, end, cut);
      CutKeepsBracketed(s, start.value, to, cut);
      if !HasClosedBlock(s, other) {
        CutMakesNoBlock(s, start.value, to, cut, other);
      }
      StripTagMakesNoBlock(cut, tag, other);
    } else {
      StripsNothing(s, tag);
    }
  }

  lemma {:induction false} StripTagsMakeNoBlock(s: string, tags: seq<string>, other: string)
    requires Bracketed(s) && IsPlainTag(other) && !HasClosedBlock(s, other)
    ensures !HasClosedBlock(StripTags(s, tags), other)
    decreases |tags|
  {
    hide IsPlainTag, HasClosedBlock, Bracketed, StripTag;
    if tags != [] {
      StripTagMakesNoBlock(s, tags[0], other);
      StripTagsMakeNoBlock(StripTag(s, tags[0]), tags[1..], other);
    }
  }

  /** On paired text no closed block of any tag is left, so stripping again changes nothing. */
  lemma {:induction false} PairedTextIsStrippedClean(s: string, tags: seq<string>)
    requires Bracketed(s) && forall tag :: tag in tags ==> IsPlainTag(tag)
    ensures NoClosedBlocks(StripTags(s, tags), tags)
    ensures StripTags(StripTags(s, tags), tags) == StripTags(s, tags)
    decreases |tags|
  {
    hide IsPlainTag, HasClosedBlock, Bracketed, StripTag;
    if tags != [] {
      var once, rest := StripTag(s, tags[0]), tags[1..];
      assert tags[0] in tags && forall tag :: tag in tags <==> tag == tags[0] || tag in rest;
      StripTagMakesNoBlock(s, tags[0], tags[0]);
      StripTagsMakeNoBlock(once, rest, tags[0]);
      PairedTextIsStrippedClean(once, rest);
    }
    StripTagsIdentity(StripTags(s, tags), tags);
  }

  /** In particular for the twelve metadata tags. */
  lemma {:induction false} PairedTextHasNoMetadataLeft(s: string)
    requires Bracketed(s)
    ensures NoClosedBlocks(StripTags(s, SYSTEM_TAGS), SYSTEM_TAGS)
  {
    hide IsPlainTag, Bracketed, StripTags, NoClosedBlocks;
    SystemTagsArePlain();
    PairedTextIsStrippedClean(s, SYSTEM_TAGS);
  }

  // ------------------------------------------------------- text that is not paired

  /** A block of tag `b` inside the opening tag of a block of tag `u + v`. */
  function Joining(u: string, v: string, b: string, x: string): string {
    ("<" + u) + (OpenTag(b) + (CloseTag(b) + (v + (">" + x) + CloseTag(u + v))))
  }

  function Joined(a: string, x: string): string {
    OpenTag(a) + x + CloseTag(a)
  }

  /** A plain tag that opens at `i` ends at the next bracket, which is its `>`. */
  lemma {:induction false} OpensUpTo(s: string, tag: string, i: nat, j: nat)
    requires IsPlainTag(tag) && At(s, OpenTag(tag), i)
    requires i < j < |s| && s[j] in {'<', '>'} && forall k :: i < k < j ==> s[k] != '<' && s[k] != '>'
    ensures s[j] == '>' && tag == s[i + 1..j]
  {
    var t := OpenTag(tag);
    assert forall k :: 0 <= k < |tag| ==> tag[k] == t[k + 1];
    assert forall k :: 0 <= k < |t| ==> t[k] == s[i + k];
    assert t[|t| - 1] == '>' && s[i + (|t| - 1)] == '>';
    assert j - i < |t| ==> t[j - i] == s[i + (j - i)] == s[j];
    assert forall k :: 0 < k <= |tag| ==> t[k] == tag[k - 1];
    assert j == i + |t| - 1;
    assert forall k :: 0 <= k < |tag| ==> tag[k] == s[i + 1..j][k];
  }

  lemma {:induction false} PlainTagStart(tag: string)
    requires IsPlainTag(tag)
    ensures tag != "" && tag[0] != '/' && OpenTag(tag)[1] == tag[0] && CloseTag(tag)[1] == '/'
  {}

  lemma {:induction false} StripTagsConcat(s: string, a: seq<string>, b: seq<string>)
    ensures StripTags(s, a + b) == StripTags(StripTags(s, a), b)
    decreases |a|
  {
    hide StripTag;
    if a == [] {
      assert a + b == b;
    } else {
      assert (a + b)[1..] == a[1..] + b;
      StripTagsConcat(StripTag(s, a[0]), a[1..], b);
    }
  }

  /** Text that follows a `<` is cut off from what was before: no tag opens across it. */
  lemma {:induction false} OpensOnOneSide(x: string, y: string, tag: string, i: int)
    requires IsPlainTag(tag) && y != "" && y[0] == '<' && At(x + y, OpenTag(tag), i)
    ensures At(x, OpenTag(tag), i) || (i >= |x| && At(y, OpenTag(tag), i - |x|))
  {
    TagsAreMarks(tag);
    hide IsPlainTag, OpenTag;
    var t := OpenTag(tag);
    if i < |x| && |x| < i + |t| {
      AtShows(x + y, t, i, |x| - i);
      assert false;
    }
    assert forall k :: 0 <= k < |t| ==> t[k] == (x + y)[i + k];
  }

  /** Nothing opens in text without a `>`, nor where each `<` begins a closing tag. */
  lemma {:induction false} OpensNothing(s: string, tag: string)
    requires IsPlainTag(tag)
    requires Lacks(s, '>') || forall k :: 0 <= k < |s| && s[k] == '<' ==> k + 1 < |s| && s[k + 1] == '/'
    ensures forall i :: !At(s, OpenTag(tag), i)
  {
    PlainTagStart(tag);
    forall i ensures !At(s, OpenTag(tag), i) {
      AtShows(s, OpenTag(tag), i, 0);
      AtShows(s, OpenTag(tag), i, 1);
      AtShows(s, OpenTag(tag), i, |OpenTag(tag)| - 1);
    }
  }

  /** In `Joining` only `b` opens, once; in `Joined` only `a`. */
  lemma {:induction false} OpensInJoining(u: string, v: string, b: string, x: string, tag: string, i: int)
    requires IsPlainTag(u + v) && IsPlainTag(b) && IsPlainTag(tag) && Lacks(x, '<')
    requires At(Joining(u, v, b, x), OpenTag(tag), i)
    ensures tag == b && i == 1 + |u|
  {
    var p1, t, c, last := "<" + u, OpenTag(b), CloseTag(b), CloseTag(u + v);
    var mid := c + (v + (">" + x));
    PlainParts(u, v);
    assert c + (v + (">" + x) + last) == mid + last;
    assert p1 + (t + (mid + last)) == Joining(u, v, b, x);
    MidCloses(v, b, x, mid);
    LastCloses(u + v, last);
    PrefixOpensNothing(u, p1);
    OpensNothing(p1, tag);
    OpensNothing(mid, tag);
    OpensNothing(last, tag);
    OpensOnOneSide(p1, t + (mid + last), tag, i);
    OpensOnOneSide(t, mid + last, tag, i - |p1|);
    if At(mid + last, OpenTag(tag), i - |p1| - |t|) {
      OpensOnOneSide(mid, last, tag, i - |p1| - |t|);
    }
    OpensItself(b, tag, i - |p1|);
  }

  lemma {:induction false} PlainParts(u: string, v: string)
    requires IsPlainTag(u + v)
    ensures Lacks(u, '<') && Lacks(u, '>') && Lacks(v, '<') && Lacks(v, '>')
  {
    assert forall k :: 0 <= k < |u| ==> u[k] == (u + v)[k];
    assert forall k :: 0 <= k < |v| ==> v[k] == (u + v)[|u| + k];
  }

  lemma {:induction false} PrefixOpensNothing(u: string, p: string)
    requires p == "<" + u && Lacks(u, '>')
    ensures Lacks(p, '>')
  {}

  lemma {:induction false} MidCloses(v: string, b: string, x: string, mid: string)
    requires mid == CloseTag(b) + (v + (">" + x)) && IsPlainTag(b) && Lacks(v, '<') && Lacks(x, '<')
    ensures mid[0] == '<' && forall k :: 0 <= k < |mid| && mid[k] == '<' ==> k + 1 < |mid| && mid[k + 1] == '/'
  {}

  lemma {:induction false} LastCloses(a: string, last: string)
    requires last == CloseTag(a) && IsPlainTag(a)
    ensures last[0] == '<' && forall k :: 0 <= k < |last| && last[k] == '<' ==> k + 1 < |last| && last[k + 1] == '/'
  {}

  lemma {:induction false} OpensItself(b: string, tag: string, i: int)
    requires IsPlainTag(b) && IsPlainTag(tag) && At(OpenTag(b), OpenTag(tag), i)
    ensures tag == b && i == 0
  {
    if tag != b {
      PlainTagsDistinct(tag, b, i);
    }
  }

  lemma {:induction false} OpensInJoined(a: string, x: string, tag: string, i: int)
    requires IsPlainTag(a) && IsPlainTag(tag) && Lacks(x, '<') && At(Joined(a, x), OpenTag(tag), i)
    ensures tag == a
  {
    var first, last := OpenTag(a) + x, CloseTag(a);
    LastCloses(a, last);
    OpensNothing(last, tag);
    OpensOnOneSide(first, last, tag, i);
    FirstOpens(a, x, first);
    hide OpenTag, IsPlainTag;
    TagsAreMarks(tag);
    AtShows(first, OpenTag(tag), i, 0);
    OpensUpTo(first, tag, 0, |a| + 1);
  }

  lemma {:induction false} FirstOpens(a: string, x: string, first: string)
    requires IsPlainTag(a) && Lacks(x, '<') && first == OpenTag(a) + x
    ensures |first| > |a| + 1 && first[0] == '<' && first[|a| + 1] == '>' && first[1..|a| + 1] == a
    ensures forall k :: 0 < k < |first| ==> first[k] != '<'
    ensures forall k :: 0 < k < |a| + 1 ==> first[k] != '<' && first[k] != '>'
  {
    var t := OpenTag(a);
    assert forall k :: 0 <= k < |t| ==> first[k] == t[k];
    assert forall k :: 0 <= k < |a| ==> a[k] == t[k + 1];
    assert forall k :: 0 < k < |a| + 1 ==> t[k] == a[k - 1];
    assert forall k :: |t| <= k < |first| ==> first[k] == x[k - |t|];
    assert t[1..|a| + 1] == a;
  }

  /** Removing the block of `b` leaves the block of `u + v` that it kept apart. */
  lemma {:induction false} RemovalJoins(u: string, v: string, b: string, x: string)
    requires IsPlainTag(u + v) && IsPlainTag(b) && u + v != b && Lacks(x, '<')
    ensures StripTag(Joining(u, v, b, x), b) == Joined(u + v, x)
  {
    hide StripTag, Find, FindFrom, IsPlainTag, At;
    var s, r := Joining(u, v, b, x), Joined(u + v, x);
    BlockOfB(u, v, b, x);
    assert StripTag(s, b) == StripTag(r, b) by {
      StripsBlock(s, b, 1 + |u|, 1 + |u| + |OpenTag(b)|, r);
    }
    if i :| At(r, OpenTag(b), i) {
      OpensInJoined(u + v, x, b, i);
    }
    StripsNothing(r, b);
  }

  lemma {:induction false} BlockOfB(u: string, v: string, b: string, x: string)
    requires IsPlainTag(u + v) && IsPlainTag(b) && u + v != b && Lacks(x, '<')
    ensures var s, start, end := Joining(u, v, b, x), 1 + |u|, 1 + |u| + |OpenTag(b)|;
            && Find(s, OpenTag(b)) == Some(start) && FindFrom(s, CloseTag(b), start) == Some(end)
            && Joined(u + v, x) == s[..start] + s[end + |CloseTag(b)|..]
  {
    hide Find, FindFrom, OpenTag, CloseTag, IsPlainTag, Joining, Joined, At, IsMark;
    var s, t, c := Joining(u, v, b, x), OpenTag(b), CloseTag(b);
    PlainTagStart(b);
    TagsAreMarks(b);
    JoiningPieces(u, v, b, x);
    forall i: nat | At(s, t, i) ensures i == 1 + |u| {
      OpensInJoining(u, v, b, x, b, i);
    }
    FoundOnly(s, t, 1 + |u|);
    ClosesAfter(s, t, c, 1 + |u|);
    FoundFirst(s, c, 1 + |u|, 1 + |u| + |t|);
  }

  lemma {:induction false} FoundOnly(s: string, t: string, start: nat)
    requires At(s, t, start) && forall i: nat :: At(s, t, i) ==> i == start
    ensures Find(s, t) == Some(start)
  {
    hide At;
  }

  lemma {:induction false} FoundFirst(s: string, t: string, from: nat, end: nat)
    requires from <= end && At(s, t, end) && forall i :: from <= i < end ==> !At(s, t, i)
    ensures FindFrom(s, t, from) == Some(end)
  {
    var r := FindFrom(s, t, from);
    hide FindFrom, At;
  }

  lemma {:induction false} JoiningPieces(u: string, v: string, b: string, x: string)
    ensures var s, t, c := Joining(u, v, b, x), OpenTag(b), CloseTag(b);
            var start, end := 1 + |u|, 1 + |u| + |t|;
            && At(s, t, start) && At(s, c, end) && (forall k :: start <= k < end ==> s[k] == t[k - start])
            && |s| >= end + |c| && Joined(u + v, x) == s[..start] + s[end + |c|..]
  {
    hide OpenTag, CloseTag, At;
    var p1, rest := "<" + u, v + (">" + x) + CloseTag(u + v);
    Pieces(p1, OpenTag(b), CloseTag(b), rest, Joining(u, v, b, x));
    JoinedIs(u, v, x, p1, rest);
  }

  /** A closing tag does not start inside the opening tag before it. */
  lemma {:induction false} ClosesAfter(s: string, t: string, c: string, start: nat)
    requires IsMark(t) && IsMark(c) && t[1] != '/' && c[1] == '/' && start + |t| < |s|
    requires forall k :: start <= k < start + |t| ==> s[k] == t[k - start]
    ensures forall i :: start <= i < start + |t| ==> !At(s, c, i)
  {
    forall i | start <= i < start + |t| ensures !At(s, c, i) {
      AtShows(s, c, i, 0);
      AtShows(s, c, i, 1);
    }
  }

  lemma {:induction false} JoinedIs(u: string, v: string, x: string, p: string, rest: string)
    requires p == "<" + u && rest == v + (">" + x) + CloseTag(u + v)
    ensures Joined(u + v, x) == p + rest
  {
    hide CloseTag;
  }

  lemma {:induction false} Pieces(p: string, t: string, c: string, rest: string, s: string)
    requires s == p + (t + (c + rest))
    ensures At(s, t, |p|) && At(s, c, |p| + |t|) && s[..|p|] == p && s[|p| + |t| + |c|..] == rest
    ensures forall k :: |p| <= k < |p| + |t| ==> s[k] == t[k - |p|]
    ensures c != "" ==> s[|p| + |t|] == c[0]
  {
    var before := p + t;
    assert s == before + (c + rest);
    assert forall k :: 0 <= k < |c| ==> c[k] == s[|before| + k];
    assert forall k :: 0 <= k < |t| ==> t[k] == s[|p| + k];
  }

  /**
   For any tags with `a` before `b`: where a block of `b` stands inside the opening tag of a
   block of `a`, stripping leaves that block of `a`, and stripping again removes it.
   */
  lemma {:induction false} StrippingJoinsABlock(u: string, v: string, b: string, x: string, before: seq<string>,
                                                after: seq<string>)
    requires forall tag :: tag in before + [b] + after ==> IsPlainTag(tag)
    requires u + v in before && b !in before && u + v !in after && Lacks(x, '<')
    ensures var s, tags := Joining(u, v, b, x), before + [b] + after;
            && StripTags(s, tags) == Joined(u + v, x) && HasClosedBlock(Joined(u + v, x), u + v)
            && !NoClosedBlocks(StripTags(s, tags), tags) && StripTags(StripTags(s, tags), tags) != StripTags(s, tags)
  {
    hide IsPlainTag, StripTag, StripTags, At, HasClosedBlock, Joining, Joined;
    var a, s, tags := u + v, Joining(u, v, b, x), before + [b] + after;
    var r := Joined(a, x);
    assert forall tag :: tag in before ==> tag in tags;
    assert forall tag :: tag in after ==> tag in tags;
    assert b in tags && a in tags;
    OthersOpenNothing(u, v, b, x, before, after);
    StripTagsIdentity(s, before);
    StripTagsConcat(s, before + [b], after);
    StripTagsConcat(s, before, [b]);
    OneTag(s, b);
    RemovalJoins(u, v, b, x);
    StripTagsIdentity(r, after);
    JoinedHasABlock(a, x);
    StripTagsIdentity(r, tags);
  }

  lemma {:induction false} OneTag(s: string, tag: string)
    ensures StripTags(s, [tag]) == StripTag(s, tag)
  {
    assert [tag][1..] == [];
  }

  lemma {:induction false} OthersOpenNothing(u: string, v: string, b: string, x: string, before: seq<string>,
                                             after: seq<string>)
    requires IsPlainTag(u + v) && IsPlainTag(b) && Lacks(x, '<') && b !in before && u + v !in after
    requires forall tag :: tag in before || tag in after ==> IsPlainTag(tag)
    ensures NoClosedBlocks(Joining(u, v, b, x), before) && NoClosedBlocks(Joined(u + v, x), after)
  {
    hide IsPlainTag, At, Joining, Joined;
    forall tag | tag in before ensures !HasClosedBlock(Joining(u, v, b, x), tag) {
      if i :| At(Joining(u, v, b, x), OpenTag(tag), i) {
        OpensInJoining(u, v, b, x, tag, i);
      }
    }
    forall tag | tag in after ensures !HasClosedBlock(Joined(u + v, x), tag) {
      if i :| At(Joined(u + v, x), OpenTag(tag), i) {
        OpensInJoined(u + v, x, tag, i);
      }
    }
  }

  lemma {:induction false} JoinedHasABlock(a: string, x: string)
    ensures HasClosedBlock(Joined(a, x), a)
  {
    var s, last := Joined(a, x), |OpenTag(a)| + |x|;
    assert s[..|OpenTag(a)|] == OpenTag(a) && s[last..] == CloseTag(a);
    assert At(s, OpenTag(a), 0) && At(s, CloseTag(a), last);
  }

  /** For example `user_info`, first of the metadata tags, and `rules`, the last. */
  lemma {:induction false} MetadataTagsJoin(x: string)
    requires Lacks(x, '<')
    ensures StripTags(Joining("user_", "info", "rules", x), SYSTEM_TAGS) == Joined("user_info", x)
  {
    hide IsPlainTag, StripTags, Joining, Joined, NoClosedBlocks;
    SystemTagsArePlain();
    var before := SYSTEM_TAGS[..11];
    assert SYSTEM_TAGS == before + ["rules"] + [];
    assert before[0] == "user_info" == "user_" + "info";
    assert "rules" !in before;
    StrippingJoinsABlock("user_", "info", "rules", x, before, []);
  }
}
