/**
 Wrapping a user query in its tags and reading it back
 (`strip_system_tags`, `extract_user_query`, `wrap_user_query`,
 `is_synthetic_extracted_query`, `is_real_user_turn`).
 */
module UserQuery {
  import opened Common
  import opened Text
  import opened Conversation

  const SYSTEM_TAGS: seq<string> := [
    "user_info", "project_layout", "git_status", "fork-context", "system-reminder", "agent-memory",
    "system_reminder", "background_context", "command-name", "command-message", "command-args", "rules"]

  const QUERY_TAG := "user_query"

  const AUTO_CONTINUE_PROMPT :=
    "Continue the conversation from where it " + "left off without asking the user any "
    + "further questions. " + "Resume directly - do not acknowledge " + "the summary, do not recap what was "
    + "happening, " + "do not preface with \"I'll continue\" or " + "similar.\nPick up the last task as if "
    + "the break never happened."

  function OpenTag(tag: string): string { "<" + tag + ">" }

  function CloseTag(tag: string): string { "</" + tag + ">" }

  // ------------------------------------------------------- stripping metadata

  /** Some `<tag>` is followed by a `</tag>`. */
  ghost predicate HasClosedBlock(s: string, tag: string) {
    exists i, j :: i <= j && At(s, OpenTag(tag), i) && At(s, CloseTag(tag), j)
  }

  /** Every block `<tag>...</tag>` cut out, first opening tag first. */
  function StripTag(s: string, tag: string): (r: string)
    ensures |r| <= |s|
    ensures !HasClosedBlock(r, tag)
    ensures !HasClosedBlock(s, tag) ==> r == s
    ensures HasClosedBlock(s, tag) ==> |r| < |s|
    decreases |s|
  {
    match Find(s, OpenTag(tag))
    case None => s
    case Some(start) =>
      match FindFrom(s, CloseTag(tag), start)
      case None =>
        assert !HasClosedBlock(s, tag);
        s
      case Some(end) =>
        assert At(s, OpenTag(tag), start) && At(s, CloseTag(tag), end);
        StripTag(s[..start] + s[end + |CloseTag(tag)|..], tag)
  }

  function StripTags(s: string, tags: seq<string>): (r: string)
    ensures |r| <= |s|
    decreases |tags|
  {
    if tags == [] then s else StripTags(StripTag(s, tags[0]), tags[1..])
  }

  method StripTagsInOrder(text: string, tags: seq<string>) returns (result: string)
    ensures result == StripTags(text, tags)
  {
    result := text;
    for n := 0 to |tags|
      invariant StripTags(result, tags[n..]) == StripTags(text, tags)
    {
      assert tags[n..][1..] == tags[n + 1..];
      result := StripEveryBlock(result, tags[n]);
    }
  }

  method StripEveryBlock(text: string, tag: string) returns (result: string)
    ensures result == StripTag(text, tag)
  {
    hide At, HasClosedBlock;
    result := text;
    while true
      invariant StripTag(result, tag) == StripTag(text, tag)
      decreases |result|
    {
      var start := Find(result, OpenTag(tag));
      if start.None? {
        return;
      }
      var end := FindFrom(result, CloseTag(tag), start.value);
      if end.None? {
        return;
      }
      result := result[..start.value] + result[end.value + |CloseTag(tag)|..];
    }
  }

  function SystemTagsStripped(text: string): string {
    Trim(StripTags(text, SYSTEM_TAGS))
  }

  method StripSystemTags(text: string) returns (result: string)
    ensures result == SystemTagsStripped(text)
  {
    result := StripTagsInOrder(text, SYSTEM_TAGS);
    result := Trim(result);
  }

  // ------------------------------------------------------------ query wrapping

  /** The trimmed text between the first `open` and the first `close` after it. */
  function Between(s: string, open: string, close: string): string {
    match Find(s, open)
    case None => s
    case Some(start) =>
      var content := s[start + |open|..];
      match Find(content, close)
      case None => s
      case Some(end) => Trim(content[..end])
  }

  /** Metadata blocks are dropped first, then the query is read from between its tags. */
  function ExtractTagged(text: string, tags: seq<string>, queryTag: string): string {
    Between(Trim(StripTags(text, tags)), OpenTag(queryTag), CloseTag(queryTag))
  }

  function ExtractUserQuery(text: string): string {
    ExtractTagged(text, SYSTEM_TAGS, QUERY_TAG)
  }

  function Framed(open: string, text: string, close: string): string {
    open + ['\n'] + (text + ['\n'] + close)
  }

  function WrapTagged(text: string, queryTag: string): string {
    Framed(OpenTag(queryTag), text, CloseTag(queryTag))
  }

  function WrapUserQuery(text: string): string {
    WrapTagged(text, QUERY_TAG)
  }

  predicate IsSyntheticQuery(text: string) {
    text == "" || text == "__auto_continue__" || text == AUTO_CONTINUE_PROMPT
  }

  predicate IsRealUserTurn(item: Item) {
    && item.User?
    && item.user.syntheticReason.None?
    && (HasImage(item.user.content) || !IsSyntheticQuery(ExtractUserQuery(JoinedText(item.user.content))))
  }

  // ---------------------------------------------------------- round-trip proof

  /** A plain tag name: its two tags sit on one line and hold no inner bracket. */
  predicate IsPlainTag(tag: string) {
    tag != "" && tag[0] != '/' && Lacks(tag, '\n') && Lacks(tag, '<') && Lacks(tag, '>')
  }

  lemma {:induction false} SystemTagsArePlain()
    ensures forall tag :: tag in SYSTEM_TAGS ==> IsPlainTag(tag) && tag != QUERY_TAG
    ensures IsPlainTag(QUERY_TAG)
  {
    hide IsPlainTag;
    SystemTagsArePlain0();
    SystemTagsArePlain1();
    SystemTagsArePlain2();
  }

  lemma {:induction false} SystemTagsArePlain0()
    ensures IsPlainTag("user_info") && IsPlainTag("project_layout") && IsPlainTag("git_status")
    ensures IsPlainTag("fork-context") && IsPlainTag("system-reminder") && IsPlainTag("agent-memory")
  {}

  lemma {:induction false} SystemTagsArePlain1()
    ensures IsPlainTag("system_reminder") && IsPlainTag("background_context") && IsPlainTag("command-name")
    ensures IsPlainTag("command-message") && IsPlainTag("command-args") && IsPlainTag("rules")
  {}

  lemma {:induction false} SystemTagsArePlain2()
    ensures IsPlainTag(QUERY_TAG)
  {}

  /** Two different plain tags never occur in one another. */
  lemma {:induction false} PlainTagsDistinct(tag: string, other: string, i: int)
    requires IsPlainTag(tag) && IsPlainTag(other) && tag != other
    ensures !At(OpenTag(other), OpenTag(tag), i) && !At(CloseTag(other), OpenTag(tag), i)
    ensures !At(OpenTag(other), CloseTag(tag), i) && !At(CloseTag(other), CloseTag(tag), i)
  {
    TagNotIn(OpenTag(other), OpenTag(tag), i);
    TagNotIn(CloseTag(other), OpenTag(tag), i);
    TagNotIn(OpenTag(other), CloseTag(tag), i);
    TagNotIn(CloseTag(other), CloseTag(tag), i);
    assert OpenTag(tag)[1..|OpenTag(tag)| - 1] == tag && CloseTag(tag)[2..|CloseTag(tag)| - 1] == tag;
    assert OpenTag(other)[1..|OpenTag(other)| - 1] == other && CloseTag(other)[2..|CloseTag(other)| - 1] == other;
    assert OpenTag(tag)[1] == tag[0] && OpenTag(other)[1] == other[0];
    assert CloseTag(tag)[1] == '/' && CloseTag(other)[1] == '/';
  }

  /** `s` and `t` start with their only `<` and end with their only `>`. */
  lemma {:induction false} TagNotIn(s: string, t: string, i: int)
    requires |s| >= 2 && s[0] == '<' && s[|s| - 1] == '>'
    requires forall k :: 0 < k < |s| ==> s[k] != '<'
    requires forall k :: 0 <= k < |s| - 1 ==> s[k] != '>'
    requires |t| >= 2 && t[0] == '<' && t[|t| - 1] == '>'
    ensures At(s, t, i) ==> s == t
  {
    if 0 <= i && i + |t| <= |s| {
      var first, last := 0, |t| - 1;
      assert s[i + first] == '<' <==> i == 0;
      assert s[i + last] == '>' <==> i + |t| == |s|;
    }
  }

  /** `t` fits on one line and occurs in neither side of the frame. */
  ghost predicate AvoidsFrame(open: string, t: string, close: string) {
    t != "" && Lacks(t, '\n') && !Contains(open, t) && !Contains(close, t)
  }

  /** No occurrence straddles the newlines that the frame inserts. */
  lemma {:induction false} FramedAt(open: string, text: string, close: string, t: string, i: int)
    requires AvoidsFrame(open, t, close)
    ensures At(Framed(open, text, close), t, i) <==> At(text, t, i - |open| - 1)
  {
    NoStraddle(open, '\n', text + ['\n'] + close, t, i);
    NoStraddle(text, '\n', close, t, i - |open| - 1);
  }

  lemma {:induction false} TagsAreNotEmpty(tag: string)
    ensures OpenTag(tag) != "" && CloseTag(tag) != ""
  {}

  lemma {:induction false} StripTagUnderFrame(open: string, text: string, close: string, tag: string)
    requires AvoidsFrame(open, OpenTag(tag), close) && AvoidsFrame(open, CloseTag(tag), close)
    ensures StripTag(Framed(open, text, close), tag) == Framed(open, StripTag(text, tag), close)
    decreases |text|
  {
    hide At, Find, FindFrom, Framed, OpenTag, CloseTag, AvoidsFrame, HasClosedBlock, StripTag;
    var w, shift := Framed(open, text, close), |open| + 1;
    var start := Find(text, OpenTag(tag));
    FindUnderFrame(open, text, close, OpenTag(tag), 0);
    if start.None? {
      StripsNothing(text, tag);
      StripsNothing(w, tag);
    } else {
      var end := FindFrom(text, CloseTag(tag), start.value);
      FindUnderFrame(open, text, close, CloseTag(tag), start.value);
      if end.None? {
        StripsNothing(text, tag);
        StripsNothing(w, tag);
      } else {
        var cut := end.value + |CloseTag(tag)|;
        var rest := text[..start.value] + text[cut..];
        FramedCut(open, text, close, start.value, cut, rest);
        TagsAreNotEmpty(tag);
        StripsBlock(text, tag, start.value, end.value, rest);
        StripsBlock(w, tag, start.value + shift, end.value + shift, Framed(open, rest, close));
        StripTagUnderFrame(open, rest, close, tag);
      }
    }
  }

  lemma {:induction false} StripsNothing(s: string, tag: string)
    requires Find(s, OpenTag(tag)).None? || FindFrom(s, CloseTag(tag), Find(s, OpenTag(tag)).value).None?
    ensures StripTag(s, tag) == s
  {}

  lemma {:induction false} StripsBlock(s: string, tag: string, start: nat, end: nat, rest: string)
    requires Find(s, OpenTag(tag)) == Some(start) && FindFrom(s, CloseTag(tag), start) == Some(end)
    requires rest == s[..start] + s[end + |CloseTag(tag)|..]
    ensures StripTag(s, tag) == StripTag(rest, tag)
  {
    hide OpenTag, CloseTag, At, Find, FindFrom;
  }

  lemma {:induction false} FindUnderFrame(open: string, text: string, close: string, t: string, from: nat)
    requires AvoidsFrame(open, t, close) && from <= |text|
    ensures var w, r, shift := Framed(open, text, close), FindFrom(text, t, from), |open| + 1;
            var r' := if r.Some? then Some(r.value + shift) else None;
            && from + shift <= |w| && FindFrom(w, t, from + shift) == r'
            && (from == 0 ==> Find(w, t) == r' && Find(text, t) == r)
  {
    hide At, Framed, AvoidsFrame;
    var w, shift := Framed(open, text, close), |open| + 1;
    forall i ensures At(w, t, i) <==> At(text, t, i - shift) {
      FramedAt(open, text, close, t, i);
    }
    FramedCut(open, text, close, 0, 0, text);
    FramedCut(open, text, close, from, from, text);
    FindShifted(w, text, t, shift, from);
    if from == 0 {
      forall i | i < shift ensures !At(w, t, i) {
        assert !At(text, t, i - shift);
      }
      FindFromZero(w, t, shift);
    }
  }

  /** Searching text moved right by `shift` finds what was there, moved. */
  lemma {:induction false} FindShifted(w: string, text: string, t: string, shift: nat, from: nat)
    requires from <= |text| && from + shift <= |w|
    requires forall i :: At(w, t, i) <==> At(text, t, i - shift)
    ensures var r := FindFrom(text, t, from);
            FindFrom(w, t, from + shift) == if r.Some? then Some(r.value + shift) else None
  {
    hide At;
    var r, r' := FindFrom(text, t, from), FindFrom(w, t, from + shift);
    if r.Some? {
      assert At(w, t, r.value + shift);
    }
    if r'.Some? {
      assert At(text, t, r'.value - shift);
    }
  }

  lemma {:induction false} FindFromZero(w: string, t: string, from: nat)
    requires from <= |w| && forall i :: i < from ==> !At(w, t, i)
    ensures Find(w, t) == FindFrom(w, t, from)
  {
    hide At;
    var r := FindFrom(w, t, from);
    assert r.None? ==> !Contains(w, t);
  }

  /** Cutting a block out of the text cuts it out of the frame around it. */
  lemma {:induction false} FramedCut(open: string, text: string, close: string, i: nat, j: nat, rest: string)
    requires i <= j <= |text| && rest == text[..i] + text[j..]
    ensures var w, shift := Framed(open, text, close), |open| + 1;
            j + shift <= |w| && w[..i + shift] + w[j + shift..] == Framed(open, rest, close)
  {
    var w, shift := Framed(open, text, close), |open| + 1;
    assert w[..i + shift] == open + ['\n'] + text[..i];
    assert w[j + shift..] == text[j..] + ['\n'] + close;
  }

  lemma {:induction false} StripTagsUnderFrame(open: string, text: string, close: string, tags: seq<string>)
    requires forall tag :: tag in tags ==>
      AvoidsFrame(open, OpenTag(tag), close) && AvoidsFrame(open, CloseTag(tag), close)
    ensures StripTags(Framed(open, text, close), tags) == Framed(open, StripTags(text, tags), close)
    decreases |tags|
  {
    if tags != [] {
      StripTagUnderFrame(open, text, close, tags[0]);
      StripTagsUnderFrame(open, StripTag(text, tags[0]), close, tags[1..]);
    }
  }

  ghost predicate NoClosedBlocks(q: string, tags: seq<string>) {
    forall tag :: tag in tags ==> !HasClosedBlock(q, tag)
  }

  /** Stripping is the identity exactly on text without a closed block. */
  lemma {:induction false} StripTagsIdentity(q: string, tags: seq<string>)
    ensures NoClosedBlocks(q, tags) ==> StripTags(q, tags) == q
    ensures !NoClosedBlocks(q, tags) ==> |StripTags(q, tags)| < |q|
    decreases |tags|
  {
    if tags != [] {
      StripTagsIdentity(StripTag(q, tags[0]), tags[1..]);
      assert forall tag :: tag in tags <==> tag == tags[0] || tag in tags[1..];
    }
  }

  lemma {:induction false} InsideAt(text: string, close: string, i: int)
    requires close != "" && Lacks(close, '\n')
    ensures At(['\n'] + (text + ['\n'] + close), close, i) <==> At(text, close, i - 1) || i == |text| + 2
  {
    NoStraddle([], '\n', text + ['\n'] + close, close, i);
    NoStraddle(text, '\n', close, close, i - 1);
    assert [] + ['\n'] + (text + ['\n'] + close) == ['\n'] + (text + ['\n'] + close);
    assert At(close, close, 0);
  }

  /** First occurrence of `close` in the frame's inside: in `text`, or else the closing side itself. */
  lemma {:induction false} FrameCloses(text: string, close: string, inside: string)
    requires close != "" && Lacks(close, '\n')
    requires inside == ['\n'] + (text + ['\n'] + close)
    ensures Find(inside, close) ==
            Some(if Contains(text, close) then Find(text, close).value + 1 else |text| + 2)
  {
    hide At, Lacks;
    var end := if Contains(text, close) then Find(text, close).value + 1 else |text| + 2;
    InsideAt(text, close, end);
    forall i | i < end ensures !At(inside, close, i) {
      InsideAt(text, close, i);
    }
  }

  /** What lies between the sides of a frame, up to the first `close`. */
  lemma {:induction false} BetweenFrame(open: string, text: string, close: string)
    requires open != "" && close != "" && Lacks(close, '\n')
    ensures Between(Framed(open, text, close), open, close) == ReadBack(text, close)
  {
    var w, inside := Framed(open, text, close), ['\n'] + (text + ['\n'] + close);
    assert w == open + inside;
    BetweenSides(open, text, close, inside, w);
  }

  function ReadBack(text: string, close: string): string {
    match Find(text, close)
    case None => Trim(text)
    case Some(end) => Trim(['\n'] + text[..end])
  }

  lemma {:induction false} BetweenSides(open: string, text: string, close: string, inside: string, w: string)
    requires open != "" && close != "" && Lacks(close, '\n')
    requires inside == ['\n'] + (text + ['\n'] + close)
    requires w == open + inside
    ensures Between(w, open, close) == ReadBack(text, close)
  {
    assert At(w, open, 0);
    hide At, Trim, Lacks;
    assert Find(w, open) == Some(0);
    assert w[|open|..] == inside;
    FrameCloses(text, close, inside);
    InsideCut(text, close, inside);
    TrimAround('\n', text, '\n');
  }

  lemma {:induction false} InsideCut(text: string, close: string, inside: string)
    requires inside == ['\n'] + (text + ['\n'] + close)
    ensures inside[..|text| + 2] == ['\n'] + text + ['\n']
    ensures forall end :: 0 <= end <= |text| ==> inside[..end + 1] == ['\n'] + text[..end]
  {}

  /** Every metadata tag is plain, and none of them is the query tag. */
  ghost predicate TagsKeptApart(tags: seq<string>, queryTag: string) {
    IsPlainTag(queryTag) && forall tag :: tag in tags ==> IsPlainTag(tag) && tag != queryTag
  }

  /** What a wrapped text reads back as. */
  lemma {:induction false} ExtractOfWrapped(q: string, tags: seq<string>, queryTag: string)
    requires TagsKeptApart(tags, queryTag)
    ensures ExtractTagged(WrapTagged(q, queryTag), tags, queryTag) == ReadBack(StripTags(q, tags), CloseTag(queryTag))
  {
    var open, close := OpenTag(queryTag), CloseTag(queryTag);
    WrapIsTrimmed(StripTags(q, tags), queryTag);
    hide At, StripTags, Between, Find, IsPlainTag, ReadBack, Framed, Trim, IsSpace;
    forall tag | tag in tags
      ensures AvoidsFrame(open, OpenTag(tag), close) && AvoidsFrame(open, CloseTag(tag), close)
    {
      TagAvoidsFrame(tag, queryTag);
    }
    StripTagsUnderFrame(open, q, close, tags);
    CloseTagIsInline(queryTag);
    BetweenFrame(open, StripTags(q, tags), close);
  }

  lemma {:induction false} WrapIsTrimmed(text: string, queryTag: string)
    ensures Trimmed(WrapTagged(text, queryTag))
  {}

  lemma {:induction false} CloseTagIsInline(tag: string)
    requires IsPlainTag(tag)
    ensures Lacks(CloseTag(tag), '\n')
  {}

  lemma {:induction false} TagAvoidsFrame(tag: string, frame: string)
    requires IsPlainTag(tag) && IsPlainTag(frame) && tag != frame
    ensures AvoidsFrame(OpenTag(frame), OpenTag(tag), CloseTag(frame))
    ensures AvoidsFrame(OpenTag(frame), CloseTag(tag), CloseTag(frame))
  {
    hide At;
    forall i { PlainTagsDistinct(tag, frame, i); }
  }

  /** The texts that a wrapper of this tag carries faithfully. */
  ghost predicate SurvivesTagged(q: string, tags: seq<string>, queryTag: string) {
    Trimmed(q) && NoClosedBlocks(q, tags) && !Contains(q, CloseTag(queryTag))
  }

  /** Wrapping and reading back is the identity on exactly those texts. */
  lemma {:induction false} TaggedRoundTripIff(q: string, tags: seq<string>, queryTag: string)
    requires TagsKeptApart(tags, queryTag)
    ensures ExtractTagged(WrapTagged(q, queryTag), tags, queryTag) == q <==> SurvivesTagged(q, tags, queryTag)
  {
    var core, close := StripTags(q, tags), CloseTag(queryTag);
    ExtractOfWrapped(q, tags, queryTag);
    StripTagsIdentity(q, tags);
    hide At, StripTags, WrapTagged, ExtractTagged;
    if Contains(core, close) {
      TrimDropsLeadingSpace('\n', core[..Find(core, close).value]);
    }
  }

  /** The queries that `WrapUserQuery` carries faithfully. */
  ghost predicate SurvivesWrapping(q: string) {
    SurvivesTagged(q, SYSTEM_TAGS, QUERY_TAG)
  }

  /**
   Reading back a wrapped query yields that query for exactly the trimmed texts that
   hold neither a closed metadata block nor the closing query tag. An opening
   metadata tag that is never closed does no harm.
   */
  lemma {:induction false} RoundTripIff(q: string)
    ensures ExtractUserQuery(WrapUserQuery(q)) == q <==> SurvivesWrapping(q)
  {
    SystemTagsArePlain();
    hide ExtractTagged, WrapTagged, SurvivesTagged, IsPlainTag;
    TaggedRoundTripIff(q, SYSTEM_TAGS, QUERY_TAG);
  }
}
