/**
 Cleaning the compaction model's output (`format_compact_summary` with
 `strip_leading_scratchpad` and `neutralize_compaction_control_tokens`).
 */
module SummaryFormat {
  import opened Common
  import opened Text

  const ANALYSIS_OPEN := "<analysis>"
  const ANALYSIS_CLOSE := "</analysis>"
  const SUMMARY_OPEN := "<summary>"
  const SUMMARY_CLOSE := "</summary>"
  const HEADING := "Summary:\n"
  const ZWSP: char := '\U{200B}'

  /** The control tokens, in the order they are neutralized. */
  const TOKENS: seq<string> := [
    SUMMARY_CLOSE, SUMMARY_OPEN, ANALYSIS_CLOSE, ANALYSIS_OPEN, "</summary_request>", "<summary_request>"]

  // ---------------------------------------------------------------- the steps

  /** Whether the first `<analysis>`, at `start`, opens the output or the summary block. */
  function IsLeading(s: string, start: nat): bool
    requires At(s, ANALYSIS_OPEN, start)
  {
    match Find(s, SUMMARY_OPEN)
    case Some(sp) =>
      start < sp || (TokensApart(s, SUMMARY_OPEN, sp, ANALYSIS_OPEN, start); Trim(s[sp + |SUMMARY_OPEN|..start]) == "")
    case None => Trim(s[..start]) == ""
  }

  function WithoutLeadingAnalysis(s: string): (r: string)
    ensures |r| <= |s|
    decreases |s|
  {
    match Find(s, ANALYSIS_OPEN)
    case None => s
    case Some(start) =>
      if !IsLeading(s, start) then s
      else
        match FindFrom(s, ANALYSIS_CLOSE, start)
        case Some(end) => WithoutLeadingAnalysis(s[..start] + s[end + |ANALYSIS_CLOSE|..])
        case None =>
          match FindFrom(s, SUMMARY_OPEN, start)
          case Some(dropTo) => s[..start] + s[dropTo..]
          case None => s[..start]
  }

  predicate IsDecoration(c: char) {
    c == '#' || c == '*' || c == '-' || c == '>' || c == ' ' || c == '\t'
  }

  function Undecorated(s: string): string {
    if s != "" && IsDecoration(s[0]) then Undecorated(s[1..]) else s
  }

  /** Starts, after markdown decoration, with a digit. */
  predicate DigitLed(s: string) {
    var lead := Undecorated(s);
    lead != "" && '0' <= lead[0] <= '9'
  }

  function WithoutScratchpad(inner: string): string {
    var s := Trim(inner);
    var peeled :=
      if DigitLed(s) then s
      else match RFind(s, ANALYSIS_CLOSE)
        case Some(pos) => TrimStart(s[pos + |ANALYSIS_CLOSE|..])
        case None => s;
    if SUMMARY_OPEN <= peeled then TrimStart(peeled[|SUMMARY_OPEN|..]) else peeled
  }

  function Unwrapped(s: string): string {
    match (Find(s, SUMMARY_OPEN), RFind(s, SUMMARY_CLOSE))
    case (Some(start), Some(end)) =>
      if end > start then
        TokensApart(s, SUMMARY_OPEN, start, SUMMARY_CLOSE, end);
        s[..start] + HEADING + WithoutScratchpad(Trim(s[start + |SUMMARY_OPEN|..end])) + s[end + |SUMMARY_CLOSE|..]
      else s
    case _ => s
  }

  function Defused(t: string): string
    requires t != ""
  {
    [t[0], ZWSP] + t[1..]
  }

  /** Each token in turn, with a zero-width space put after its `<`. */
  function Neutralized(s: string, tokens: seq<string>): string
    requires AllTokens(tokens)
    decreases |tokens|
  {
    if tokens == [] then s else Neutralized(Replace(s, tokens[0], Defused(tokens[0])), tokens[1..])
  }

  /** Every run of three or more newlines made a run of two. */
  function Collapsed(s: string): (r: string)
    ensures |r| <= |s|
  {
    if s == "" then ""
    else if TripleNewline(s) then Collapsed(s[1..])
    else [s[0]] + Collapsed(s[1..])
  }

  predicate TripleNewline(s: string) {
    |s| >= 3 && s[0] == '\n' && s[1] == '\n' && s[2] == '\n'
  }

  function FormattedSummary(summary: string): string {
    TokensAreTokens();
    Trim(Collapsed(Neutralized(Unwrapped(WithoutLeadingAnalysis(summary)), TOKENS)))
  }

  const SUMMARY_PREAMBLE :=
    "This session is being continued from a previous conversation that ran out of context. "
    + "The summary below covers the earlier portion of the conversation.\n\n"

  function SummaryContent(summary: string): string {
    SUMMARY_PREAMBLE + FormattedSummary(summary)
  }

  // ------------------------------------------------------------------- tokens

  /** A `<` followed by text on one line with no other `<` and no zero-width space. */
  predicate IsToken(t: string) {
    |t| >= 2 && t[0] == '<' && t[|t| - 1] == '>' && Lacks(t[1..], '<') && Lacks(t, ZWSP) && Lacks(t, '\n')
  }

  predicate AllTokens(tokens: seq<string>) {
    forall k :: 0 <= k < |tokens| ==> IsToken(tokens[k])
  }

  lemma {:induction false} TokensAreTokens()
    ensures AllTokens(TOKENS)
    ensures IsToken(ANALYSIS_OPEN) && IsToken(ANALYSIS_CLOSE) && IsToken(SUMMARY_OPEN) && IsToken(SUMMARY_CLOSE)
  {
    TagTokens();
    RequestTokens();
    hide IsToken;
  }

  lemma {:induction false} TagTokens()
    ensures IsToken(ANALYSIS_OPEN) && IsToken(ANALYSIS_CLOSE) && IsToken(SUMMARY_OPEN) && IsToken(SUMMARY_CLOSE)
  {}

  lemma {:induction false} RequestTokens()
    ensures IsToken("</summary_request>") && IsToken("<summary_request>")
  {}

  /** Occurrences of two of the block tags do not overlap. */
  lemma {:induction false} TokensApart(s: string, a: string, i: nat, b: string, j: nat)
    requires At(s, a, i) && At(s, b, j) && i <= j
    requires a == SUMMARY_OPEN && (b == ANALYSIS_OPEN || b == SUMMARY_CLOSE)
    ensures i + |a| <= j
  {
    assert s[j + 0] == b[0] && s[j + 1] == b[1] && s[i + 1] == a[1];
    forall p | i < p < i + |a| ensures s[p] != '<' {
      assert s[i + (p - i)] == a[p - i];
    }
  }

  // ------------------------------------------------------------------ methods

  method FormatCompactSummary(summary: string) returns (result: string)
    ensures result == FormattedSummary(summary)
  {
    hide Collapsed, Neutralized, Unwrapped, WithoutLeadingAnalysis, Trim, At, IsToken, AllTokens;
    TokensAreTokens();
    result := DropLeadingAnalysis(summary);
    result := Unwrapped(result);
    result := NeutralizeCompactionControlTokens(result);
    result := CollapseNewlines(result);
    result := Trim(result);
  }

  method DropLeadingAnalysis(summary: string) returns (result: string)
    ensures result == WithoutLeadingAnalysis(summary)
  {
    hide At, IsLeading;
    result := summary;
    while true
      invariant WithoutLeadingAnalysis(result) == WithoutLeadingAnalysis(summary)
      decreases |result|
    {
      var start := Find(result, ANALYSIS_OPEN);
      if start.None? || !IsLeading(result, start.value) {
        return;
      }
      var end := FindFrom(result, ANALYSIS_CLOSE, start.value);
      if end.None? {
        var dropTo := FindFrom(result, SUMMARY_OPEN, start.value);
        return result[..start.value] + (if dropTo.Some? then result[dropTo.value..] else "");
      }
      result := result[..start.value] + result[end.value + |ANALYSIS_CLOSE|..];
    }
  }

  method NeutralizeCompactionControlTokens(text: string) returns (result: string)
    requires AllTokens(TOKENS)
    ensures result == Neutralized(text, TOKENS)
  {
    result := NeutralizeEach(text, TOKENS);
  }

  method NeutralizeEach(text: string, tokens: seq<string>) returns (result: string)
    requires AllTokens(tokens)
    ensures result == Neutralized(text, tokens)
  {
    result := text;
    for n := 0 to |tokens|
      invariant Neutralized(result, tokens[n..]) == Neutralized(text, tokens)
    {
      assert tokens[n..][1..] == tokens[n + 1..];
      result := Replace(result, tokens[n], Defused(tokens[n]));
    }
  }

  const THREE_NEWLINES := "\n\n\n"
  const TWO_NEWLINES := "\n\n"

  method CollapseNewlines(text: string) returns (result: string)
    ensures result == Collapsed(text)
  {
    result := text;
    while Find(result, THREE_NEWLINES).Some?
      invariant Collapsed(result) == Collapsed(text)
      decreases |result|
    {
      ReplaceShrinks(result, THREE_NEWLINES, TWO_NEWLINES);
      ReplaceKeepsCollapsed(result);
      result := Replace(result, THREE_NEWLINES, TWO_NEWLINES);
    }
    CollapsedIdentity(result);
  }

  // --------------------------------------------------------- collapsing newlines

  /** A string that already starts with two newlines absorbs a third. */
  function Absorb(s: string): string {
    if |s| >= 2 && s[0] == '\n' && s[1] == '\n' then s else ['\n'] + s
  }

  lemma {:induction false} CollapsedHead(s: string)
    ensures var r := Collapsed(s); (|r| >= 1 && r[0] == '\n' <==> |s| >= 1 && s[0] == '\n')
    ensures var r := Collapsed(s);
            (|r| >= 2 && r[0] == '\n' && r[1] == '\n' <==> |s| >= 2 && s[0] == '\n' && s[1] == '\n')
  {
    if s != "" {
      CollapsedHead(s[1..]);
    }
  }

  lemma {:induction false} CollapsedCons(s: string)
    ensures Collapsed(['\n'] + s) == Absorb(Collapsed(s))
  {
    CollapsedHead(s);
    assert (['\n'] + s)[1..] == s;
  }

  lemma {:induction false} ReplaceKeepsCollapsed(s: string)
    ensures Collapsed(Replace(s, THREE_NEWLINES, TWO_NEWLINES)) == Collapsed(s)
  {
    if s == "" {
    } else if THREE_NEWLINES <= s {
      var t := s[3..];
      var r := Replace(t, THREE_NEWLINES, TWO_NEWLINES);
      ReplaceKeepsCollapsed(t);
      ThreeNewlines(t, s);
      TwoNewlines(r);
    } else {
      var t := s[1..];
      var r := Replace(t, THREE_NEWLINES, TWO_NEWLINES);
      ReplaceKeepsCollapsed(t);
      assert s == [s[0]] + t;
      assert ([s[0]] + r)[1..] == r;
      if s[0] == '\n' {
        CollapsedCons(t);
        CollapsedCons(r);
      }
    }
  }

  lemma {:induction false} TwoNewlines(t: string)
    ensures Collapsed(TWO_NEWLINES + t) == Absorb(Absorb(Collapsed(t)))
  {
    CollapsedCons(t);
    CollapsedCons(['\n'] + t);
    assert TWO_NEWLINES + t == ['\n'] + (['\n'] + t);
  }

  lemma {:induction false} ThreeNewlines(t: string, s: string)
    requires s == THREE_NEWLINES + t
    ensures Collapsed(s) == Absorb(Absorb(Collapsed(t)))
  {
    hide Collapsed, Absorb;
    TwoNewlines(t);
    CollapsedCons(TWO_NEWLINES + t);
    assert s == ['\n'] + (TWO_NEWLINES + t);
    AbsorbsThird(Collapsed(t));
  }

  lemma {:induction false} AbsorbsThird(s: string)
    ensures Absorb(Absorb(Absorb(s))) == Absorb(Absorb(s))
  {}

  lemma {:induction false} CollapsedIdentity(s: string)
    requires !Contains(s, THREE_NEWLINES)
    ensures Collapsed(s) == s
  {
    if s != "" {
      AtThree(s);
      SliceLacks(s, THREE_NEWLINES, 1, |s|);
      assert s[1..|s|] == s[1..];
      CollapsedIdentity(s[1..]);
    }
  }

  lemma {:induction false} AtThree(s: string)
    ensures At(s, THREE_NEWLINES, 0) <==> TripleNewline(s)
  {
    var n := THREE_NEWLINES;
    assert n[0] == n[1] == n[2] == '\n';
  }

  lemma {:induction false} CollapsedHasNoTriple(s: string, i: int)
    ensures !At(Collapsed(s), THREE_NEWLINES, i)
  {
    if s != "" {
      var t := s[1..];
      var r := Collapsed(t);
      CollapsedHasNoTriple(t, i);
      CollapsedHasNoTriple(t, i - 1);
      CollapsedHead(t);
      if !TripleNewline(s) {
        var c := [s[0]] + r;
        assert c[1..] == r;
        AtInDrop(c, THREE_NEWLINES, 1, i - 1);
        AtThree(c);
        assert |r| >= 2 ==> c[1] == r[0] && c[2] == r[1];
      }
    }
  }

  /** Text without newlines found in the collapsed string was there before. */
  lemma {:induction false} PrefixThroughCollapse(w: string, s: string)
    requires Lacks(w, '\n') && w <= Collapsed(s)
    ensures w <= s
  {
    if w != "" {
      assert Collapsed(s)[0] == w[0];
      CollapsedHead(s);
      assert !TripleNewline(s);
      assert w[1..] <= Collapsed(s[1..]);
      PrefixThroughCollapse(w[1..], s[1..]);
      assert w == [w[0]] + w[1..] && s == [s[0]] + s[1..];
    }
  }

  lemma {:induction false} CollapsedLacks(s: string, t: string)
    requires t != "" && Lacks(t, '\n') && !Contains(s, t)
    ensures !Contains(Collapsed(s), t)
  {
    if s != "" {
      SliceLacks(s, t, 1, |s|);
      assert s[1..|s|] == s[1..];
      CollapsedLacks(s[1..], t);
      if !TripleNewline(s) {
        ConsLacks(s[0], Collapsed(s[1..]), t, s);
      }
    }
  }

  /** One more character in front makes no occurrence unless one starts there. */
  lemma {:induction false} ConsLacks(c: char, r: string, t: string, s: string)
    requires !Contains(r, t) && t != "" && Lacks(t, '\n') && !Contains(s, t)
    requires s != "" && s[0] == c && r == Collapsed(s[1..])
    ensures !Contains([c] + r, t)
  {
    var x := [c] + r;
    forall i ensures !At(x, t, i) {
      assert x[1..] == r;
      AtInDrop(x, t, 1, i - 1);
      if i == 0 && At(x, t, 0) {
        PrefixIsAtZero(x, t);
        assert t[1..] <= r;
        PrefixThroughCollapse(t[1..], s[1..]);
        assert t == [c] + t[1..] && s == [c] + s[1..];
        PrefixIsAtZero(s, t);
      }
    }
  }

  // -------------------------------------------------------- neutralizing tokens

  /** A `<`-free text found after a replacement was there before. */
  lemma {:induction false} PrefixThroughDefuse(w: string, s: string, t: string)
    requires IsToken(t) && Lacks(w, '<') && w <= Replace(s, t, Defused(t))
    ensures w <= s
  {
    if w != "" {
      assert Replace(s, t, Defused(t))[0] == w[0];
      assert !(t <= s);
      assert w[1..] <= Replace(s[1..], t, Defused(t));
      PrefixThroughDefuse(w[1..], s[1..], t);
      assert w == [w[0]] + w[1..] && s == [s[0]] + s[1..];
    }
  }

  /** Defusing one token leaves none of it, and makes none of another. */
  lemma {:induction false} DefusedLacks(s: string, t: string, other: string)
    requires IsToken(t) && IsToken(other)
    requires other == t || !Contains(s, other)
    ensures !Contains(Replace(s, t, Defused(t)), other)
  {
    if s == "" {
    } else if t <= s {
      var rest, r := s[|t|..], Replace(s[|t|..], t, Defused(t));
      if other != t {
        SliceLacks(s, other, |t|, |s|);
        assert s[|t|..|s|] == rest;
      }
      DefusedLacks(rest, t, other);
      AfterDefused(t, r, other);
    } else {
      var rest, r := s[1..], Replace(s[1..], t, Defused(t));
      if other != t {
        SliceLacks(s, other, 1, |s|);
        assert s[1..|s|] == rest;
      }
      DefusedLacks(rest, t, other);
      AfterPlain(s, t, r, other);
    }
  }

  lemma {:induction false} AfterDefused(t: string, r: string, other: string)
    requires IsToken(t) && IsToken(other) && !Contains(r, other)
    ensures !Contains(Defused(t) + r, other)
  {
    var u := Defused(t);
    var x := u + r;
    assert x[|u|..] == r && x[0] == '<' && x[1] == ZWSP;
    assert forall k :: 2 <= k < |u| ==> x[k] == t[1..][k - 2];
    forall i ensures !At(x, other, i) {
      AtInDrop(x, other, |u|, i - |u|);
      AtStart(x, other, i);
    }
  }

  /** An occurrence of a token shows its first two characters. */
  lemma {:induction false} AtStart(s: string, t: string, i: int)
    requires IsToken(t)
    ensures At(s, t, i) ==> s[i] == '<' && s[i + 1] != ZWSP
  {
    assert t[0] == '<' && t[1] != ZWSP;
    assert At(s, t, i) ==> s[i + 0] == t[0] && s[i + 1] == t[1];
  }

  lemma {:induction false} AfterPlain(s: string, t: string, r: string, other: string)
    requires IsToken(t) && IsToken(other) && !Contains(r, other)
    requires s != "" && !(t <= s) && r == Replace(s[1..], t, Defused(t))
    requires other == t || !Contains(s, other)
    ensures !Contains([s[0]] + r, other)
  {
    var x := [s[0]] + r;
    assert x[1..] == r;
    forall i ensures !At(x, other, i) {
      AtInDrop(x, other, 1, i - 1);
      if i == 0 && At(x, other, 0) {
        PrefixIsAtZero(x, other);
        assert other[1..] <= r;
        PrefixThroughDefuse(other[1..], s[1..], t);
        assert other == [s[0]] + other[1..] && s == [s[0]] + s[1..];
        PrefixIsAtZero(s, other);
      }
    }
  }

  ghost predicate LacksAll(s: string, tokens: seq<string>) {
    forall k :: 0 <= k < |tokens| ==> !Contains(s, tokens[k])
  }

  lemma {:induction false} NeutralizedLacks(s: string, tokens: seq<string>, done: string)
    requires AllTokens(tokens) && IsToken(done) && !Contains(s, done)
    ensures !Contains(Neutralized(s, tokens), done)
    decreases |tokens|
  {
    if tokens != [] {
      DefusedLacks(s, tokens[0], done);
      NeutralizedLacks(Replace(s, tokens[0], Defused(tokens[0])), tokens[1..], done);
    }
  }

  /** No token survives, and in particular none is created by defusing another. */
  lemma {:induction false} NeutralizedLacksAll(s: string, tokens: seq<string>)
    requires AllTokens(tokens)
    ensures LacksAll(Neutralized(s, tokens), tokens)
    decreases |tokens|
  {
    if tokens != [] {
      var next := Replace(s, tokens[0], Defused(tokens[0]));
      DefusedLacks(s, tokens[0], tokens[0]);
      NeutralizedLacks(next, tokens[1..], tokens[0]);
      NeutralizedLacksAll(next, tokens[1..]);
      var r := Neutralized(s, tokens);
      hide Contains, Neutralized;
      forall k | 0 <= k < |tokens| ensures !Contains(r, tokens[k]) {
        assert k > 0 ==> tokens[k] == tokens[1..][k - 1];
      }
    }
  }

  lemma {:induction false} NeutralizedIdentity(s: string, tokens: seq<string>)
    requires AllTokens(tokens) && LacksAll(s, tokens)
    ensures Neutralized(s, tokens) == s
    decreases |tokens|
  {
    if tokens != [] {
      ReplaceAbsent(s, tokens[0], Defused(tokens[0]));
      NeutralizedIdentity(s, tokens[1..]);
    }
  }

  // ---------------------------------------------------- clean output, idempotence

  ghost predicate Clean(s: string, tokens: seq<string>) {
    Trimmed(s) && LacksAll(s, tokens) && !Contains(s, THREE_NEWLINES)
  }

  lemma {:induction false} TidyIsClean(s: string, tokens: seq<string>)
    requires AllTokens(tokens)
    ensures Clean(Trim(Collapsed(Neutralized(s, tokens))), tokens)
  {
    var n := Neutralized(s, tokens);
    var c := Collapsed(n);
    NeutralizedLacksAll(s, tokens);
    hide Collapsed, Neutralized, Trim, Contains, At;
    forall k | 0 <= k < |tokens| ensures !Contains(Trim(c), tokens[k]) {
      assert IsToken(tokens[k]);
      CollapsedLacks(n, tokens[k]);
      TrimLacks(c, tokens[k]);
    }
    NoTriple(n);
    TrimLacks(c, THREE_NEWLINES);
  }

  lemma {:induction false} NoTriple(s: string)
    ensures !Contains(Collapsed(s), THREE_NEWLINES)
  {
    forall i { CollapsedHasNoTriple(s, i); }
  }

  lemma {:induction false} TidyIdentity(s: string, tokens: seq<string>)
    requires AllTokens(tokens) && Clean(s, tokens)
    ensures Trim(Collapsed(Neutralized(s, tokens))) == s
  {
    NeutralizedIdentity(s, tokens);
    CollapsedIdentity(s);
  }

  /**
   Whatever the model wrote, the cleaned summary is trimmed, holds none of the six
   control tokens and no three newlines in a row.
   */
  lemma {:induction false} FormattedIsClean(summary: string)
    ensures Clean(FormattedSummary(summary), TOKENS)
  {
    TokensAreTokens();
    hide AllTokens, Clean, Collapsed, Neutralized, Trim, Unwrapped, WithoutLeadingAnalysis;
    TidyIsClean(Unwrapped(WithoutLeadingAnalysis(summary)), TOKENS);
  }

  /** Cleaning an already cleaned summary changes nothing. */
  lemma {:induction false} FormattingIsIdempotent(summary: string)
    ensures FormattedSummary(FormattedSummary(summary)) == FormattedSummary(summary)
  {
    var s := FormattedSummary(summary);
    FormattedIsClean(summary);
    TokensAreTokens();
    assert TOKENS[3] == ANALYSIS_OPEN && TOKENS[1] == SUMMARY_OPEN;
    assert !Contains(s, ANALYSIS_OPEN) && !Contains(s, SUMMARY_OPEN);
    NothingToUnwrap(s);
    hide AllTokens, Clean, Collapsed, Neutralized, Trim, Unwrapped, WithoutLeadingAnalysis;
    TidyIdentity(s, TOKENS);
  }

  lemma {:induction false} NothingToUnwrap(s: string)
    requires !Contains(s, ANALYSIS_OPEN) && !Contains(s, SUMMARY_OPEN)
    ensures Unwrapped(WithoutLeadingAnalysis(s)) == s
  {
    hide Contains;
    assert WithoutLeadingAnalysis(s) == s;
  }

  // ------------------------------------------------- a numbered summary survives

  /** The text with every zero-width space taken out. */
  function Deleted(s: string): string {
    if s == "" then ""
    else if s[0] == ZWSP then Deleted(s[1..])
    else [s[0]] + Deleted(s[1..])
  }

  lemma {:induction false} DeletedConcat(a: string, b: string)
    ensures Deleted(a + b) == Deleted(a) + Deleted(b)
  {
    if a == "" {
      assert a + b == b;
    } else {
      assert (a + b)[1..] == a[1..] + b;
      DeletedConcat(a[1..], b);
    }
  }

  lemma {:induction false} DeletedIdentity(s: string)
    requires Lacks(s, ZWSP)
    ensures Deleted(s) == s
  {
    if s != "" {
      DeletedIdentity(s[1..]);
    }
  }

  lemma {:induction false} DeletedDefused(t: string)
    requires IsToken(t)
    ensures Deleted(Defused(t)) == t
  {
    var head, tail := [t[0], ZWSP], t[1..];
    DeletedIdentity(tail);
    DeletedConcat(head, tail);
    assert head == [t[0]] + [ZWSP] && t == [t[0]] + tail;
    assert [ZWSP][1..] == "" && head[1..] == [ZWSP];
  }

  lemma {:induction false} DeletedReplace(s: string, t: string)
    requires IsToken(t)
    ensures Deleted(Replace(s, t, Defused(t))) == Deleted(s)
  {
    if s == "" {
    } else if t <= s {
      var rest := s[|t|..];
      DeletedReplace(rest, t);
      DeletedDefused(t);
      DeletedIdentity(t);
      assert s == t + rest;
      hide Replace, Defused, Deleted;
      DeletedConcat(t, rest);
      DeletedConcat(Defused(t), Replace(rest, t, Defused(t)));
      ReplaceAtToken(s, t);
    } else {
      DeletedReplace(s[1..], t);
    }
  }

  lemma {:induction false} ReplaceAtToken(s: string, t: string)
    requires t != "" && t <= s
    ensures Replace(s, t, Defused(t)) == Defused(t) + Replace(s[|t|..], t, Defused(t))
  {}

  lemma {:induction false} DeletedNeutralized(s: string, tokens: seq<string>)
    requires AllTokens(tokens)
    ensures Deleted(Neutralized(s, tokens)) == Deleted(s)
    decreases |tokens|
  {
    if tokens != [] {
      DeletedReplace(s, tokens[0]);
      DeletedNeutralized(Replace(s, tokens[0], Defused(tokens[0])), tokens[1..]);
    }
  }

  lemma {:induction false} CollapsedAfterInline(w: string, s: string)
    requires Lacks(w, '\n')
    ensures Collapsed(w + s) == w + Collapsed(s)
  {
    if w == "" {
      assert w + s == s;
    } else {
      assert (w + s)[1..] == w[1..] + s;
      CollapsedAfterInline(w[1..], s);
    }
  }

  /** Defusing a token neither hides nor shows a leading newline. */
  lemma {:induction false} DefuseKeepsNewlines(s: string, t: string)
    requires IsToken(t)
    ensures var r := Replace(s, t, Defused(t)); (|r| >= 1 && r[0] == '\n' <==> |s| >= 1 && s[0] == '\n')
    ensures var r := Replace(s, t, Defused(t));
            (|r| >= 2 && r[0] == '\n' && r[1] == '\n' <==> |s| >= 2 && s[0] == '\n' && s[1] == '\n')
  {
    if s != "" && !(t <= s) {
      DefuseKeepsNewlines(s[1..], t);
    }
  }

  /** Collapsing newlines and defusing a token can be done in either order. */
  lemma {:induction false} CollapseCommutes(s: string, t: string)
    requires IsToken(t)
    ensures Collapsed(Replace(s, t, Defused(t))) == Replace(Collapsed(s), t, Defused(t))
  {
    if s == "" {
    } else if t <= s {
      var rest, u := s[|t|..], Defused(t);
      CollapseCommutes(rest, t);
      ReplaceAtToken(s, t);
      assert s == t + rest;
      assert Lacks(u, '\n') by {
        assert forall k :: 2 <= k < |u| ==> u[k] == t[k - 1];
      }
      hide Replace, Collapsed, Defused;
      CollapsedAfterInline(t, rest);
      CollapsedAfterInline(u, Replace(rest, t, u));
      var c := Collapsed(s);
      assert c[|t|..] == Collapsed(rest);
      ReplaceAtToken(c, t);
    } else {
      CollapseCommutes(s[1..], t);
      DefuseKeepsNewlines(s[1..], t);
      var r, c := Replace(s[1..], t, Defused(t)), Collapsed(s[1..]);
      assert ([s[0]] + r)[1..] == r;
      assert TripleNewline([s[0]] + r) <==> TripleNewline(s);
      if !TripleNewline(s) {
        NoTokenAhead(s, c, t);
        assert ([s[0]] + c)[1..] == c;
      }
    }
  }

  lemma {:induction false} NoTokenAhead(s: string, c: string, t: string)
    requires IsToken(t) && s != "" && !(t <= s) && c == Collapsed(s[1..])
    ensures !(t <= [s[0]] + c)
  {
    if t[1..] <= c {
      PrefixThroughCollapse(t[1..], s[1..]);
    }
    assert s == [s[0]] + s[1..];
    PrefixCons(t, s[0], c);
    PrefixCons(t, s[0], s[1..]);
  }

  lemma {:induction false} PrefixCons(t: string, x: char, c: string)
    requires t != ""
    ensures t <= [x] + c <==> t[0] == x && t[1..] <= c
  {
    assert ([x] + c)[1..] == c;
    if t[0] == x && t[1..] <= c {
      assert t == [x] + t[1..];
    }
  }

  lemma {:induction false} CollapseCommutesAll(s: string, tokens: seq<string>)
    requires AllTokens(tokens)
    ensures Collapsed(Neutralized(s, tokens)) == Neutralized(Collapsed(s), tokens)
    decreases |tokens|
  {
    if tokens != [] {
      CollapseCommutes(s, tokens[0]);
      CollapseCommutesAll(Replace(s, tokens[0], Defused(tokens[0])), tokens[1..]);
    }
  }

  lemma {:induction false} CollapsedLacksChar(s: string, c: char)
    requires Lacks(s, c)
    ensures Lacks(Collapsed(s), c)
  {
    if s != "" {
      CollapsedLacksChar(s[1..], c);
    }
  }

  /** First and last characters outlive defusing. */
  lemma {:induction false} DefuseKeepsEnds(s: string, t: string)
    requires IsToken(t) && s != ""
    ensures var r := Replace(s, t, Defused(t)); r != "" && r[0] == s[0] && r[|r| - 1] == s[|s| - 1]
  {
    if t <= s {
      if s[|t|..] != "" {
        DefuseKeepsEnds(s[|t|..], t);
      }
    } else if s[1..] != "" {
      DefuseKeepsEnds(s[1..], t);
    }
  }

  lemma {:induction false} NeutralizeKeepsEnds(s: string, tokens: seq<string>)
    requires AllTokens(tokens) && s != ""
    ensures var r := Neutralized(s, tokens); r != "" && r[0] == s[0] && r[|r| - 1] == s[|s| - 1]
    decreases |tokens|
  {
    hide Replace, Defused;
    if tokens != [] {
      DefuseKeepsEnds(s, tokens[0]);
      NeutralizeKeepsEnds(Replace(s, tokens[0], Defused(tokens[0])), tokens[1..]);
    }
  }

  lemma {:induction false} CollapseKeepsEnds(s: string)
    requires s != ""
    ensures var r := Collapsed(s); r != "" && r[|r| - 1] == s[|s| - 1] && r[0] == s[0]
  {
    CollapsedHead(s);
    if s[1..] != "" {
      CollapseKeepsEnds(s[1..]);
    }
  }

  lemma {:induction false} SpaceBeforeReplace(w: string, s: string, t: string)
    requires AllSpace(w) && IsToken(t)
    ensures Replace(w + s, t, Defused(t)) == w + Replace(s, t, Defused(t))
  {
    if w == "" {
      assert w + s == s && w + Replace(s, t, Defused(t)) == Replace(s, t, Defused(t));
    } else {
      var x := w + s;
      assert x[0] == w[0] && IsSpace(w[0]) && x[1..] == w[1..] + s;
      SpaceBeforeReplace(w[1..], s, t);
      assert [w[0]] + (w[1..] + Replace(s, t, Defused(t))) == w + Replace(s, t, Defused(t));
    }
  }

  /** Leading space goes through defusing. */
  lemma {:induction false} SpaceBeforeNeutralized(w: string, s: string, tokens: seq<string>)
    requires AllSpace(w) && AllTokens(tokens)
    ensures Neutralized(w + s, tokens) == w + Neutralized(s, tokens)
    decreases |tokens|
  {
    hide AllSpace, Replace, Defused;
    if tokens != [] {
      SpaceBeforeReplace(w, s, tokens[0]);
      SpaceBeforeNeutralized(w, Replace(s, tokens[0], Defused(tokens[0])), tokens[1..]);
    }
  }

  /** Leading space stays leading space when newlines are collapsed. */
  lemma {:induction false} SpaceBeforeCollapsed(w: string, s: string)
    requires AllSpace(w) && s != "" && s[0] != '\n'
    ensures Collapsed(w + s) == Collapsed(w) + Collapsed(s) && AllSpace(Collapsed(w))
  {
    if w == "" {
      assert w + s == s;
    } else {
      var x := w + s;
      assert x[1..] == w[1..] + s;
      SpaceBeforeCollapsed(w[1..], s);
      assert TripleNewline(x) <==> TripleNewline(w) by {
        assert forall k :: 0 <= k < |w| ==> x[k] == w[k];
        assert x[|w|] == s[0];
      }
      assert [w[0]] + (Collapsed(w[1..]) + Collapsed(s)) == [w[0]] + Collapsed(w[1..]) + Collapsed(s);
    }
  }

  /** Tidying trimmed text that holds no zero-width space, with any space in front. */
  lemma {:induction false} TidyLosesNothing(w: string, x: string, tokens: seq<string>)
    requires AllSpace(w) && AllTokens(tokens) && x != "" && Trimmed(x) && Lacks(x, ZWSP)
    ensures Deleted(Trim(Collapsed(Neutralized(w + x, tokens)))) == Collapsed(x)
  {
    hide Collapsed, Neutralized, Trim, Deleted, AllTokens;
    var n := Neutralized(x, tokens);
    NeutralizeKeepsEnds(x, tokens);
    CollapseKeepsEnds(n);
    SpaceBeforeNeutralized(w, x, tokens);
    SpaceBeforeCollapsed(w, n);
    var c := Collapsed(n);
    assert Trimmed(c) && Collapsed(w) + c == Collapsed(w) + c + "";
    TrimOfPadded(Collapsed(w), c, "");
    CollapseCommutesAll(x, tokens);
    DeletedNeutralized(Collapsed(x), tokens);
    CollapsedLacksChar(x, ZWSP);
    DeletedIdentity(Collapsed(x));
  }

  /** The first visible character of a digit-led text is not a `<`. */
  lemma {:induction false} DigitLedStart(s: string)
    requires Trimmed(s) && DigitLed(s)
    ensures s != "" && s[0] != '<' && !IsSpace(s[0])
  {}

  /** A summary block with space before and after it. */
  function Block(w: string, body: string): string {
    w + (SUMMARY_OPEN + (body + SUMMARY_CLOSE))
  }

  lemma {:induction false} BlockOpens(w: string, body: string)
    requires AllSpace(w)
    ensures Find(Block(w, body), SUMMARY_OPEN) == Some(|w|)
  {
    hide Find, AllSpace;
    FoundAfterSpace(w, SUMMARY_OPEN, body + SUMMARY_CLOSE, Block(w, body));
  }

  lemma {:induction false} FoundAfterSpace(w: string, open: string, rest: string, input: string)
    requires AllSpace(w) && open != "" && open[0] == '<' && input == w + (open + rest)
    ensures Find(input, open) == Some(|w|)
  {
    hide Find, IsSpace;
    BracketIsNoSpace();
    assert forall k :: 0 <= k < |open| ==> open[k] == input[|w| + k];
    assert At(input, open, |w|);
    forall i | i < |w| ensures !At(input, open, i) {
      assert 0 <= i ==> input[i] == w[i] && IsSpace(w[i]);
      AtShows(input, open, i, 0);
    }
  }

  lemma {:induction false} BracketIsNoSpace()
    ensures !IsSpace('<')
  {}

  /** Text whose first visible character is not a `<`. */
  predicate StartsPlain(s: string) {
    Trim(s) != "" && Trim(s)[0] != '<'
  }

  lemma {:induction false} BlockIsNotLeadingAnalysis(w: string, body: string)
    requires AllSpace(w) && StartsPlain(body)
    ensures WithoutLeadingAnalysis(Block(w, body)) == Block(w, body)
  {
    var input, open, analysis := Block(w, body), SUMMARY_OPEN, ANALYSIS_OPEN;
    var lo, hi := TrimSlice(body);
    var from := |w| + |open|;
    assert !IsSpace(Trim(body)[0]);
    assert input[from + lo] == body[lo] == Trim(body)[0];
    assert At(input, open, |w|);
    BlockOpens(w, body);
    forall start: nat | At(input, analysis, start) ensures from + lo < start && !IsLeading(input, start) {
      AtStartsWithBracket(input, start);
      OpenThenSpaces(w, body, lo, input, start);
      TokensApart(input, open, |w|, analysis, start);
      var between := input[from..start];
      assert between[lo] == input[from + lo];
      TrimNonEmpty(between, lo);
    }
  }

  lemma {:induction false} AtStartsWithBracket(s: string, i: int)
    requires At(s, ANALYSIS_OPEN, i)
    ensures s[i] == '<' && s[i + 1] == 'a'
  {
    var t := ANALYSIS_OPEN;
    assert s[i + 0] == t[0] && s[i + 1] == t[1];
  }

  /** No `<a` before the first visible character of the body. */
  lemma {:induction false} OpenThenSpaces(w: string, body: string, lo: nat, input: string, start: nat)
    requires input == Block(w, body) && lo < |body| && AllSpace(w)
    requires AllSpace(body[..lo]) && body[lo] != '<'
    requires start + 1 < |input| && input[start] == '<' && input[start + 1] == 'a'
    ensures |w| + |SUMMARY_OPEN| + lo < start
  {
    var open, from := SUMMARY_OPEN, |w| + |SUMMARY_OPEN|;
    assert forall k :: 0 <= k < |w| ==> input[k] == w[k] && IsSpace(w[k]);
    assert forall k :: 0 <= k < |open| ==> open[k] == input[|w| + k];
    assert forall k :: 0 < k < |open| ==> open[k] != '<';
    assert open[1] == 's';
    assert input[from + lo] == body[lo];
    forall k | |w| < k < from ensures input[k] != '<' {
      assert input[k] == open[k - |w|];
    }
    forall k | from <= k < from + lo ensures input[k] != '<' {
      assert input[k] == body[..lo][k - from] && IsSpace(body[..lo][k - from]);
    }
  }

  lemma {:induction false} TrimNonEmpty(s: string, k: nat)
    requires k < |s| && !IsSpace(s[k])
    ensures Trim(s) != ""
  {
    var lo, hi := TrimSlice(s);
    forall j | 0 <= j < lo ensures IsSpace(s[j]) {
      assert s[..lo][j] == s[j];
    }
    forall j | hi <= j < |s| ensures IsSpace(s[j]) {
      assert s[hi..][j - hi] == s[j];
    }
  }

  lemma {:induction false} BlockUnwraps(w: string, body: string)
    requires AllSpace(w)
    ensures Unwrapped(Block(w, body)) == w + (HEADING + WithoutScratchpad(Trim(body)))
  {
    hide IsSpace, AllSpace, Trim, Find, RFind, Unwrapped, WithoutScratchpad;
    BlockOpens(w, body);
    BlockCloses(w, body);
    UnwrapsParts(w, SUMMARY_OPEN, body, SUMMARY_CLOSE, Block(w, body));
  }

  lemma {:induction false} UnwrapsParts(w: string, open: string, body: string, close: string, input: string)
    requires open == SUMMARY_OPEN && close == SUMMARY_CLOSE && input == w + (open + (body + close))
    requires Find(input, open) == Some(|w|) && RFind(input, close) == Some(|w| + |open| + |body|)
    ensures Unwrapped(input) == w + (HEADING + WithoutScratchpad(Trim(body)))
  {
    hide Trim, Find, RFind, WithoutScratchpad, At;
    Sliced(w, open, body, close, input);
    Regrouped3(w, HEADING, WithoutScratchpad(Trim(body)));
  }

  lemma {:induction false} Sliced(w: string, open: string, body: string, close: string, input: string)
    requires input == w + (open + (body + close))
    ensures var from, end := |w| + |open|, |w| + |open| + |body|;
            input[..|w|] == w && input[from..end] == body && input[end + |close|..] == ""
  {}

  lemma {:induction false} Regrouped3(a: string, b: string, c: string)
    ensures a + b + c + "" == a + (b + c)
  {}

  lemma {:induction false} BlockCloses(w: string, body: string)
    ensures RFind(Block(w, body), SUMMARY_CLOSE) == Some(|w| + |SUMMARY_OPEN| + |body|)
  {
    hide RFind;
    var before := w + (SUMMARY_OPEN + body);
    assert Block(w, body) == before + SUMMARY_CLOSE;
    FoundAtEnd(before, SUMMARY_CLOSE, Block(w, body));
  }

  lemma {:induction false} FoundAtEnd(before: string, close: string, input: string)
    requires input == before + close && close != ""
    ensures RFind(input, close) == Some(|before|)
  {
    hide RFind;
    assert forall k :: 0 <= k < |close| ==> close[k] == input[|before| + k];
    assert At(input, close, |before|);
  }

  lemma {:induction false} NumberedBodyKept(t: string)
    requires Trimmed(t) && DigitLed(t)
    ensures WithoutScratchpad(Trim(t)) == t
  {
    DigitLedStart(t);
    assert SUMMARY_OPEN[0] == '<';
  }

  /**
   A summary block whose body starts, after decoration, with a digit loses nothing but
   blank lines: taking the zero-width spaces out of the result gives back the heading
   and the trimmed body, whatever control tokens the body quotes.
   */
  lemma {:induction false} NumberedSummarySurvives(w: string, body: string)
    requires AllSpace(w) && DigitLed(Trim(body)) && Lacks(body, ZWSP)
    ensures Deleted(FormattedSummary(Block(w, body))) == HEADING + Collapsed(Trim(body))
  {
    hide Trim, WithoutLeadingAnalysis, FormattedSummary, Block, Deleted, Collapsed, WithoutScratchpad, DigitLed;
    NumberedBody(body);
    BlockIsNotLeadingAnalysis(w, body);
    NumberedBodyKept(Trim(body));
    BlockFormats(Block(w, body), w, body, Trim(body));
  }

  lemma {:induction false} NumberedBody(body: string)
    requires DigitLed(Trim(body)) && Lacks(body, ZWSP)
    ensures StartsPlain(body) && Lacks(Trim(body), ZWSP)
  {
    var lo, hi := TrimSlice(body);
    DigitLedStart(Trim(body));
    hide Trim, DigitLed;
  }

  /** What a summary block comes to, once no scratchpad is in front of it or inside it. */
  lemma {:induction false} BlockFormats(s: string, w: string, body: string, kept: string)
    requires WithoutLeadingAnalysis(s) == Block(w, body) && WithoutScratchpad(Trim(body)) == kept
    requires AllSpace(w) && Trimmed(kept) && kept != "" && Lacks(kept, ZWSP)
    ensures Deleted(FormattedSummary(s)) == HEADING + Collapsed(kept)
  {
    TokensAreTokens();
    Headed(kept);
    hide AllTokens, IsToken, Collapsed, Neutralized, Trim, Unwrapped, WithoutLeadingAnalysis, Trimmed, Deleted,
         Block, AllSpace;
    BlockUnwraps(w, body);
    TidyLosesNothing(w, HEADING + kept, TOKENS);
  }

  lemma {:induction false} Headed(t: string)
    requires Trimmed(t) && t != "" && Lacks(t, ZWSP)
    ensures var x := HEADING + t;
            Trimmed(x) && Lacks(x, ZWSP) && Collapsed(x) == HEADING + Collapsed(t)
  {
    var word, tail := "Summary:", ['\n'] + t;
    assert Trimmed(HEADING + t) && Lacks(HEADING + t, ZWSP);
    assert HEADING + t == word + tail;
    assert tail[1] == t[0] && tail[1..] == t && IsSpace('\n');
    assert Collapsed(tail) == ['\n'] + Collapsed(t);
    CollapsedAfterInline(word, tail);
    assert word + (['\n'] + Collapsed(t)) == HEADING + Collapsed(t);
  }
}
