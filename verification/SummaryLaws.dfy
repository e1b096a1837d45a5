/**
 What cleaning a summary keeps: all but the tags, the scratchpad and blank lines. Said
 of the text around and inside the summary block, and of text without one.
 */
module SummaryLaws {
  import opened Common
  import opened Text
  import opened SummaryFormat
  import opened Scratchpad

  // -------------------------------------------------------- tidying loses nothing

  lemma {:induction false} SpaceAfterReplace(s: string, w: string, t: string)
    requires AllSpace(w) && IsToken(t)
    ensures Replace(s + w, t, Defused(t)) == Replace(s, t, Defused(t)) + w
  {
    if s == "" {
      assert s + w == w && "" + w == w;
      forall i ensures !At(w, t, i) {
        AtShows(w, t, i, 0);
      }
      ReplaceAbsent(w, t, Defused(t));
    } else if t <= s {
      assert (s + w)[|t|..] == s[|t|..] + w;
      SpaceAfterReplace(s[|t|..], w, t);
    } else {
      TokenEndsInText(s, w, t);
      assert (s + w)[1..] == s[1..] + w;
      SpaceAfterReplace(s[1..], w, t);
    }
  }

  lemma {:induction false} TokenEndsInText(s: string, w: string, t: string)
    requires AllSpace(w) && IsToken(t) && !(t <= s)
    ensures !(t <= s + w)
  {
    if |s| < |t| <= |s| + |w| {
      assert (s + w)[|t| - 1] == w[|t| - 1 - |s|];
    }
  }

  lemma {:induction false} SpaceAfterNeutralized(s: string, w: string, tokens: seq<string>)
    requires AllSpace(w) && AllTokens(tokens)
    ensures Neutralized(s + w, tokens) == Neutralized(s, tokens) + w
    decreases |tokens|
  {
    hide AllSpace, Replace, Defused;
    if tokens != [] {
      SpaceAfterReplace(s, w, tokens[0]);
      SpaceAfterNeutralized(Replace(s, tokens[0], Defused(tokens[0])), w, tokens[1..]);
    }
  }

  /** Neutralizing puts nothing at either end, so it commutes with trimming. */
  lemma {:induction false} TrimNeutralized(c: string, tokens: seq<string>)
    requires AllTokens(tokens)
    ensures Trim(Neutralized(c, tokens)) == Neutralized(Trim(c), tokens)
  {
    var lo, hi := TrimSlice(c);
    var a, core, b := c[..lo], Trim(c), c[hi..];
    assert c == a + (core + b);
    if core == "" {
      NeutralizedNothing(tokens);
    } else {
      NeutralizeKeepsEnds(core, tokens);
    }
    var n := Neutralized(core, tokens);
    assert Trimmed(n);
    hide Neutralized, AllSpace, Trimmed, AllTokens, Trim, IsToken;
    SpaceAfterNeutralized(core, b, tokens);
    SpaceBeforeNeutralized(a, core + b, tokens);
    PaddedBy(a, n, b);
  }

  lemma {:induction false} PaddedBy(a: string, n: string, b: string)
    requires AllSpace(a) && AllSpace(b) && Trimmed(n)
    ensures Trim(a + (n + b)) == n
  {
    assert a + (n + b) == a + n + b;
    TrimOfPadded(a, n, b);
  }

  lemma {:induction false} NeutralizedNothing(tokens: seq<string>)
    requires AllTokens(tokens)
    ensures Neutralized("", tokens) == ""
    decreases |tokens|
  {
    if tokens != [] {
      NeutralizedNothing(tokens[1..]);
    }
  }

  /** But for zero-width spaces, tidying only collapses blank lines and trims. */
  lemma {:induction false} TidyKeepsText(s: string)
    ensures var u := Unwrapped(WithoutLeadingAnalysis(s));
            Deleted(FormattedSummary(s)) == Deleted(Trim(Collapsed(u)))
  {
    TokensAreTokens();
    hide Collapsed, Neutralized, Trim, Unwrapped, WithoutLeadingAnalysis, Deleted, AllTokens, IsToken;
    var u := Unwrapped(WithoutLeadingAnalysis(s));
    CollapseCommutesAll(u, TOKENS);
    TrimNeutralized(Collapsed(u), TOKENS);
    DeletedNeutralized(Trim(Collapsed(u)), TOKENS);
  }

  // ------------------------------------------------------------- text with a block

  /** Text without a scratchpad or a closed block is kept up to blank lines and the space around it. */
  lemma {:induction false} PlainTextIsKept(s: string)
    requires !Contains(s, "<analysis>")
    requires forall i, j :: At(s, "<summary>", i) && At(s, "</summary>", j) ==> j <= i
    ensures Deleted(FormattedSummary(s)) == Deleted(Trim(Collapsed(s)))
  {
    hide FormattedSummary, Deleted, Trim, Collapsed, Contains, At, WithoutScratchpad;
    TidyKeepsText(s);
  }

  /** The body is no draft: it leads with a number, or holds no draft's closing tag and starts no second block. */
  ghost predicate NoDraft(body: string) {
    DigitLed(Trim(body)) || (!Contains(body, "</analysis>") && !("<summary>" <= Trim(body)))
  }

  lemma {:induction false} NoDraftIsKept(body: string)
    requires NoDraft(body)
    ensures WithoutScratchpad(Trim(body)) == Trim(body)
  {
    var t := Trim(body);
    if DigitLed(t) {
      NumberedBodyKept(t);
    } else {
      TrimLacks(body, ANALYSIS_CLOSE);
      hide DigitLed, Contains, Trim;
    }
  }

  /** The scratchpad, if any, is past the first visible character of the block. */
  ghost predicate NoScratchpadLeads(before: string, body: string, whole: string) {
    !Contains(whole, "<analysis>") || (!Contains(before, "<analysis>") && StartsPlain(body))
  }

  /**
   A block loses its tags and the space inside them, and gets its heading. The text before
   it and after it stays, and so does the body, whatever it quotes.
   */
  lemma {:induction false} TextAroundIsKept(before: string, body: string, after: string, whole: string)
    requires whole == before + ("<summary>" + (body + ("</summary>" + after)))
    requires !Contains(before, "<summary>") && !Contains(after, "</summary>")
    requires NoDraft(body) && NoScratchpadLeads(before, body, whole)
    ensures Deleted(FormattedSummary(whole))
         == Deleted(Trim(Collapsed(before + "Summary:\n" + Trim(body) + after)))
  {
    hide FormattedSummary, Deleted, Trim, Collapsed, Contains, WithoutScratchpad, Unwrapped, WithoutLeadingAnalysis,
         StartsPlain, NoDraft;
    TidyKeepsText(whole);
    NoDraftIsKept(body);
    NotLeading(before, body, after, whole);
    BlockInText(before, SUMMARY_OPEN, body, SUMMARY_CLOSE, after, whole);
  }

  /** A second wrapper at the start of the block is taken off too. */
  lemma {:induction false} NestedWrapperIsTakenOff(before: string, v: string, u: string, rest: string, after: string,
                                                   whole: string)
    requires whole == before + ("<summary>" + (v + ("<summary>" + (u + rest)) + ("</summary>" + after)))
    requires !Contains(before, "<summary>") && !Contains(after, "</summary>")
    requires !Contains(whole, "<analysis>") && !Contains("<summary>" + (u + rest), "</analysis>")
    requires AllSpace(v) && AllSpace(u) && Trimmed(rest) && rest != ""
    ensures Deleted(FormattedSummary(whole)) == Deleted(Trim(Collapsed(before + "Summary:\n" + rest + after)))
  {
    var body := v + ("<summary>" + (u + rest));
    hide FormattedSummary, Deleted, Trim, Collapsed, Contains, WithoutScratchpad, Unwrapped, WithoutLeadingAnalysis,
         AllSpace, Trimmed;
    TidyKeepsText(whole);
    WrapperTakenOff(v, SUMMARY_OPEN, u, rest);
    NotLeading(before, body, after, whole);
    BlockInText(before, SUMMARY_OPEN, body, SUMMARY_CLOSE, after, whole);
  }

  lemma {:induction false} WrapperTakenOff(v: string, open: string, u: string, rest: string)
    requires open == SUMMARY_OPEN && AllSpace(v) && AllSpace(u) && Trimmed(rest) && rest != ""
    requires !Contains(open + (u + rest), ANALYSIS_CLOSE)
    ensures WithoutScratchpad(Trim(v + (open + (u + rest)))) == rest
  {
    var t := open + (u + rest);
    assert t[0] == '<' && t[|t| - 1] == rest[|rest| - 1] && t[|open|..] == u + rest;
    WrapperTrimmed(v, t);
    BracketLed(t);
    hide Trim, DigitLed, Contains, AllSpace, Trimmed;
    TrimStartSkips(u, rest);
  }

  lemma {:induction false} BracketLed(t: string)
    requires t != "" && t[0] == '<'
    ensures !DigitLed(t)
  {}

  lemma {:induction false} WrapperTrimmed(v: string, t: string)
    requires AllSpace(v) && t != "" && t[0] == '<' && !IsSpace(t[|t| - 1])
    ensures Trim(v + t) == t && Trim(t) == t
  {
    BracketIsNoSpace();
    TrimAfterSpace(v, t);
  }

  /** The first character after markdown decoration is at `k` and a digit. */
  ghost predicate DigitAt(s: string, k: nat) {
    k < |s| && '0' <= s[k] <= '9' && forall j :: 0 <= j < k ==> s[j] in {'#', '*', '-', '>', ' ', '\t'}
  }

  lemma {:induction false} DigitLedIff(s: string)
    ensures DigitLed(s) <==> exists k: nat :: DigitAt(s, k)
  {
    if s != "" && IsDecoration(s[0]) {
      var t := s[1..];
      DigitLedIff(t);
      assert DigitLed(s) <==> DigitLed(t);
      if k: nat :| DigitAt(t, k) {
        assert forall j :: 0 < j < k + 1 ==> s[j] == t[j - 1];
        assert DigitAt(s, k + 1);
      }
      if k: nat :| DigitAt(s, k) {
        assert forall j :: 0 <= j < k - 1 ==> t[j] == s[j + 1];
        assert DigitAt(t, k - 1);
      }
    } else if s != "" && '0' <= s[0] <= '9' {
      assert DigitAt(s, 0);
    }
  }

  // --------------------------------------------------- a scratchpad behind other text

  /** In front of the block a scratchpad goes, whatever text is before it; the text stays. */
  lemma {:induction false} ScratchpadBeforeBlock(w: string, notes: string, rest: string)
    requires !Contains(w, "<analysis>") && !Contains(w, "<summary>") && !Contains(notes, "</analysis>")
    requires Contains(notes + ("</analysis>" + rest), "<summary>")
    ensures FormattedSummary(w + ("<analysis>" + (notes + ("</analysis>" + rest)))) == FormattedSummary(w + rest)
  {
    var s, tail := w + (ANALYSIS_OPEN + (notes + (ANALYSIS_CLOSE + rest))), notes + (ANALYSIS_CLOSE + rest);
    hide WithoutLeadingAnalysis, Find, FindFrom, IsLeading, Contains, FormattedSummary;
    LeadsBeforeBlock(w, tail, s);
    FirstAfterNotes(w, notes, ANALYSIS_CLOSE, rest, s);
    CutOut(w, ANALYSIS_OPEN, notes, ANALYSIS_CLOSE, rest, s);
    ClosedRemoved(s, |w|, |w| + |ANALYSIS_OPEN| + |notes|);
    SameWithoutAnalysis(s, w + rest);
  }

  lemma {:induction false} SameWithoutAnalysis(s: string, t: string)
    requires WithoutLeadingAnalysis(s) == WithoutLeadingAnalysis(t)
    ensures FormattedSummary(s) == FormattedSummary(t)
  {
    hide WithoutLeadingAnalysis, Unwrapped, Neutralized, Collapsed, Trim;
  }

  lemma {:induction false} LeadsBeforeBlock(w: string, tail: string, s: string)
    requires s == w + (ANALYSIS_OPEN + tail) && !Contains(w, ANALYSIS_OPEN) && !Contains(w, SUMMARY_OPEN)
    requires Contains(tail, SUMMARY_OPEN)
    ensures Find(s, ANALYSIS_OPEN) == Some(|w|) && IsLeading(s, |w|)
  {
    var analysis, open := ANALYSIS_OPEN, SUMMARY_OPEN;
    TagsHaveOneBracket();
    var i :| At(tail, open, i);
    assert s[|w| + |analysis|..] == tail && analysis[1] == 'a' && open[1] == 's';
    AtInDrop(s, open, |w| + |analysis|, i);
    FoundAfter(w, analysis, tail, s);
    NoTagBefore(w, analysis + tail, s, open);
    StandsAt(w, analysis, tail, s);
    AtShows(s, open, |w|, 1);
    hide At, Contains, OneBracket;
    assert Find(s, open).Some? && Find(s, open).value > |w|;
  }

  /** Behind text that no block follows it is kept like any other text. */
  lemma {:induction false} ScratchpadBehindText(w: string, tail: string, s: string)
    requires s == w + ("<analysis>" + tail) && Trim(w) != ""
    requires !Contains(w, "<analysis>") && !Contains(s, "<summary>")
    ensures Deleted(FormattedSummary(s)) == Deleted(Trim(Collapsed(s)))
  {
    TagsHaveOneBracket();
    FoundAfter(w, ANALYSIS_OPEN, tail, s);
    assert s[..|w|] == w;
    hide FormattedSummary, Deleted, Trim, Collapsed, Contains, WithoutScratchpad, OneBracket, At;
    TidyKeepsText(s);
  }

  lemma {:induction false} TagsHaveOneBracket()
    ensures OneBracket(SUMMARY_OPEN) && OneBracket(SUMMARY_CLOSE) && OneBracket(ANALYSIS_OPEN)
  {}

  lemma {:induction false} BlockInText(before: string, open: string, body: string, close: string, after: string,
                                       whole: string)
    requires open == SUMMARY_OPEN && close == SUMMARY_CLOSE && whole == before + (open + (body + (close + after)))
    requires !Contains(before, open) && !Contains(after, close)
    ensures Unwrapped(whole) == before + HEADING + WithoutScratchpad(Trim(body)) + after
  {
    TagsHaveOneBracket();
    hide Find, RFind, At, Contains, Trim, WithoutScratchpad, OneBracket;
    var upTo := before + open + body;
    assert whole == upTo + (close + after);
    FoundAfter(before, open, body + (close + after), whole);
    FoundLast(upTo, close, after, whole);
    assert whole[..|before|] == before && whole[|before| + |open|..|upTo|] == body;
    assert whole[|upTo| + |close|..] == after;
  }

  lemma {:induction false} NotLeading(before: string, body: string, after: string, whole: string)
    requires whole == before + (SUMMARY_OPEN + (body + (SUMMARY_CLOSE + after)))
    requires !Contains(before, SUMMARY_OPEN) && NoScratchpadLeads(before, body, whole)
    ensures WithoutLeadingAnalysis(whole) == whole
  {
    if start :| Find(whole, ANALYSIS_OPEN) == Some(start) {
      BehindTheBody(before, SUMMARY_OPEN, ANALYSIS_OPEN, body, SUMMARY_CLOSE + after, whole, start);
    }
  }

  /** An `<analysis>` that is not in front of the body is behind its first visible character. */
  lemma {:induction false} BehindTheBody(before: string, open: string, analysis: string, body: string, rest: string,
                                         whole: string, start: nat)
    requires whole == before + (open + (body + rest)) && open == SUMMARY_OPEN && analysis == ANALYSIS_OPEN
    requires !Contains(before, open) && NoScratchpadLeads(before, body, whole)
    requires Find(whole, analysis) == Some(start)
    ensures !IsLeading(whole, start)
  {
    TagsHaveOneBracket();
    AtStartsWithBracket(whole, start);
    assert Contains(whole, analysis);
    var lo, hi := TrimSlice(body);
    var from := |before| + |open|;
    assert !IsSpace(body[lo]) && body[lo] != '<';
    hide Contains, Trim, IsSpace, StartsPlain, Find, At;
    FoundAfter(before, open, body + rest, whole);
    NoTagBefore(before, open + (body + rest), whole, analysis);
    hide OneBracket;
    StandsAt(before, open, body + rest, whole);
    assert whole[from..] == body + rest;
    NoBracketUntil(before, open, body, lo, whole, start);
    assert whole[from..start][lo] == body[lo];
    TrimNonEmpty(whole[from..start], lo);
  }

  lemma {:induction false} NoBracketUntil(before: string, open: string, body: string, lo: nat, whole: string,
                                          start: nat)
    requires |before| <= start && start + 1 < |whole| && whole[start] == '<' && whole[start + 1] == 'a'
    requires open == SUMMARY_OPEN && |before| + |open| <= |whole| && body <= whole[|before| + |open|..]
    requires forall k :: |before| <= k < |before| + |open| ==> whole[k] == open[k - |before|]
    requires lo < |body| && AllSpace(body[..lo]) && body[lo] != '<'
    ensures |before| + |open| + lo < start
  {
    TagsHaveOneBracket();
    BracketIsNoSpace();
    var from := |before| + |open|;
    assert open[1] == 's';
    hide IsSpace;
    forall k | from <= k <= from + lo ensures whole[k] != '<' {
      assert whole[k] == body[k - from];
      assert k < from + lo ==> body[k - from] == body[..lo][k - from];
    }
  }

  // ------------------------------------------------------------------- blank lines

  function Newlines(n: nat): string {
    if n == 0 then "" else ['\n'] + Newlines(n - 1)
  }

  /** A run of newlines is cut to two, and nothing else goes. */
  lemma {:induction false} RunsOfNewlines(a: string, n: nat, b: string)
    requires (a == "" || a[|a| - 1] != '\n') && (b == "" || b[0] != '\n')
    ensures Collapsed(a + (Newlines(n) + b)) == Collapsed(a) + (Newlines(if n < 2 then n else 2) + Collapsed(b))
  {
    CollapsedApart(a, Newlines(n) + b);
    CollapsedRun(n, b);
  }

  lemma {:induction false} CollapsedApart(a: string, s: string)
    requires a == "" || a[|a| - 1] != '\n'
    ensures Collapsed(a + s) == Collapsed(a) + Collapsed(s)
  {
    if a == "" {
      assert a + s == s && "" + Collapsed(s) == Collapsed(s);
    } else {
      var x, t := a + s, a[1..];
      assert x[1..] == t + s;
      CollapsedApart(t, s);
      assert TripleNewline(x) <==> TripleNewline(a);
      assert [a[0]] + (Collapsed(t) + Collapsed(s)) == [a[0]] + Collapsed(t) + Collapsed(s);
    }
  }

  lemma {:induction false} CollapsedRun(n: nat, b: string)
    requires b == "" || b[0] != '\n'
    ensures Collapsed(Newlines(n) + b) == Newlines(if n < 2 then n else 2) + Collapsed(b)
  {
    var c := Collapsed(b);
    CollapsedHead(b);
    if n == 0 {
      assert Newlines(0) + b == b && Newlines(0) + c == c;
    } else {
      CollapsedRun(n - 1, b);
      var rest := Newlines(n - 1) + b;
      assert Newlines(n) + b == ['\n'] + rest;
      hide Newlines, Collapsed, Absorb;
      CollapsedCons(rest);
      AbsorbsRun(n - 1, c);
    }
  }

  lemma {:induction false} AbsorbsRun(n: nat, c: string)
    requires c == "" || c[0] != '\n'
    ensures Absorb(Newlines(if n < 2 then n else 2) + c) == Newlines(if n < 1 then 1 else 2) + c
  {
    assert Newlines(1) == ['\n'] + Newlines(0) && Newlines(2) == ['\n'] + Newlines(1);
    assert Newlines(0) + c == c && Newlines(1) + c == ['\n'] + c && Newlines(2) + c == ['\n'] + (['\n'] + c);
  }
}
