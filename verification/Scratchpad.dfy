/**
 What cleaning removes of the model's drafting scratchpad: an `<analysis>` block in front
 of the summary or at the start of it, closed or not, and an untagged draft that ends at
 a stray `</analysis>`.
 */
module Scratchpad {
  import opened Common
  import opened Text
  import opened SummaryFormat

  // ------------------------------------------------------------ one round of the loop

  lemma {:induction false} ClosedRemoved(s: string, start: nat, end: nat)
    requires Find(s, ANALYSIS_OPEN) == Some(start) && IsLeading(s, start)
    requires FindFrom(s, ANALYSIS_CLOSE, start) == Some(end)
    ensures WithoutLeadingAnalysis(s) == WithoutLeadingAnalysis(s[..start] + s[end + |ANALYSIS_CLOSE|..])
  {
    hide IsLeading, Find, FindFrom, At;
  }

  lemma {:induction false} UnclosedRemoved(s: string, start: nat)
    requires Find(s, ANALYSIS_OPEN) == Some(start) && IsLeading(s, start)
    requires FindFrom(s, ANALYSIS_CLOSE, start) == None
    ensures var dropTo := FindFrom(s, SUMMARY_OPEN, start);
            WithoutLeadingAnalysis(s) == s[..start] + if dropTo.Some? then s[dropTo.value..] else ""
  {
    hide IsLeading, Find, FindFrom, At;
  }

  // --------------------------------------------------------- where a scratchpad leads

  /** After nothing but space, an `<analysis>` is the first one and leads. */
  lemma {:induction false} LeadsAfterSpace(w: string, rest: string, s: string)
    requires AllSpace(w) && s == w + (ANALYSIS_OPEN + rest)
    ensures Find(s, ANALYSIS_OPEN) == Some(|w|) && IsLeading(s, |w|)
  {
    hide Find;
    var open, summary := ANALYSIS_OPEN, SUMMARY_OPEN;
    FoundAfterSpace(w, open, rest, s);
    assert open[1] == 'a' && summary[0] == '<' && summary[1] == 's' && s[|w| + 1] == open[1];
    BracketIsNoSpace();
    hide IsSpace;
    assert forall k :: 0 <= k < |w| ==> s[k] == w[k];
    forall i: nat | At(s, summary, i) ensures |w| < i {
      AtShows(s, summary, i, 0);
      AtShows(s, summary, i, 1);
    }
    SpaceTrimsAway(w);
    assert s[..|w|] == w;
  }

  lemma {:induction false} SpaceTrimsAway(w: string)
    requires AllSpace(w)
    ensures Trim(w) == ""
  {
    TrimOfPadded(w, "", "");
    assert w + "" + "" == w;
  }

  /** So does one at the start of the summary block. */
  lemma {:induction false} LeadsInBlock(w: string, v: string, rest: string, s: string)
    requires AllSpace(w) && AllSpace(v) && s == w + (SUMMARY_OPEN + (v + (ANALYSIS_OPEN + rest)))
    ensures Find(s, ANALYSIS_OPEN) == Some(|w| + |SUMMARY_OPEN| + |v|) && IsLeading(s, |w| + |SUMMARY_OPEN| + |v|)
  {
    hide Find, IsSpace;
    var open, start := SUMMARY_OPEN, |w| + |SUMMARY_OPEN| + |v|;
    FoundAfterSpace(w, open, v + (ANALYSIS_OPEN + rest), s);
    AnalysisSits(w, open, v, rest, s);
    forall i: nat | At(s, ANALYSIS_OPEN, i) ensures start <= i {
      AtStartsWithBracket(s, i);
      NoAnalysisBefore(w, open, v, s, i);
    }
    SpaceTrimsAway(v);
    assert s[|w| + |open|..start] == v;
  }

  lemma {:induction false} AnalysisSits(w: string, open: string, v: string, rest: string, s: string)
    requires s == w + (open + (v + (ANALYSIS_OPEN + rest)))
    ensures At(s, ANALYSIS_OPEN, |w| + |open| + |v|)
  {
    var analysis, before := ANALYSIS_OPEN, w + open + v;
    assert s == before + (analysis + rest);
    assert forall k :: 0 <= k < |analysis| ==> analysis[k] == s[|before| + k];
  }

  lemma {:induction false} NoAnalysisBefore(w: string, open: string, v: string, s: string, i: nat)
    requires AllSpace(w) && AllSpace(v) && open == SUMMARY_OPEN && w + open + v <= s && i + 1 < |s|
    requires s[i] == '<' && s[i + 1] == 'a'
    ensures |w| + |open| + |v| <= i
  {
    BracketIsNoSpace();
    hide IsSpace;
    assert open[1] == 's' && forall k :: 0 < k < |open| ==> open[k] != '<';
    var before := w + open + v;
    assert forall k :: 0 <= k < |before| ==> s[k] == before[k];
    assert forall k :: 0 <= k < |w| ==> before[k] == w[k];
    assert forall k :: 0 <= k < |open| ==> open[k] == before[|w| + k];
    assert forall k :: 0 <= k < |v| ==> v[k] == before[|w| + |open| + k];
    forall k | |w| < k < |w| + |open| ensures s[k] != '<' {
      assert s[k] == open[k - |w|];
    }
    forall k | |w| + |open| <= k < |before| ensures s[k] != '<' {
      assert s[k] == v[k - |w| - |open|];
    }
    assert s[|w| + 1] == open[1];
  }

  // ------------------------------------------------------------------ where it ends

  /** The tag `t` after the notes is the first from the scratchpad's start on: none runs into it from before. */
  lemma {:induction false} FirstAfterNotes(w: string, notes: string, t: string, rest: string, s: string)
    requires s == w + (ANALYSIS_OPEN + (notes + (t + rest)))
    requires (t == ANALYSIS_CLOSE || t == SUMMARY_OPEN) && !Contains(notes, t)
    ensures FindFrom(s, t, |w|) == Some(|w| + |ANALYSIS_OPEN| + |notes|)
  {
    hide FindFrom, IsToken, Contains, At;
    TokensAreTokens();
    var d, end := s[|w|..], |ANALYSIS_OPEN| + |notes|;
    assert d == ANALYSIS_OPEN + (notes + (t + rest));
    TokenStart(t);
    Sits(ANALYSIS_OPEN, notes, t, rest, d);
    AtInDrop(s, t, |w|, end);
    forall i | |w| <= i < |w| + end ensures !At(s, t, i) {
      NoneBefore(d, ANALYSIS_OPEN, notes, t, i - |w|);
      AtInDrop(s, t, |w|, i - |w|);
    }
  }

  lemma {:induction false} Sits(open: string, notes: string, t: string, rest: string, s: string)
    requires s == open + (notes + (t + rest)) && t != ""
    ensures var end := |open| + |notes|; At(s, t, end) && s[end] == t[0] && open + notes <= s
  {
    var before := open + notes;
    assert s == before + (t + rest);
    assert forall k :: 0 <= k < |t| ==> t[k] == s[|before| + k];
    assert s[|before| + 0] == t[0];
  }

  lemma {:induction false} TokenStart(t: string)
    requires IsToken(t)
    ensures |t| >= 2 && t[0] == '<'
  {}

  lemma {:induction false} NoneBefore(s: string, open: string, notes: string, t: string, i: int)
    requires open == ANALYSIS_OPEN && (t == ANALYSIS_CLOSE || t == SUMMARY_OPEN)
    requires IsToken(open) && IsToken(t) && !Contains(notes, t)
    requires |open| + |notes| < |s| && open + notes <= s && s[|open| + |notes|] == '<' && i < |open| + |notes|
    ensures !At(s, t, i)
  {
    var end := |open| + |notes|;
    assert open[1] == 'a' && t[1] != 'a' && s[1] == open[1];
    assert forall k :: 0 < k < |open| ==> open[k] == s[k] && open[k] == open[1..][k - 1];
    if At(s, t, i) {
      AtShows(s, t, i, 0);
      AtShows(s, t, i, 1);
      Outside(s, t, i, end);
      InNotes(s, open, notes, t, i);
      assert false;
    }
  }

  lemma {:induction false} Outside(s: string, t: string, i: int, end: nat)
    requires IsToken(t) && At(s, t, i) && i < end < |s| && s[end] == '<'
    ensures i + |t| <= end
  {
    assert forall k :: 0 < k < |t| ==> t[k] == t[1..][k - 1];
    if end - i < |t| {
      AtShows(s, t, i, end - i);
      assert false;
    }
  }

  lemma {:induction false} InNotes(s: string, open: string, notes: string, t: string, i: int)
    requires open + notes <= s && |open| <= i && i + |t| <= |open| + |notes| && At(s, t, i)
    ensures Contains(notes, t)
  {
    assert notes == s[|open|..|open| + |notes|];
    assert forall k :: 0 <= k < |t| ==> t[k] == s[i + k] == notes[i - |open| + k];
    assert At(notes, t, i - |open|);
  }

  // ------------------------------------------------------------ what the loop removes

  /** A scratchpad after nothing but space is gone whole, up to its first closing tag, whatever follows. */
  lemma {:induction false} ScratchpadRemoved(w: string, notes: string, rest: string)
    requires AllSpace(w) && !Contains(notes, ANALYSIS_CLOSE)
    ensures WithoutLeadingAnalysis(w + (ANALYSIS_OPEN + (notes + (ANALYSIS_CLOSE + rest))))
         == WithoutLeadingAnalysis(w + rest)
  {
    hide WithoutLeadingAnalysis, Find, FindFrom, IsLeading, AllSpace, Contains;
    var s := w + (ANALYSIS_OPEN + (notes + (ANALYSIS_CLOSE + rest)));
    LeadsAfterSpace(w, notes + (ANALYSIS_CLOSE + rest), s);
    FirstAfterNotes(w, notes, ANALYSIS_CLOSE, rest, s);
    CutOut(w, ANALYSIS_OPEN, notes, ANALYSIS_CLOSE, rest, s);
    ClosedRemoved(s, |w|, |w| + |ANALYSIS_OPEN| + |notes|);
  }

  lemma {:induction false} CutOut(before: string, open: string, notes: string, close: string, rest: string, s: string)
    requires s == before + (open + (notes + (close + rest)))
    ensures var end := |before| + |open| + |notes|;
            s[..|before|] == before && s[end..] == close + rest && s[end + |close|..] == rest
  {}

  /** So is one at the start of the summary block. */
  lemma {:induction false} NestedScratchpadRemoved(w: string, v: string, notes: string, rest: string)
    requires AllSpace(w) && AllSpace(v) && !Contains(notes, ANALYSIS_CLOSE)
    ensures WithoutLeadingAnalysis(w + (SUMMARY_OPEN + (v + (ANALYSIS_OPEN + (notes + (ANALYSIS_CLOSE + rest))))))
         == WithoutLeadingAnalysis(w + (SUMMARY_OPEN + (v + rest)))
  {
    hide WithoutLeadingAnalysis, Find, FindFrom, IsLeading, AllSpace, Contains;
    var tail := notes + (ANALYSIS_CLOSE + rest);
    var s, before := w + (SUMMARY_OPEN + (v + (ANALYSIS_OPEN + tail))), w + (SUMMARY_OPEN + v);
    LeadsInBlock(w, v, tail, s);
    assert s == before + (ANALYSIS_OPEN + tail) && |before| == |w| + |SUMMARY_OPEN| + |v|;
    FirstAfterNotes(before, notes, ANALYSIS_CLOSE, rest, s);
    CutOut(before, ANALYSIS_OPEN, notes, ANALYSIS_CLOSE, rest, s);
    ClosedRemoved(s, |before|, |before| + |ANALYSIS_OPEN| + |notes|);
    assert before + rest == w + (SUMMARY_OPEN + (v + rest));
  }

  /** One that is never closed is gone up to the summary block; without one, everything after it is. */
  lemma {:induction false} UnclosedScratchpadRemoved(w: string, notes: string, rest: string)
    requires AllSpace(w) && !Contains(notes, SUMMARY_OPEN)
    ensures !Contains(ANALYSIS_OPEN + (notes + (SUMMARY_OPEN + rest)), ANALYSIS_CLOSE) ==>
              WithoutLeadingAnalysis(w + (ANALYSIS_OPEN + (notes + (SUMMARY_OPEN + rest)))) == w + (SUMMARY_OPEN + rest)
    ensures !Contains(ANALYSIS_OPEN + notes, ANALYSIS_CLOSE) && !Contains(ANALYSIS_OPEN + notes, SUMMARY_OPEN) ==>
              WithoutLeadingAnalysis(w + (ANALYSIS_OPEN + notes)) == w
  {
    hide WithoutLeadingAnalysis, Find, FindFrom, IsLeading, AllSpace, Contains;
    var tail := ANALYSIS_OPEN + (notes + (SUMMARY_OPEN + rest));
    if !Contains(tail, ANALYSIS_CLOSE) {
      LeadsAfterSpace(w, notes + (SUMMARY_OPEN + rest), w + tail);
      FirstAfterNotes(w, notes, SUMMARY_OPEN, rest, w + tail);
      AbsentAfter(w, tail, ANALYSIS_CLOSE);
      CutOut(w, ANALYSIS_OPEN, notes, SUMMARY_OPEN, rest, w + tail);
      UnclosedRemoved(w + tail, |w|);
    }
    var only := ANALYSIS_OPEN + notes;
    if !Contains(only, ANALYSIS_CLOSE) && !Contains(only, SUMMARY_OPEN) {
      LeadsAfterSpace(w, notes, w + only);
      AbsentAfter(w, only, ANALYSIS_CLOSE);
      AbsentAfter(w, only, SUMMARY_OPEN);
      UnclosedRemoved(w + only, |w|);
      assert (w + only)[..|w|] == w && w + "" == w;
    }
  }

  lemma {:induction false} AbsentAfter(w: string, tail: string, t: string)
    requires !Contains(tail, t)
    ensures FindFrom(w + tail, t, |w|) == None
  {
    hide FindFrom;
    assert (w + tail)[|w|..] == tail;
    forall i | |w| <= i ensures !At(w + tail, t, i) {
      AtInDrop(w + tail, t, |w|, i - |w|);
    }
  }

  // -------------------------------------------------------------- whole outputs

  /**
   The usual output, a scratchpad and then a numbered summary: the scratchpad is gone
   whole, whatever it holds, and the summary loses nothing but blank lines.
   */
  lemma {:induction false} ScratchpadThenSummary(u: string, notes: string, w: string, body: string)
    requires AllSpace(u) && AllSpace(w) && !Contains(notes, ANALYSIS_CLOSE)
    requires DigitLed(Trim(body)) && Lacks(body, ZWSP)
    ensures Deleted(FormattedSummary(u + (ANALYSIS_OPEN + (notes + (ANALYSIS_CLOSE + Block(w, body))))))
         == HEADING + Collapsed(Trim(body))
  {
    hide Trim, WithoutLeadingAnalysis, FormattedSummary, Deleted, Collapsed, WithoutScratchpad, DigitLed, Contains;
    ScratchpadRemoved(u, notes, Block(w, body));
    AllSpaceConcat(u, w);
    assert u + Block(w, body) == Block(u + w, body);
    NumberedBody(body);
    BlockIsNotLeadingAnalysis(u + w, body);
    NumberedBodyKept(Trim(body));
    BlockFormats(u + (ANALYSIS_OPEN + (notes + (ANALYSIS_CLOSE + Block(w, body)))), u + w, body, Trim(body));
  }

  /** The same with the scratchpad at the start of the summary block. */
  lemma {:induction false} ScratchpadInSummary(w: string, v: string, notes: string, body: string)
    requires AllSpace(w) && AllSpace(v) && !Contains(notes, ANALYSIS_CLOSE)
    requires DigitLed(Trim(body)) && Lacks(body, ZWSP)
    ensures Deleted(FormattedSummary(Block(w, v + (ANALYSIS_OPEN + (notes + (ANALYSIS_CLOSE + body))))))
         == HEADING + Collapsed(Trim(body))
  {
    hide Trim, WithoutLeadingAnalysis, FormattedSummary, Deleted, Collapsed, WithoutScratchpad, DigitLed, Contains;
    var inner, rest := v + (ANALYSIS_OPEN + (notes + (ANALYSIS_CLOSE + body))), body + SUMMARY_CLOSE;
    assert inner + SUMMARY_CLOSE == v + (ANALYSIS_OPEN + (notes + (ANALYSIS_CLOSE + rest)));
    NestedScratchpadRemoved(w, v, notes, rest);
    assert w + (SUMMARY_OPEN + (v + rest)) == Block(w, v + body) by { assert v + rest == v + body + SUMMARY_CLOSE; }
    TrimAfterSpace(v, body);
    NumberedBody(body);
    BlockIsNotLeadingAnalysis(w, v + body);
    NumberedBodyKept(Trim(body));
    BlockFormats(Block(w, inner), w, v + body, Trim(body));
  }

  lemma {:induction false} TrimAfterSpace(v: string, s: string)
    requires AllSpace(v)
    ensures Trim(v + s) == Trim(s)
  {
    TrimStartSkips(v, s);
  }

  /** And with a scratchpad in front that is never closed, as long as the summary does not close it. */
  lemma {:induction false} UnclosedScratchpadThenSummary(w: string, notes: string, body: string)
    requires AllSpace(w) && !Contains(notes, SUMMARY_OPEN)
    requires !Contains(ANALYSIS_OPEN + (notes + (SUMMARY_OPEN + (body + SUMMARY_CLOSE))), ANALYSIS_CLOSE)
    requires DigitLed(Trim(body)) && Lacks(body, ZWSP)
    ensures Deleted(FormattedSummary(w + (ANALYSIS_OPEN + (notes + (SUMMARY_OPEN + (body + SUMMARY_CLOSE))))))
         == HEADING + Collapsed(Trim(body))
  {
    hide Trim, WithoutLeadingAnalysis, FormattedSummary, Deleted, Collapsed, WithoutScratchpad, DigitLed, Contains;
    UnclosedScratchpadRemoved(w, notes, body + SUMMARY_CLOSE);
    NumberedBody(body);
    NumberedBodyKept(Trim(body));
    BlockFormats(w + (ANALYSIS_OPEN + (notes + (SUMMARY_OPEN + (body + SUMMARY_CLOSE)))), w, body, Trim(body));
  }

  /** An untagged draft is peeled up to the last `</analysis>`, even when it quotes that tag itself. */
  lemma {:induction false} DraftPeeled(draft: string, w: string, rest: string)
    requires Trimmed(draft) && draft != "" && AllSpace(w) && Trimmed(rest) && rest != ""
    requires !Contains(rest, ANALYSIS_CLOSE) && !(SUMMARY_OPEN <= rest)
    requires !DigitLed(draft + (ANALYSIS_CLOSE + (w + rest)))
    ensures WithoutScratchpad(draft + (ANALYSIS_CLOSE + (w + rest))) == rest
  {
    var s := draft + (ANALYSIS_CLOSE + (w + rest));
    assert s[0] == draft[0] && s[|s| - 1] == rest[|rest| - 1];
    LastClose(draft, w, rest, s);
    assert s[|draft| + |ANALYSIS_CLOSE|..] == w + rest;
    TrimStartSkips(w, rest);
    hide Trim, DigitLed, RFind;
  }

  lemma {:induction false} LastClose(draft: string, w: string, rest: string, s: string)
    requires AllSpace(w) && !Contains(rest, ANALYSIS_CLOSE) && s == draft + (ANALYSIS_CLOSE + (w + rest))
    ensures RFind(s, ANALYSIS_CLOSE) == Some(|draft|)
  {
    hide RFind, IsToken, IsSpace;
    TokensAreTokens();
    var close, from := ANALYSIS_CLOSE, |draft| + |ANALYSIS_CLOSE| + |w|;
    BracketIsNoSpace();
    assert forall k :: 0 <= k < |close| ==> close[k] == s[|draft| + k];
    assert At(s, close, |draft|);
    assert s[from..] == rest;
    forall i | |draft| < i ensures !At(s, close, i) {
      NoLaterClose(draft, close, w, rest, s, i);
    }
  }

  lemma {:induction false} NoLaterClose(draft: string, close: string, w: string, rest: string, s: string, i: int)
    requires IsToken(close) && AllSpace(w) && !IsSpace('<') && !Contains(rest, close)
    requires s == draft + (close + (w + rest)) && |draft| < i
    ensures !At(s, close, i)
  {
    hide IsSpace;
    var from := |draft| + |close| + |w|;
    assert s[from..] == rest;
    AtInDrop(s, close, from, i - from);
    assert forall k :: 0 < k < |close| ==> close[k] == s[|draft| + k] && close[k] == close[1..][k - 1];
    assert forall k :: 0 <= k < |w| ==> w[k] == s[|draft| + |close| + k];
    forall k | |draft| < k < |draft| + |close| ensures s[k] != '<' {
      assert s[k] == close[1..][k - |draft| - 1];
    }
    forall k | |draft| + |close| <= k < from ensures s[k] != '<' {
      assert s[k] == w[k - |draft| - |close|];
    }
    AtShows(s, close, i, 0);
  }

  /** So of a summary that opens with such a draft, what follows its last `</analysis>` comes back. */
  lemma {:induction false} DraftThenSummary(u: string, draft: string, w: string, rest: string)
    requires AllSpace(u) && AllSpace(w) && Trimmed(draft) && draft != "" && draft[0] != '<'
    requires Trimmed(rest) && rest != "" && Lacks(rest, ZWSP)
    requires !Contains(rest, ANALYSIS_CLOSE) && !(SUMMARY_OPEN <= rest)
    requires !DigitLed(draft + (ANALYSIS_CLOSE + (w + rest)))
    ensures Deleted(FormattedSummary(Block(u, draft + (ANALYSIS_CLOSE + (w + rest))))) == HEADING + Collapsed(rest)
  {
    var body := draft + (ANALYSIS_CLOSE + (w + rest));
    assert body[0] == draft[0] && body[|body| - 1] == rest[|rest| - 1];
    assert Trim(body) == body && StartsPlain(body);
    hide Trim, WithoutLeadingAnalysis, FormattedSummary, Deleted, Collapsed, WithoutScratchpad, DigitLed, Contains,
         StartsPlain;
    DraftPeeled(draft, w, rest);
    BlockIsNotLeadingAnalysis(u, body);
    BlockFormats(Block(u, body), u, body, rest);
  }
}
