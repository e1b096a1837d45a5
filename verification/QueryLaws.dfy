/**
 What reading a query out of a message keeps and drops, said of the text itself, and
 which messages count as human turns.
 */
module QueryLaws {
  import opened Common
  import opened Text
  import opened Conversation
  import opened UserQuery
  import opened MetadataTags

  // --------------------------------------------------------------------- one block

  /** A block `t x c` behind text without `t`, where `x` has no `c`, is the one that is found. */
  lemma {:induction false} FoundBlock(a: string, t: string, x: string, c: string, b: string, s: string)
    requires s == a + (t + (x + (c + b))) && IsMark(t) && IsMark(c) && t[1] != '/' && c[1] == '/'
    requires !Contains(a, t) && !Contains(x, c)
    ensures var end := |a| + |t| + |x|;
            && end + |c| <= |s| && Find(s, t) == Some(|a|) && FindFrom(s, c, |a|) == Some(end)
            && s[..|a|] == a && s[end + |c|..] == b
            && Find(s[|a| + |t|..], c) == Some(|x|) && s[|a| + |t|..][..|x|] == x
  {
    BlockLayout(a, t, x, c, b, s);
    MarkHasOneBracket(t);
    MarkHasOneBracket(c);
    FoundAfter(a, t, x + (c + b), s);
    FoundAfter(x, c, b, x + (c + b));
    FoundClose(a, t, x, c, b, s);
  }

  lemma {:induction false} MarkHasOneBracket(t: string)
    requires IsMark(t)
    ensures OneBracket(t)
  {}

  lemma {:induction false} FoundClose(a: string, t: string, x: string, c: string, b: string, s: string)
    requires s == a + (t + (x + (c + b))) && IsMark(t) && IsMark(c) && t[1] != '/' && c[1] == '/'
    requires !Contains(x, c)
    ensures |a| <= |s| && FindFrom(s, c, |a|) == Some(|a| + |t| + |x|)
  {
    var end := |a| + |t| + |x|;
    NoCloseBefore(a, t, x, c, b, s);
    hide At, Contains, FindFrom, IsMark;
    FoundFirst(s, c, |a|, end);
  }

  lemma {:induction false} NoCloseBefore(a: string, t: string, x: string, c: string, b: string, s: string)
    requires s == a + (t + (x + (c + b))) && IsMark(t) && IsMark(c) && t[1] != '/' && c[1] == '/'
    requires !Contains(x, c)
    ensures At(s, c, |a| + |t| + |x|) && forall i :: |a| <= i < |a| + |t| + |x| ==> !At(s, c, i)
  {
    var inside, start := x + (c + b), |a| + |t|;
    BlockLayout(a, t, x, c, b, s);
    StandsAt(a, t, inside, s);
    ClosesAfter(s, t, c, |a|);
    MarkHasOneBracket(c);
    FoundAfter(x, c, b, inside);
    hide At, Contains, Find, FindFrom, IsMark;
    assert s[start..] == inside;
    forall i | start <= i < start + |x| ensures !At(s, c, i) {
      AtInDrop(s, c, start, i - start);
      assert !At(inside, c, i - start);
    }
    AtInDrop(s, c, start, |x|);
  }

  lemma {:induction false} BlockLayout(a: string, t: string, x: string, c: string, b: string, s: string)
    requires s == a + (t + (x + (c + b)))
    ensures |s| == |a| + |t| + |x| + |c| + |b|
    ensures s[..|a|] == a && s[|a| + |t|..] == x + (c + b) && s[|a| + |t| + |x| + |c|..] == b
  {
    var inside := x + (c + b);
    assert s[|a| + |t|..] == inside;
    assert inside[|x| + |c|..] == b;
  }

  /** A closed block is cut out, and what is around it is kept and stripped in turn. */
  lemma {:induction false} BlockIsCutOut(a: string, tag: string, x: string, b: string)
    requires IsPlainTag(tag) && !Contains(a, "<" + tag + ">") && !Contains(x, "</" + tag + ">")
    ensures StripTag(a + ("<" + tag + ">" + (x + ("</" + tag + ">" + b))), tag) == StripTag(a + b, tag)
  {
    var t, c := OpenTag(tag), CloseTag(tag);
    TagsAreMarks(tag);
    assert t[1] != '/' && c[1] == '/';
    hide StripTag, Contains, OpenTag, CloseTag, IsMark, IsPlainTag;
    CutOut(a, t, x, c, b, a + (t + (x + (c + b))), tag);
  }

  lemma {:induction false} CutOut(a: string, t: string, x: string, c: string, b: string, s: string, tag: string)
    requires t == OpenTag(tag) && c == CloseTag(tag) && IsMark(t) && IsMark(c) && t[1] != '/' && c[1] == '/'
    requires s == a + (t + (x + (c + b))) && !Contains(a, t) && !Contains(x, c)
    ensures StripTag(s, tag) == StripTag(a + b, tag)
  {
    hide StripTag, Find, FindFrom, Contains, OpenTag, CloseTag, IsMark, At;
    FoundBlock(a, t, x, c, b, s);
    StripsBlock(s, tag, |a|, |a| + |t| + |x|, a + b);
  }

  /** Between the query's tags stands what is read, trimmed, whatever is around them. */
  lemma {:induction false} QueryIsRead(a: string, q: string, b: string)
    requires !Contains(a, "<user_query>") && !Contains(q, "</user_query>")
    requires var text := a + ("<user_query>" + (q + ("</user_query>" + b)));
             Trimmed(text) && NoClosedBlocks(text, SYSTEM_TAGS)
    ensures ExtractUserQuery(a + ("<user_query>" + (q + ("</user_query>" + b)))) == Trim(q)
  {
    QueryTags();
    var t, c := OpenTag(QUERY_TAG), CloseTag(QUERY_TAG);
    var s := a + (t + (q + (c + b)));
    SystemTagsArePlain();
    TagsAreMarks(QUERY_TAG);
    hide StripTags, Find, FindFrom, Contains, NoClosedBlocks, Trim, Trimmed;
    StripTagsIdentity(s, SYSTEM_TAGS);
    AlreadyTrimmed(s);
    FoundBlock(a, t, q, c, b, s);
  }

  lemma {:induction false} QueryTags()
    ensures OpenTag(QUERY_TAG) == "<user_query>" && CloseTag(QUERY_TAG) == "</user_query>"
    ensures OpenTag(QUERY_TAG)[1] != '/' && CloseTag(QUERY_TAG)[1] == '/'
  {}

  lemma {:induction false} AlreadyTrimmed(s: string)
    requires Trimmed(s)
    ensures Trim(s) == s
  {}

  // -------------------------------------------------------------- unchanged texts

  /** Trimmed text with no closed block, of metadata or of the query's own tag. */
  ghost predicate IsPlainText(text: string) {
    Trimmed(text) && NoClosedBlocks(text, SYSTEM_TAGS) && !HasClosedBlock(text, "user_query")
  }

  /** Reading leaves a text as it is exactly if it is trimmed and holds no closed block. */
  lemma {:induction false} PlainTextIff(text: string)
    ensures ExtractUserQuery(text) == text <==> IsPlainText(text)
  {
    var open, close := OpenTag(QUERY_TAG), CloseTag(QUERY_TAG);
    var stripped := Trim(StripTags(text, SYSTEM_TAGS));
    StripTagsIdentity(text, SYSTEM_TAGS);
    StripTagsShrink(text);
    QueryTags();
    SystemTagsArePlain();
    TagsAreMarks(QUERY_TAG);
    BetweenIff(stripped, open, close);
    hide StripTags, Between, NoClosedBlocks, OpenTag, CloseTag;
  }

  lemma {:induction false} StripTagsShrink(text: string)
    ensures |Trim(StripTags(text, SYSTEM_TAGS))| <= |StripTags(text, SYSTEM_TAGS)| <= |text|
  {}

  ghost predicate OpensThenCloses(s: string, open: string, close: string) {
    exists i, j :: i <= j && At(s, open, i) && At(s, close, j)
  }

  /** Something is read from between the tags exactly if the closing one follows the opening one. */
  lemma {:induction false} BetweenIff(s: string, open: string, close: string)
    requires IsMark(open) && IsMark(close) && open[1] != '/' && close[1] == '/'
    ensures !OpensThenCloses(s, open, close) ==> Between(s, open, close) == s
    ensures OpensThenCloses(s, open, close) ==> |Between(s, open, close)| < |s|
    ensures Trimmed(s) ==> Trimmed(Between(s, open, close))
  {
    hide At;
    match Find(s, open) {
      case None =>
      case Some(start) =>
        var content := s[start + |open|..];
        forall j | start <= j && At(s, close, j)
          ensures start + |open| <= j && At(content, close, j - start - |open|)
        {
          CloseIsLater(s, open, close, start, j);
          AtInDrop(s, close, start + |open|, j - start - |open|);
        }
        match Find(content, close) {
          case None =>
          case Some(end) =>
            AtInDrop(s, close, start + |open|, end);
            assert start <= end + start + |open|;
        }
    }
  }

  lemma {:induction false} CloseIsLater(s: string, open: string, close: string, i: int, j: int)
    requires IsMark(open) && IsMark(close) && open[1] != '/' && close[1] == '/'
    requires i <= j && At(s, open, i) && At(s, close, j)
    ensures i + |open| <= j
  {
    AtShows(s, open, i, 1);
    AtShows(s, close, j, 0);
    AtShows(s, close, j, 1);
    if i < j < i + |open| {
      AtShows(s, open, i, j - i);
    }
  }

  // ------------------------------------------------------------------ human turns

  /** No text at all, or one of the two by which a session goes on by itself. */
  ghost predicate GoesOnByItself(text: string) {
    || text == "" || text == "__auto_continue__"
    || text
       == "Continue the conversation from where it " + "left off without asking the user any "
          + "further questions. " + "Resume directly - do not acknowledge " + "the summary, do not recap what was "
          + "happening, " + "do not preface with \"I'll continue\" or " + "similar.\nPick up the last task as if "
          + "the break never happened."
  }

  lemma {:induction false} SyntheticTexts(text: string)
    ensures IsSyntheticQuery(text) <==> GoesOnByItself(text)
  {}

  /** A message of plain text without a reason is a human turn exactly if its text is none of these. */
  lemma {:induction false} PlainTurnIff(text: string)
    requires IsPlainText(text)
    ensures IsRealUserTurn(PlainUser(text, None)) <==> !GoesOnByItself(text)
  {
    PlainTextIff(text);
    SyntheticTexts(text);
    hide ExtractUserQuery, IsSyntheticQuery, IsPlainText, GoesOnByItself;
    assert [TextPart(text)][1..] == [];
  }

  /** So is such a text in the query's tags. */
  lemma {:induction false} WrappedTurnIff(text: string)
    requires SurvivesWrapping(text)
    ensures IsRealUserTurn(PlainUser("<user_query>\n" + text + "\n</user_query>", None)) <==> !GoesOnByItself(text)
  {
    RoundTripIff(text);
    SyntheticTexts(text);
    WrappedIs(text);
    hide ExtractUserQuery, IsSyntheticQuery, SurvivesWrapping, WrapUserQuery, GoesOnByItself;
    assert [TextPart(WrapUserQuery(text))][1..] == [];
  }

  lemma {:induction false} WrappedIs(text: string)
    ensures WrapUserQuery(text) == "<user_query>\n" + text + "\n</user_query>"
  {
    var open, close := "<user_query>\n", "\n</user_query>";
    assert open == OpenTag(QUERY_TAG) + ['\n'] && close == ['\n'] + CloseTag(QUERY_TAG);
  }

  /** Text without an angle bracket holds no block. */
  lemma {:induction false} NoBracketNoBlock(text: string, tag: string)
    requires Lacks(text, '<')
    ensures !HasClosedBlock(text, tag)
  {
    forall i ensures !At(text, OpenTag(tag), i) {
      AtShows(text, OpenTag(tag), i, 0);
    }
  }

  /** The auto-continue texts are no human turns, bare or wrapped. */
  lemma {:induction false} AutoContinueIsNoTurn(text: string)
    requires text in {"__auto_continue__", AUTO_CONTINUE_PROMPT}
    ensures !IsRealUserTurn(PlainUser(text, None))
    ensures !IsRealUserTurn(PlainUser("<user_query>\n" + text + "\n</user_query>", None))
  {
    AutoContinueIsPlain(text);
    assert IsSyntheticQuery(text);
    SyntheticTexts(text);
    hide IsSyntheticQuery, GoesOnByItself, Lacks, Trimmed;
    forall tag ensures !HasClosedBlock(text, tag) {
      NoBracketNoBlock(text, tag);
    }
    NoClosingTag(text);
    PlainTurnIff(text);
    WrappedTurnIff(text);
  }

  lemma {:induction false} NoClosingTag(text: string)
    requires Lacks(text, '<')
    ensures !Contains(text, CloseTag(QUERY_TAG))
  {
    forall i ensures !At(text, CloseTag(QUERY_TAG), i) {
      AtShows(text, CloseTag(QUERY_TAG), i, 0);
    }
  }

  lemma {:induction false} AutoContinueIsPlain(text: string)
    requires text in {"__auto_continue__", AUTO_CONTINUE_PROMPT}
    ensures Lacks(text, '<') && Trimmed(text)
  {
    if text == "__auto_continue__" {
      assert text[0] == '_' && text[|text| - 1] == '_';
    } else {
      var head := "Continue the conversation from where it ";
      assert head[0] == 'C';
      PromptPieces();
    }
  }

  lemma {:induction false} PromptPieces()
    ensures Lacks(AUTO_CONTINUE_PROMPT, '<')
  {
    var a := "Continue the conversation from where it ";
    var b := "left off without asking the user any ";
    var c := "further questions. ";
    var d := "Resume directly - do not acknowledge ";
    var e := "the summary, do not recap what was ";
    var f := "happening, ";
    var g := "do not preface with \"I'll continue\" or ";
    var h := "similar.\nPick up the last task as if ";
    var i := "the break never happened.";
    assert Lacks(a, '<') && Lacks(b, '<') && Lacks(c, '<') && Lacks(d, '<');
    assert Lacks(e, '<') && Lacks(f, '<') && Lacks(g, '<') && Lacks(h, '<') && Lacks(i, '<');
    hide Lacks;
    LacksConcat(a, b);
    LacksConcat(a + b, c);
    LacksConcat(a + b + c, d);
    LacksConcat(a + b + c + d, e);
    LacksConcat(a + b + c + d + e, f);
    LacksConcat(a + b + c + d + e + f, g);
    LacksConcat(a + b + c + d + e + f + g, h);
    LacksConcat(a + b + c + d + e + f + g + h, i);
  }

  lemma {:induction false} LacksConcat(a: string, b: string)
    requires Lacks(a, '<') && Lacks(b, '<')
    ensures Lacks(a + b, '<')
  {}

  /** A message with a reason never is one; a message of a human's with an image always is. */
  lemma {:induction false} ReasonsAndImages(user: UserItem, k: nat)
    ensures user.syntheticReason.Some? ==> !IsRealUserTurn(User(user))
    ensures user.syntheticReason.None? && k < |user.content| && user.content[k].ImagePart? ==>
              IsRealUserTurn(User(user))
  {
    hide ExtractUserQuery, IsSyntheticQuery;
  }
}
