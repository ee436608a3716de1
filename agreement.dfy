/**
 * How the pages and the server fit together: what the practice page
 * renders from the server's word match, how its own comparison relates
 * to that match, and where the guards on the two sides of the interface
 * agree and where they do not.
 */
module Agreement {
  import opened Wrappers
  import opened Text
  import opened Scoring
  import opened Api
  import Server
  import PracticePage
  import HomePage

  // ---------------------------------------------------------------------
  // The lower-case sets of the server's lists

  /** The lower-case forms of the words `Select` keeps are those of `ws`
      that are (or are not) among `keys`. */
  lemma SelectLowerSet(ws: seq<string>, keys: set<string>, present: bool)
    ensures LowerSet(Server.Select(ws, keys, present)) ==
      (if present then LowerSet(ws) * keys else LowerSet(ws) - keys)
  {
    var r := Server.Select(ws, keys, present);
    forall x | x in LowerSet(r)
      ensures x in (if present then LowerSet(ws) * keys else LowerSet(ws) - keys)
    {
      var w :| w in r && x == Lower(w);
      assert w in ws;
    }
    forall x | x in (if present then LowerSet(ws) * keys else LowerSet(ws) - keys)
      ensures x in LowerSet(r)
    {
      var w :| w in ws && x == Lower(w);
      assert w in r;
    }
  }

  /** In lower case, `matched` is what both texts share, `missed` what
      only the expected text has and `extra` what only the spoken text
      has. */
  lemma MatchLowerSets(expected: string, actual: string)
    ensures var m := Server.MatchWords(expected, actual);
      && LowerSet(m.matched) == LowerSet(m.expectedWords) * LowerSet(m.actualWords)
      && LowerSet(m.missed) == LowerSet(m.expectedWords) - LowerSet(m.actualWords)
      && LowerSet(m.extra) == LowerSet(m.actualWords) - LowerSet(m.expectedWords)
  {
    var m := Server.MatchWords(expected, actual);
    SelectLowerSet(m.expectedWords, LowerSet(m.actualWords), true);
    SelectLowerSet(m.expectedWords, LowerSet(m.actualWords), false);
    SelectLowerSet(m.actualWords, LowerSet(m.expectedWords), false);
  }

  // ---------------------------------------------------------------------
  // What the practice page renders from the server's match

  /** Given lists whose lower-case sets are what the server's are, the
      reply-driven colouring of `checkPronunciation` is the page's own
      comparison of the two word lists. */
  lemma ClassifyFromSets(ew: seq<string>, aw: seq<string>, matched: seq<string>, missed: seq<string>, extra: seq<string>)
    requires LowerSet(matched) == LowerSet(ew) * LowerSet(aw)
    requires LowerSet(missed) == LowerSet(ew) - LowerSet(aw)
    requires LowerSet(extra) == LowerSet(aw) - LowerSet(ew)
    ensures PracticePage.ClassifyExpected(ew, matched, missed) == PracticePage.CompareWords(ew, aw).0
    ensures PracticePage.ClassifyActual(aw, matched, extra) == PracticePage.CompareWords(ew, aw).1
  {
    var c := PracticePage.CompareWords(ew, aw);
    var e := PracticePage.ClassifyExpected(ew, matched, missed);
    var a := PracticePage.ClassifyActual(aw, matched, extra);
    forall i | 0 <= i < |ew| ensures e[i] == c.0[i] {
      assert Lower(ew[i]) in LowerSet(ew);
    }
    forall i | 0 <= i < |aw| ensures a[i] == c.1[i] {
      assert Lower(aw[i]) in LowerSet(aw);
    }
  }

  /** The page's own comparison of the server's word lists colours every
      word as the server-fed classification does. */
  lemma CompareWordsAgrees(expected: string, actual: string)
    ensures var m := Server.MatchWords(expected, actual);
      PracticePage.CompareWords(m.expectedWords, m.actualWords) ==
        (PracticePage.ClassifyExpected(m.expectedWords, m.matched, m.missed),
         PracticePage.ClassifyActual(m.actualWords, m.matched, m.extra))
  {
    var m := Server.MatchWords(expected, actual);
    MatchLowerSets(expected, actual);
    ClassifyFromSets(m.expectedWords, m.actualWords, m.matched, m.missed, m.extra);
  }

  /** Fed the server's own lists, `checkPronunciation` never leaves an
      expected word uncoloured: it is correct exactly when it was spoken
      (in any letter case), and incorrect otherwise. */
  lemma ExpectedNeverNeutral(expected: string, actual: string)
    ensures var m := Server.MatchWords(expected, actual);
      var spans := PracticePage.ClassifyExpected(m.expectedWords, m.matched, m.missed);
      forall i :: 0 <= i < |spans| ==>
        && spans[i].cls != PracticePage.Neutral
        && (spans[i].cls == PracticePage.Correct <==> Lower(m.expectedWords[i]) in LowerSet(m.actualWords))
        && (spans[i].cls == PracticePage.Incorrect <==> Lower(m.expectedWords[i]) !in LowerSet(m.actualWords))
  {
    CompareWordsAgrees(expected, actual);
  }

  /** Fed the server's own lists, a spoken word is correct exactly when
      its lower-case form is among the expected words, and extra
      otherwise; it is never uncoloured either. */
  lemma ActualNeverNeutral(expected: string, actual: string)
    ensures var m := Server.MatchWords(expected, actual);
      var spans := PracticePage.ClassifyActual(m.actualWords, m.matched, m.extra);
      forall i :: 0 <= i < |spans| ==>
        && spans[i].cls != PracticePage.Neutral
        && (spans[i].cls == PracticePage.Correct <==> Lower(m.actualWords[i]) in LowerSet(m.expectedWords))
        && (spans[i].cls == PracticePage.Extra <==> Lower(m.actualWords[i]) !in LowerSet(m.expectedWords))
  {
    CompareWordsAgrees(expected, actual);
  }

  /** A non-empty text that neither starts nor ends with whitespace is
      its own strip. */
  lemma TrimOfTrimmed(s: string)
    requires s != [] && !IsSpace(s[0]) && !IsSpace(s[|s| - 1])
    ensures Trim(s) == s
  {
    assert SkipSpaces(s, 0) == 0;
    assert BackSpaces(s, 0, |s|) == |s|;
  }

  /** On texts with no surrounding whitespace, `showWordComparison`
      renders what `checkPronunciation` renders from the server's reply
      for the same two texts. */
  lemma ShowWordComparisonAgrees(expected: string, actual: string)
    requires expected != [] && !IsSpace(expected[0]) && !IsSpace(expected[|expected| - 1])
    requires actual != [] && !IsSpace(actual[0]) && !IsSpace(actual[|actual| - 1])
    ensures var m := Server.MatchWords(expected, actual);
      PracticePage.ShowWordComparison(expected, actual) ==
        (PracticePage.ClassifyExpected(m.expectedWords, m.matched, m.missed),
         PracticePage.ClassifyActual(m.actualWords, m.matched, m.extra))
  {
    JsSplitIsWords(expected);
    JsSplitIsWords(actual);
    TrimOfTrimmed(expected);
    TrimOfTrimmed(actual);
    CompareWordsAgrees(expected, actual);
  }

  /** A step of ShowWordComparisonDiffers: the one-letter text "a" is
      one word and the strip of " a". */
  lemma OneLetterWord()
    ensures Words("a") == ["a"] && JsSplit("a") == ["a"]
    ensures Trim(" a") == "a"
  {
    assert "a"[1..] == "" && [] + ['a'] == "a";
    assert Tokens("a", []) == Tokens("", "a");
    JsSplitIsWords("a");
    var i := SkipSpaces(" a", 0);
    assert i == 1;
    assert BackSpaces(" a", i, 2) == 2;
    assert " a"[1..2] == "a";
  }

  /** A step of ShowWordComparisonDiffers: "a" and "" are their own
      lower case. */
  lemma LowerCaseWords()
    ensures Lower("a") == "a" && Lower("") == ""
  {
    assert Lower("a")[0] == LowerChar('a');
  }

  /** Where they part: for an expected text with leading whitespace,
      `showWordComparison` renders an empty word the server never
      produces. */
  lemma ShowWordComparisonDiffers()
    ensures PracticePage.ShowWordComparison(" a", "a").0 ==
      [PracticePage.Span("", PracticePage.Incorrect), PracticePage.Span("a", PracticePage.Correct)]
    ensures Server.MatchWords(" a", "a").expectedWords == ["a"]
  {
    OneLetterWord();
    JsSplitKeepsEmptyPieces();
    LeadingEmptyWord();
  }

  /** A step of ShowWordComparisonDiffers: the page's comparison of the
      pieces of " a" with those of "a". */
  lemma LeadingEmptyWord()
    ensures PracticePage.CompareWords(["", "a"], ["a"]).0 ==
      [PracticePage.Span("", PracticePage.Incorrect), PracticePage.Span("a", PracticePage.Correct)]
  {
    LowerCaseWords();
    var keys := LowerSet(["a"]);
    assert keys == {"a"};
    var c := PracticePage.CompareWords(["", "a"], ["a"]);
    assert c.0[0] == PracticePage.Span("", PracticePage.Incorrect);
    assert c.0[1] == PracticePage.Span("a", PracticePage.Correct);
  }

  // ---------------------------------------------------------------------
  // Guards on both sides

  /** The home page sends a script exactly when the server accepts its
      title and content. */
  lemma CreateScriptGuardsAgree(title: string, content: string)
    ensures HomePage.CreateScriptRequest(title, content).Some? <==> Truthy(Some(title)) && Truthy(Some(content))
  {
  }

  /** The pronunciation guards of the two sides differ: an empty capture
      text passes the practice page's guard, and the server rejects it;
      a pronunciation sent before any translation was graded carries no
      practice id, and the server rejects that too. */
  lemma PronunciationGuardsDiffer(db: map<int, Server.PracticeRecord>, practiceId: Option<int>, text: string)
    ensures PracticePage.IsCaptured("")
    ensures HoldsSpeech("", HomePage.Placeholder)
    ensures Server.PracticePronunciation(db, practiceId, Some("")).Failure?
    ensures Server.PracticePronunciation(db, None, Some(text)).Failure?
  {
    assert !StartsWith("", ErrorPrefix);
    assert !Truthy(Some(""));
  }
}
