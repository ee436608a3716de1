/**
 * The request handlers of the Flask server that hold logic: building the
 * sentence rows of a script, matching a spoken text against the user's
 * translation word by word, shortening texts for the progress summary,
 * and the guards that reject empty input. The database is a value given
 * to, and returned by, the handlers; the sentence tokeniser and the
 * translation model are outside the model, so their outputs are inputs.
 */
module Server {
  import opened Wrappers
  import opened Text
  import opened Scoring
  import opened Api

  /** The error replies: 400 with a message, and the 500 that
      `practice_pronunciation` answers when the 404 raised by
      `get_or_404` inside its `try` is caught by its `except Exception`
      (the reply's error text is the exception's message, which this model
      does not spell out). */
  datatype ServerError = BadRequest(message: string) | InternalError

  /** The messages of the two 400 replies. */
  const ScriptFieldsRequired: string := "Title and content are required"
  const PronunciationFieldsRequired: string := "practice_id and pronunciation_text are required"

  // ---------------------------------------------------------------------
  // Scripts: create_script and update_script

  /** A `Sentence` row as the server stores it (database keys left out). */
  datatype SentenceRecord = SentenceRecord(originalText: string, orderIndex: nat, modelTranslation: string)

  /** The row for the i-th tokenised sentence: its stripped text, its
      position, and the i-th machine translation, or `''` when the
      translator returned fewer results. */
  function RecordAt(sentences: seq<string>, translations: seq<string>, i: nat): SentenceRecord
    requires i < |sentences|
  {
    SentenceRecord(Trim(sentences[i]), i, if i < |translations| then translations[i] else "")
  }

  /** The loop over `enumerate(sentences)` that builds one row per
      sentence. */
  method BuildSentenceRecords(sentences: seq<string>, translations: seq<string>) returns (records: seq<SentenceRecord>)
    ensures |records| == |sentences|
    ensures forall i :: 0 <= i < |sentences| ==> records[i] == RecordAt(sentences, translations, i)
  {
    records := [];
    for i := 0 to |sentences|
      invariant |records| == i
      invariant forall k :: 0 <= k < i ==> records[k] == RecordAt(sentences, translations, k)
    {
      var translation := if i < |translations| then translations[i] else "";
      records := records + [SentenceRecord(Trim(sentences[i]), i, translation)];
    }
  }

  /** A script as the server stores it. */
  datatype ScriptRecord = ScriptRecord(title: string, sentences: seq<SentenceRecord>)

  /** The reply of `POST /api/scripts` with the script it stores. */
  datatype Created = Created(script: ScriptRecord, sentencesCount: nat, autoTranslation: bool)

  /** `create_script`. `sentences` is what the tokeniser makes of
      `content` and `translations` what the translator makes of
      `sentences`. An empty or missing title or content is rejected before
      anything is stored. */
  method CreateScript(title: Option<string>, content: Option<string>, sentences: seq<string>, translations: seq<string>)
    returns (r: Result<Created, ServerError>)
    ensures r.Failure? <==> !Truthy(title) || !Truthy(content)
    ensures r.Failure? ==> r.error == BadRequest(ScriptFieldsRequired)
    ensures r.Success? ==>
      && r.value.script.title == title.value
      && r.value.sentencesCount == |r.value.script.sentences| == |sentences|
      && r.value.autoTranslation
      && forall i :: 0 <= i < |sentences| ==> r.value.script.sentences[i] == RecordAt(sentences, translations, i)
  {
    if !Truthy(title) || !Truthy(content) {
      return Failure(BadRequest(ScriptFieldsRequired));
    }
    var records := BuildSentenceRecords(sentences, translations);
    r := Success(Created(ScriptRecord(title.value, records), |sentences|, true));
  }

  /** `update_script`: `title` and `content` are `None` when the request
      leaves the key out. A given title replaces the old one; a given
      content replaces every sentence row by rows built from its
      tokenisation, with no check that it is non-empty. */
  method UpdateScript(stored: ScriptRecord, title: Option<string>, content: Option<string>, sentences: seq<string>, translations: seq<string>)
    returns (updated: ScriptRecord)
    ensures updated.title == title.GetOr(stored.title)
    ensures content.None? ==> updated.sentences == stored.sentences
    ensures content.Some? ==>
      && |updated.sentences| == |sentences|
      && forall i :: 0 <= i < |sentences| ==> updated.sentences[i] == RecordAt(sentences, translations, i)
  {
    var rows := stored.sentences;
    if content.Some? {
      rows := BuildSentenceRecords(sentences, translations);
    }
    updated := ScriptRecord(title.GetOr(stored.title), rows);
  }

  // ---------------------------------------------------------------------
  // Word matching: practice_pronunciation

  /** `[w for w in ws if (w.lower() in keys) == present]`: the words of
      `ws`, in order, whose lower-case form is (or, with `present`
      false, is not) among `keys`. */
  function Select(ws: seq<string>, keys: set<string>, present: bool): (r: seq<string>)
    ensures |r| <= |ws|
    ensures forall w :: w in r <==> w in ws && (Lower(w) in keys) == present
  {
    if ws == [] then []
    else (if (Lower(ws[0]) in keys) == present then [ws[0]] else []) + Select(ws[1..], keys, present)
  }

  /** The word-level comparison the server computes. */
  datatype WordMatch = WordMatch(
    expectedWords: seq<string>,
    actualWords: seq<string>,
    matched: seq<string>,
    missed: seq<string>,
    extra: seq<string>,
    score: Score)

  /** The matching step of `practice_pronunciation`: split both stripped
      texts into words, keep the expected words that were spoken
      (`matched`) and those that were not (`missed`), the spoken words
      that were not expected (`extra`), and score matched over expected (0
      when nothing was expected). */
  function MatchWords(expected: string, actual: string): (m: WordMatch)
    ensures m.expectedWords == Words(Trim(expected)) && m.actualWords == Words(Trim(actual))
    ensures m.score == if m.expectedWords == [] then Fraction(0, 1) else Fraction(|m.matched|, |m.expectedWords|)
  {
    var expectedWords := Words(Trim(expected));
    var actualWords := Words(Trim(actual));
    var expectedSet := LowerSet(expectedWords);
    var actualSet := LowerSet(actualWords);
    var matched := Select(expectedWords, actualSet, true);
    var missed := Select(expectedWords, actualSet, false);
    var extra := Select(actualWords, expectedSet, false);
    var score := if expectedWords == [] then Fraction(0, 1) else Fraction(|matched|, |expectedWords|);
    WordMatch(expectedWords, actualWords, matched, missed, extra, score)
  }

  /** `a` keeps some of the elements of `b`, in their order. */
  ghost predicate IsSubsequence(a: seq<string>, b: seq<string>)
    decreases |b|
  {
    a == [] || (b != [] && ((a[0] == b[0] && IsSubsequence(a[1..], b[1..])) || IsSubsequence(a, b[1..])))
  }

  lemma {:induction false} SelectIsSubsequence(ws: seq<string>, keys: set<string>, present: bool)
    ensures IsSubsequence(Select(ws, keys, present), ws)
  {
    if ws != [] {
      SelectIsSubsequence(ws[1..], keys, present);
      var rest := Select(ws[1..], keys, present);
      if (Lower(ws[0]) in keys) == present {
        assert Select(ws, keys, present) == [ws[0]] + rest;
        assert ([ws[0]] + rest)[1..] == rest;
      } else {
        assert Select(ws, keys, present) == rest;
      }
    }
  }

  /** Selecting with `present` true and false splits `ws` in two. */
  lemma {:induction false} SelectSplits(ws: seq<string>, keys: set<string>)
    ensures |Select(ws, keys, true)| + |Select(ws, keys, false)| == |ws|
    ensures multiset(Select(ws, keys, true)) + multiset(Select(ws, keys, false)) == multiset(ws)
  {
    if ws != [] {
      SelectSplits(ws[1..], keys);
      assert ws == [ws[0]] + ws[1..];
    }
  }

  /** A word occurs in a selection as often as in `ws` when it passes
      the test, and not at all otherwise. */
  lemma {:induction false} SelectCount(ws: seq<string>, keys: set<string>, present: bool, w: string)
    ensures multiset(Select(ws, keys, present))[w] == if (Lower(w) in keys) == present then multiset(ws)[w] else 0
  {
    if ws != [] {
      SelectCount(ws[1..], keys, present, w);
      assert ws == [ws[0]] + ws[1..];
    }
  }

  /** `matched` and `missed` partition the expected words: both keep the
      order of `expected_words`, together they hold every expected word
      exactly as often as it occurs, and a word is matched exactly when
      its lower-case form was spoken. */
  lemma MatchedMissedPartition(expected: string, actual: string)
    ensures var m := MatchWords(expected, actual);
      && IsSubsequence(m.matched, m.expectedWords)
      && IsSubsequence(m.missed, m.expectedWords)
      && |m.matched| + |m.missed| == |m.expectedWords|
      && multiset(m.matched) + multiset(m.missed) == multiset(m.expectedWords)
      && (forall w :: w in m.matched <==> w in m.expectedWords && Lower(w) in LowerSet(m.actualWords))
      && (forall w :: w in m.missed <==> w in m.expectedWords && Lower(w) !in LowerSet(m.actualWords))
  {
    var m := MatchWords(expected, actual);
    var keys := LowerSet(m.actualWords);
    SelectIsSubsequence(m.expectedWords, keys, true);
    SelectIsSubsequence(m.expectedWords, keys, false);
    SelectSplits(m.expectedWords, keys);
  }

  /** `extra` is the spoken words, in order, whose lower-case form is not
      among the expected words. */
  lemma ExtraWords(expected: string, actual: string)
    ensures var m := MatchWords(expected, actual);
      && IsSubsequence(m.extra, m.actualWords)
      && (forall w :: w in m.extra <==> w in m.actualWords && Lower(w) !in LowerSet(m.expectedWords))
      && (forall w :: multiset(m.extra)[w] ==
            if Lower(w) in LowerSet(m.expectedWords) then 0 else multiset(m.actualWords)[w])
  {
    var m := MatchWords(expected, actual);
    var keys := LowerSet(m.expectedWords);
    SelectIsSubsequence(m.actualWords, keys, false);
    forall w ensures multiset(m.extra)[w] == if Lower(w) in keys then 0 else multiset(m.actualWords)[w] {
      SelectCount(m.actualWords, keys, false, w);
    }
  }

  /** No word of either list is empty or holds whitespace. */
  lemma WordsAreTokens(expected: string, actual: string)
    ensures var m := MatchWords(expected, actual);
      (forall k :: 0 <= k < |m.expectedWords| ==> IsWord(m.expectedWords[k])) &&
      (forall k :: 0 <= k < |m.actualWords| ==> IsWord(m.actualWords[k]))
  {
  }

  /** The score lies in [0, 1]; it is 1 exactly when something was
      expected and no expected word was missed, and 0 when nothing was
      expected. */
  lemma ScoreInUnitRange(expected: string, actual: string)
    ensures var m := MatchWords(expected, actual);
      && InUnitRange(m.score)
      && (m.expectedWords == [] ==> m.score.num == 0)
      && (m.score.num == m.score.den <==> m.expectedWords != [] && m.missed == [])
  {
    var m := MatchWords(expected, actual);
    SelectSplits(m.expectedWords, LowerSet(m.actualWords));
  }

  /** The lower-case set of a word list depends only on the lower-case words. */
  lemma LowerSetOfLowerEach(ws: seq<string>, vs: seq<string>)
    requires LowerEach(ws) == LowerEach(vs)
    ensures LowerSet(ws) == LowerSet(vs)
  {
    forall x | x in LowerSet(ws) ensures x in LowerSet(vs) {
      var w :| w in ws && x == Lower(w);
      var k :| 0 <= k < |ws| && ws[k] == w;
      assert LowerEach(vs)[k] == Lower(vs[k]);
    }
    forall x | x in LowerSet(vs) ensures x in LowerSet(ws) {
      var w :| w in vs && x == Lower(w);
      var k :| 0 <= k < |vs| && vs[k] == w;
      assert LowerEach(ws)[k] == Lower(ws[k]);
    }
  }

  /** One step of Select, seen through LowerEach. */
  lemma SelectStepOfLower(ws: seq<string>, keys: set<string>, present: bool)
    requires ws != []
    ensures LowerEach(Select(ws, keys, present)) ==
      (if (Lower(ws[0]) in keys) == present then [Lower(ws[0])] else []) + LowerEach(Select(ws[1..], keys, present))
  {
    var head: seq<string> := if (Lower(ws[0]) in keys) == present then [ws[0]] else [];
    var rest := Select(ws[1..], keys, present);
    assert Select(ws, keys, present) == head + rest;
    LowerEachAppend(head, rest);
    assert LowerEach(head) == (if (Lower(ws[0]) in keys) == present then [Lower(ws[0])] else []);
  }

  lemma {:induction false} SelectOfLowerEach(ws: seq<string>, vs: seq<string>, keys: set<string>, present: bool)
    requires LowerEach(ws) == LowerEach(vs)
    ensures LowerEach(Select(ws, keys, present)) == LowerEach(Select(vs, keys, present))
  {
    if ws != [] {
      assert |vs| == |ws|;
      assert LowerEach(ws[1..]) == LowerEach(ws)[1..];
      assert LowerEach(vs[1..]) == LowerEach(vs)[1..];
      assert Lower(ws[0]) == LowerEach(ws)[0] == Lower(vs[0]);
      SelectOfLowerEach(ws[1..], vs[1..], keys, present);
      SelectStepOfLower(ws, keys, present);
      SelectStepOfLower(vs, keys, present);
    } else {
      assert vs == [];
    }
  }

  /** The words of two texts that differ only in letter case differ only
      in letter case. */
  lemma WordsIgnoreCase(s: string, t: string)
    requires Lower(s) == Lower(t)
    ensures LowerEach(Words(Trim(s))) == LowerEach(Words(Trim(t)))
  {
    TrimOfLower(s);
    TrimOfLower(t);
    WordsOfLower(Trim(s));
    WordsOfLower(Trim(t));
  }

  /** Matching ignores letter case: changing the case of letters in
      either text changes the three word lists only in letter case (the
      same positions are matched, missed and extra) and leaves the score
      as it is. */
  lemma MatchIgnoresCase(expected: string, actual: string, expected': string, actual': string)
    requires Lower(expected) == Lower(expected') && Lower(actual) == Lower(actual')
    ensures var m, m' := MatchWords(expected, actual), MatchWords(expected', actual');
      && LowerEach(m.matched) == LowerEach(m'.matched)
      && LowerEach(m.missed) == LowerEach(m'.missed)
      && LowerEach(m.extra) == LowerEach(m'.extra)
      && m.score == m'.score
  {
    var m, m' := MatchWords(expected, actual), MatchWords(expected', actual');
    WordsIgnoreCase(expected, expected');
    WordsIgnoreCase(actual, actual');
    LowerSetOfLowerEach(m.expectedWords, m'.expectedWords);
    LowerSetOfLowerEach(m.actualWords, m'.actualWords);
    var e, a := LowerSet(m.expectedWords), LowerSet(m.actualWords);
    SelectOfLowerEach(m.expectedWords, m'.expectedWords, a, true);
    SelectOfLowerEach(m.expectedWords, m'.expectedWords, a, false);
    SelectOfLowerEach(m.actualWords, m'.actualWords, e, false);
    assert |m.matched| == |LowerEach(m.matched)| == |LowerEach(m'.matched)| == |m'.matched|;
    assert |m.expectedWords| == |m'.expectedWords|;
  }

  /** A stored practice attempt (`PracticeSession`). */
  datatype PracticeRecord = PracticeRecord(
    sentenceId: int,
    userTranslation: Option<string>,
    translationScore: Score,
    pronunciationText: Option<string>,
    pronunciationScore: Option<Score>)

  /** `practice_pronunciation`: the request's `practice_id` and
      `pronunciation_text` are `None` when missing. A missing or zero id
      or a missing or empty text is rejected before the attempt is looked
      up; an unknown id ends in the handler's 500; otherwise the reply carries the word
      match and the attempt stores the stripped text and the score. */
  function PracticePronunciation(db: map<int, PracticeRecord>, practiceId: Option<int>, text: Option<string>)
    : (r: Result<(PronunciationReply, map<int, PracticeRecord>), ServerError>)
    ensures (practiceId.None? || practiceId.value == 0 || !Truthy(text)) <==> r == Failure(BadRequest(PronunciationFieldsRequired))
    ensures r == Failure(InternalError) <==> practiceId.Some? && practiceId.value != 0 && Truthy(text) && practiceId.value !in db
    ensures r.Success? <==> practiceId.Some? && practiceId.value != 0 && Truthy(text) && practiceId.value in db
    ensures r.Success? ==>
      var id := practiceId.value;
      var m := MatchWords(db[id].userTranslation.GetOr(""), text.value);
      var (reply, db') := r.value;
      && reply.expectedWords == m.expectedWords && reply.actualWords == m.actualWords
      && reply.matched == m.matched && reply.missed == m.missed && reply.extra == m.extra
      && reply.score == m.score
      && reply.userTranslation == Trim(db[id].userTranslation.GetOr(""))
      && reply.pronunciationText == Trim(text.value)
      && db'.Keys == db.Keys
      && db'[id] == db[id].(pronunciationText := Some(Trim(text.value)), pronunciationScore := Some(m.score))
      && forall k :: k in db && k != id ==> db'[k] == db[k]
  {
    if practiceId.None? || practiceId.value == 0 || !Truthy(text) then
      Failure(BadRequest(PronunciationFieldsRequired))
    else if practiceId.value !in db then
      Failure(InternalError)
    else
      var id := practiceId.value;
      var practice := db[id];
      var expected := Trim(practice.userTranslation.GetOr(""));
      var actual := Trim(text.value);
      MatchOfStripped(practice.userTranslation.GetOr(""), text.value);
      var m := MatchWords(expected, actual);
      var reply := PronunciationReply(m.expectedWords, m.actualWords, m.matched, m.missed, m.extra, m.score, expected, actual);
      Success((reply, db[id := practice.(pronunciationText := Some(actual), pronunciationScore := Some(m.score))]))
  }

  /** Matching the stripped texts is matching the texts. */
  lemma MatchOfStripped(expected: string, actual: string)
    ensures MatchWords(Trim(expected), Trim(actual)) == MatchWords(expected, actual)
  {
    TrimTwice(expected);
    TrimTwice(actual);
  }

  /** Stripping a stripped text changes nothing. */
  lemma TrimTwice(s: string)
    ensures Trim(Trim(s)) == Trim(s)
  {
    var t := Trim(s);
    if t != [] {
      assert SkipSpaces(t, 0) == 0;
      assert BackSpaces(t, 0, |t|) == |t|;
    }
  }

  // ---------------------------------------------------------------------
  // get_progress and search_sentences

  /** The texts of the recent-session list: at most 50 characters are
      kept, and `'...'` marks a cut. */
  function Truncate(s: string): (r: string)
    ensures |r| <= 53
    ensures |s| <= 50 ==> r == s
    ensures |s| > 50 ==> |r| == 53 && r[..50] == s[..50] && r[50..] == "..."
  {
    if |s| > 50 then s[..50] + "..." else s
  }

  /** `search_sentences`: `matches` are the sentences the database's
      `LIKE '%query%'` filter returns, in the database's order. An empty query answers
      an empty list without a lookup; otherwise at most the first 20
      matches are returned. */
  function SearchSentences(query: string, matches: seq<SearchHit>): (r: seq<SearchHit>)
    ensures query == "" ==> r == []
    ensures query != "" ==> |r| == if |matches| < 20 then |matches| else 20
    ensures r == matches[..|r|]
  {
    if query == "" then [] else if |matches| < 20 then matches else matches[..20]
  }
}
