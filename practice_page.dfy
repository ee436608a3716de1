/**
 * The practice page (`practice.js`): the richer of the two practice
 * controllers. A session walks through the sentences of a script; for
 * each one the learner enters a translation, gets it scored, may say it
 * aloud, and gets the spoken words compared with the expected ones. The
 * page's module-level variables and the parts of the page that the logic
 * reads back become the fields of `Page`; each user action or engine
 * event becomes a method. Server replies are method inputs, and the
 * request a method would send is its result (`None`: nothing is sent).
 */
module PracticePage {
  import opened Wrappers
  import opened Text
  import opened Scoring
  import opened Api

  /** The capture text before anything was said. */
  const Placeholder: string := "Click the microphone button and say your translation..."

  /** Which section of the practice interface is showing. */
  datatype Stage = Setup | TranslationEntry | TranslationResult | PronunciationEntry | PronunciationResult | Completed

  /** Which radio button of the pronunciation target is checked. */
  datatype TargetChoice = UserChoice | ModelChoice | NoChoice

  /** One entry of a recognition event: `results[i].isFinal` and
      `results[i][0].transcript`. */
  datatype SpeechResult = SpeechResult(isFinal: bool, transcript: string)

  /** The CSS class of a word span: `word-correct`, `word-incorrect`,
      `word-extra`, or none. */
  datatype WordClass = Correct | Incorrect | Extra | Neutral

  /** One rendered word. */
  datatype Span = Span(text: string, cls: WordClass)

  // ---------------------------------------------------------------------
  // Speech results

  /** The transcripts of the results whose `isFinal` equals `final`,
      concatenated in order. */
  function Joined(results: seq<SpeechResult>, final: bool): string {
    if results == [] then ""
    else
      var last := results[|results| - 1];
      Joined(results[..|results| - 1], final) + (if last.isFinal == final then last.transcript else "")
  }

  /** The loop of `recognition.onresult` that sorts the transcripts of an
      event into the final text and the interim text. */
  method FoldResults(results: seq<SpeechResult>) returns (finalText: string, interimText: string)
    ensures finalText == Joined(results, true)
    ensures interimText == Joined(results, false)
  {
    finalText, interimText := "", "";
    for i := 0 to |results|
      invariant finalText == Joined(results[..i], true)
      invariant interimText == Joined(results[..i], false)
    {
      assert results[..i + 1][..i] == results[..i];
      if results[i].isFinal {
        finalText := finalText + results[i].transcript;
      } else {
        interimText := interimText + results[i].transcript;
      }
    }
    assert results[..|results|] == results;
  }

  /** Folding an event in two parts is folding it whole. */
  lemma {:induction false} JoinedAppend(a: seq<SpeechResult>, b: seq<SpeechResult>, final: bool)
    ensures Joined(a + b, final) == Joined(a, final) + Joined(b, final)
    decreases |b|
  {
    if b == [] {
      assert a + b == a;
    } else {
      var b' := b[..|b| - 1];
      assert (a + b)[..|a + b| - 1] == a + b';
      JoinedAppend(a, b', final);
    }
  }

  /** The final text is empty exactly when every final result has an
      empty transcript (so interim text is shown instead). */
  lemma {:induction false} JoinedEmpty(results: seq<SpeechResult>, final: bool)
    ensures Joined(results, final) == "" <==>
              forall i :: 0 <= i < |results| && results[i].isFinal == final ==> results[i].transcript == ""
  {
    if results != [] {
      var front := results[..|results| - 1];
      JoinedEmpty(front, final);
      assert forall i :: 0 <= i < |front| ==> front[i] == results[i];
    }
  }

  /** A capture text that holds something the learner said: not this
      page's placeholder, not the listening notice, not an error report. */
  predicate IsCaptured(speech: string) {
    HoldsSpeech(speech, Placeholder)
  }

  // ---------------------------------------------------------------------
  // The pronunciation target

  /** The radio button `startPronunciation` checks: the learner's
      translation if it is not blank, else the model translation if it is
      not blank, else neither. */
  function DefaultChoice(userText: string, modelText: string): TargetChoice {
    if Trim(userText) != "" then UserChoice
    else if Trim(modelText) != "" then ModelChoice
    else NoChoice
  }

  /** The sentence `updatePronunciationSentence` shows: the learner's
      translation when its button is checked, else the model text. */
  function TargetText(choice: TargetChoice, userText: string, modelText: string): string {
    if choice == UserChoice then userText else modelText
  }

  /** The default target is the learner's translation when it holds a
      non-whitespace character, else the model translation when that does,
      and the target shown is blank only when both are. */
  lemma DefaultTarget(userText: string, modelText: string)
    ensures var c := DefaultChoice(userText, modelText);
      && (!IsBlank(userText) ==> c == UserChoice && TargetText(c, userText, modelText) == userText)
      && (IsBlank(userText) && !IsBlank(modelText) ==> c == ModelChoice && TargetText(c, userText, modelText) == modelText)
      && (IsBlank(userText) && IsBlank(modelText) ==> c == NoChoice && IsBlank(TargetText(c, userText, modelText)))
  {
  }

  // ---------------------------------------------------------------------
  // Word comparison

  /** The class of an expected word: matched wins over missed. */
  function ExpectedClass(w: string, matchedSet: set<string>, missedSet: set<string>): WordClass {
    if Lower(w) in matchedSet then Correct else if Lower(w) in missedSet then Incorrect else Neutral
  }

  /** The class of a spoken word: matched wins over extra. */
  function ActualClass(w: string, matchedSet: set<string>, extraSet: set<string>): WordClass {
    if Lower(w) in matchedSet then Correct else if Lower(w) in extraSet then Extra else Neutral
  }

  /** The expected words of a pronunciation reply as `checkPronunciation`
      renders them: one span per word, in order, with the word's own
      text, classed by case-insensitive membership in the reply's
      `matched` and `missed` lists. */
  function ClassifyExpected(words: seq<string>, matched: seq<string>, missed: seq<string>): (r: seq<Span>)
    ensures |r| == |words|
    ensures forall i :: 0 <= i < |words| ==> r[i].text == words[i]
    ensures forall i :: 0 <= i < |words| ==>
      && (r[i].cls == Correct <==> Lower(words[i]) in LowerSet(matched))
      && (r[i].cls == Incorrect <==> Lower(words[i]) !in LowerSet(matched) && Lower(words[i]) in LowerSet(missed))
      && (r[i].cls == Neutral <==> Lower(words[i]) !in LowerSet(matched) + LowerSet(missed))
  {
    var matchedSet, missedSet := LowerSet(matched), LowerSet(missed);
    seq(|words|, i requires 0 <= i < |words| => Span(words[i], ExpectedClass(words[i], matchedSet, missedSet)))
  }

  /** The spoken words of a pronunciation reply as `checkPronunciation`
      renders them, classed by membership in `matched` and `extra`. */
  function ClassifyActual(words: seq<string>, matched: seq<string>, extra: seq<string>): (r: seq<Span>)
    ensures |r| == |words|
    ensures forall i :: 0 <= i < |words| ==> r[i].text == words[i]
    ensures forall i :: 0 <= i < |words| ==>
      && (r[i].cls == Correct <==> Lower(words[i]) in LowerSet(matched))
      && (r[i].cls == Extra <==> Lower(words[i]) !in LowerSet(matched) && Lower(words[i]) in LowerSet(extra))
      && (r[i].cls == Neutral <==> Lower(words[i]) !in LowerSet(matched) + LowerSet(extra))
  {
    var matchedSet, extraSet := LowerSet(matched), LowerSet(extra);
    seq(|words|, i requires 0 <= i < |words| => Span(words[i], ActualClass(words[i], matchedSet, extraSet)))
  }

  /** `showWordComparison` on word lists: the page's own comparison,
      without the server's lists. An expected word is correct when it
      was spoken and incorrect otherwise; a spoken word is correct when it
      was expected and extra otherwise. */
  function CompareWords(expectedWords: seq<string>, actualWords: seq<string>): (r: (seq<Span>, seq<Span>))
    ensures |r.0| == |expectedWords| && |r.1| == |actualWords|
    ensures forall i :: 0 <= i < |expectedWords| ==>
      r.0[i] == Span(expectedWords[i], if Lower(expectedWords[i]) in LowerSet(actualWords) then Correct else Incorrect)
    ensures forall i :: 0 <= i < |actualWords| ==>
      r.1[i] == Span(actualWords[i], if Lower(actualWords[i]) in LowerSet(expectedWords) then Correct else Extra)
  {
    var actualSet, expectedSet := LowerSet(actualWords), LowerSet(expectedWords);
    (seq(|expectedWords|, i requires 0 <= i < |expectedWords| =>
       Span(expectedWords[i], if Lower(expectedWords[i]) in actualSet then Correct else Incorrect)),
     seq(|actualWords|, i requires 0 <= i < |actualWords| =>
       Span(actualWords[i], if Lower(actualWords[i]) in expectedSet then Correct else Extra)))
  }

  /** `showWordComparison(expected, actual)`: both texts are cut with
      `split(/\s+/)`, so each area shows at least one span, one per piece,
      even for an empty text. */
  function ShowWordComparison(expected: string, actual: string): (r: (seq<Span>, seq<Span>))
    ensures |r.0| == |JsSplit(expected)| >= 1 && |r.1| == |JsSplit(actual)| >= 1
    ensures forall k :: 0 <= k < |r.0| ==> r.0[k].text == JsSplit(expected)[k]
    ensures forall k :: 0 <= k < |r.1| ==> r.1[k].text == JsSplit(actual)[k]
  {
    CompareWords(JsSplit(expected), JsSplit(actual))
  }

  // ---------------------------------------------------------------------
  // The page

  class Page {
    /** `currentSentences` and `currentSentenceIndex`. */
    var sentences: seq<Sentence>
    var index: nat
    /** `currentPracticeId`, `currentSentenceId`, `currentModelTranslation`. */
    var practiceId: Option<int>
    var sentenceId: Option<int>
    var modelTranslation: Option<string>
    /** `isListening`, and whether the browser offers a recogniser. */
    var listening: bool
    const hasRecognizer: bool
    var stage: Stage
    /** The sentence shown (`#originalSentence`) and the translation box. */
    var shownSentence: string
    var translationInput: string
    /** The translation result: its score, whether the page offers to add
        a missing model translation, and the AI feedback shown. */
    var translationView: Option<ScoreView>
    var offerModelTranslation: bool
    var feedback: Option<string>
    /** The pronunciation target: the two radio texts, the checked one and
        the sentence shown. */
    var userOptionText: string
    var modelOptionText: string
    var choice: TargetChoice
    var target: string
    /** The capture text (`#speechResult`). */
    var speechResult: string
    /** The pronunciation result. */
    var pronunciationView: Option<ScoreView>
    var expectedSpans: seq<Span>
    var actualSpans: seq<Span>

    /** The completion section shows exactly once the index has run past
        the last sentence; the sentence-scoped sections show only while
        it points at a sentence. */
    ghost predicate Valid()
      reads this
    {
      && (stage == Completed ==> index >= |sentences|)
      && (stage.TranslationEntry? || stage.TranslationResult? || stage.PronunciationEntry? ==> index < |sentences|)
    }

    constructor (hasRecognizer: bool)
      ensures Valid()
      ensures this.hasRecognizer == hasRecognizer
      ensures sentences == [] && index == 0 && stage == Setup && !listening
      ensures practiceId == None && sentenceId == None && modelTranslation == None
    {
      this.hasRecognizer := hasRecognizer;
      sentences, index := [], 0;
      practiceId, sentenceId, modelTranslation := None, None, None;
      listening := false;
      stage := Setup;
      shownSentence, translationInput := "", "";
      translationView, offerModelTranslation, feedback := None, false, None;
      userOptionText, modelOptionText, choice, target := "", "", NoChoice, "";
      speechResult := "";
      pronunciationView, expectedSpans, actualSpans := None, [], [];
    }

    /** `showCurrentSentence`: past the last sentence it shows the
        completion message; otherwise it shows the current sentence with an
        empty translation box. */
    method ShowCurrentSentence()
      modifies this`stage, this`shownSentence, this`translationInput
      ensures Valid()
      ensures index >= |sentences| ==> stage == Completed && shownSentence == old(shownSentence) && translationInput == old(translationInput)
      ensures index < |sentences| ==>
        stage == TranslationEntry && shownSentence == sentences[index].originalText && translationInput == ""
    {
      if index >= |sentences| {
        stage := Completed;
        return;
      }
      shownSentence := sentences[index].originalText;
      translationInput := "";
      stage := TranslationEntry;
    }

    /** `startPractice`. With no script chosen nothing is requested; when
        the request fails or the script has no sentences the session is
        left as it was; otherwise the sentences are stored and the first
        one is shown. */
    method StartPractice(scriptId: string, mode: string, reply: Option<seq<Sentence>>) returns (issued: Option<Request>)
      requires Valid()
      modifies this`sentences, this`index, this`stage, this`shownSentence, this`translationInput
      ensures Valid()
      ensures scriptId == "" ==> issued == None
      ensures scriptId != "" ==> issued == Some(FetchSentences(scriptId, mode))
      ensures scriptId == "" || reply.None? || reply.value == [] ==> unchanged(this)
      ensures scriptId != "" && reply.Some? && reply.value != [] ==>
        && sentences == reply.value && index == 0
        && stage == TranslationEntry && shownSentence == sentences[0].originalText && translationInput == ""
    {
      if scriptId == "" {
        return None;
      }
      issued := Some(FetchSentences(scriptId, mode));
      if reply.None? || reply.value == [] {
        return;
      }
      sentences := reply.value;
      index := 0;
      ShowCurrentSentence();
    }

    /** `nextSentence`: the index moves on by exactly one, then the
        current sentence or the completion message is shown. */
    method NextSentence()
      requires Valid()
      modifies this`index, this`stage, this`shownSentence, this`translationInput
      ensures Valid()
      ensures index == old(index) + 1
      ensures stage == Completed <==> index >= |sentences|
      ensures index < |sentences| ==>
        stage == TranslationEntry && shownSentence == sentences[index].originalText && translationInput == ""
    {
      index := index + 1;
      ShowCurrentSentence();
    }

    /** The learner types into the translation box. */
    method EditTranslation(text: string)
      modifies this`translationInput
      ensures translationInput == text
    {
      translationInput := text;
    }

    /** `checkTranslation`. A blank translation is refused before anything
        is sent, and so is a call with no current sentence. Otherwise the
        sentence's id is remembered and the translation sent as typed; a
        failed request changes nothing more, and a reply stores the
        practice id and model translation and shows the graded score. */
    method CheckTranslation(reply: Option<TranslationReply>) returns (issued: Option<Request>)
      requires Valid()
      modifies this`sentenceId, this`practiceId, this`modelTranslation, this`offerModelTranslation,
               this`translationView, this`feedback, this`stage
      ensures Valid()
      ensures old(stage) == TranslationEntry && !IsBlank(translationInput) ==>
        issued == Some(SubmitTranslation(sentences[index].id, translationInput))
      ensures IsBlank(translationInput) || index >= |sentences| ==> issued == None && unchanged(this)
      ensures !IsBlank(translationInput) && index < |sentences| ==>
        && issued == Some(SubmitTranslation(sentences[index].id, translationInput))
        && sentenceId == Some(sentences[index].id)
      ensures !IsBlank(translationInput) && index < |sentences| && reply.None? ==>
        && practiceId == old(practiceId) && modelTranslation == old(modelTranslation)
        && offerModelTranslation == old(offerModelTranslation) && translationView == old(translationView)
        && feedback == old(feedback) && stage == old(stage)
      ensures !IsBlank(translationInput) && index < |sentences| && reply.Some? ==>
        && practiceId == Some(reply.value.practiceId)
        && modelTranslation == reply.value.modelTranslation
        && offerModelTranslation == !Truthy(reply.value.modelTranslation)
        && translationView == Some(ViewOf(reply.value.similarity))
        && feedback == (if Truthy(reply.value.aiFeedback) then reply.value.aiFeedback else None)
        && stage == TranslationResult
    {
      if Trim(translationInput) == "" {
        return None;
      }
      if index >= |sentences| {
        // `currentSentences[currentSentenceIndex].id` throws before the request
        return None;
      }
      var sentence := sentences[index];
      sentenceId := Some(sentence.id);
      issued := Some(SubmitTranslation(sentence.id, translationInput));
      if reply.None? {
        return;
      }
      ShowTranslationResult(reply.value);
    }

    /** The reply half of `checkTranslation`: remember the practice id and
        the model translation, offer to add a missing model translation,
        and show the graded score and any feedback. */
    method ShowTranslationResult(result: TranslationReply)
      requires index < |sentences|
      modifies this`practiceId, this`modelTranslation, this`offerModelTranslation,
               this`translationView, this`feedback, this`stage
      ensures Valid()
      ensures practiceId == Some(result.practiceId)
      ensures modelTranslation == result.modelTranslation
      ensures offerModelTranslation == !Truthy(result.modelTranslation)
      ensures translationView == Some(ViewOf(result.similarity))
      ensures feedback == (if Truthy(result.aiFeedback) then result.aiFeedback else None)
      ensures stage == TranslationResult
    {
      practiceId := Some(result.practiceId);
      modelTranslation := result.modelTranslation;
      offerModelTranslation := !Truthy(result.modelTranslation);
      translationView := Some(ViewOf(result.similarity));
      feedback := if Truthy(result.aiFeedback) then result.aiFeedback else None;
      stage := TranslationResult;
    }

    /** `saveModelTranslation`: a blank entry is refused before anything
        is sent; otherwise the trimmed text is sent for the remembered
        sentence id, and a successful reply stores it and withdraws the
        offer. */
    method SaveModelTranslation(input: string, reply: Option<bool>) returns (issued: Option<Request>)
      modifies this`modelTranslation, this`offerModelTranslation
      ensures IsBlank(input) ==> issued == None && unchanged(this)
      ensures !IsBlank(input) ==> issued == Some(SetModelTranslation(sentenceId, Trim(input)))
      ensures !IsBlank(input) && reply == Some(true) ==> modelTranslation == Some(Trim(input)) && !offerModelTranslation
      ensures reply != Some(true) ==> unchanged(this)
    {
      var text := Trim(input);
      if text == "" {
        return None;
      }
      issued := Some(SetModelTranslation(sentenceId, text));
      if reply == Some(true) {
        modelTranslation := Some(text);
        offerModelTranslation := false;
      }
    }

    /** `updatePronunciationSentence`: show the text of the checked radio
        button, the model text when the learner's is not checked. */
    method UpdatePronunciationSentence(c: TargetChoice)
      modifies this`choice, this`target
      ensures choice == c
      ensures target == TargetText(c, translationInput, modelOptionText)
    {
      choice := c;
      target := if c == UserChoice then translationInput else modelOptionText;
    }

    /** `startPronunciation`: fill the two radio texts from the typed
        translation and the current sentence's stored model translation
        (not `currentModelTranslation`), check the default one, show its
        text and reset the capture text to the placeholder. With no
        current sentence it throws before changing anything. */
    method StartPronunciation()
      requires Valid()
      modifies this`userOptionText, this`modelOptionText, this`choice, this`target, this`speechResult, this`stage
      ensures Valid()
      ensures old(stage) == TranslationResult ==> stage == PronunciationEntry
      ensures index >= |sentences| ==> unchanged(this)
      ensures index < |sentences| ==>
        var modelText := sentences[index].modelTranslation.GetOr("");
        && modelOptionText == modelText && userOptionText == translationInput
        && choice == DefaultChoice(translationInput, modelText)
        && target == TargetText(choice, translationInput, modelText)
        && speechResult == Placeholder
        && stage == PronunciationEntry
    {
      if index >= |sentences| {
        return;
      }
      var modelText := sentences[index].modelTranslation.GetOr("");
      var c := DefaultChoice(translationInput, modelText);
      modelOptionText, userOptionText := modelText, translationInput;
      UpdatePronunciationSentence(c);
      speechResult := Placeholder;
      stage := PronunciationEntry;
    }

    /** `startListening`: without a recogniser nothing changes; otherwise
        the page is listening and says so. */
    method StartListening()
      modifies this`listening, this`speechResult
      ensures !hasRecognizer ==> unchanged(this)
      ensures hasRecognizer ==> listening && speechResult == ListeningText
    {
      if !hasRecognizer {
        return;
      }
      listening := true;
      speechResult := ListeningText;
    }

    /** `stopListening`: always leaves the page not listening, whatever
        its state, so calling it twice is calling it once. */
    method StopListening()
      modifies this`listening
      ensures !listening
    {
      listening := false;
    }

    /** `toggleSpeechRecognition`. */
    method ToggleSpeechRecognition()
      modifies this`listening, this`speechResult
      ensures old(listening) ==> !listening && speechResult == old(speechResult)
      ensures !old(listening) && !hasRecognizer ==> unchanged(this)
      ensures !old(listening) && hasRecognizer ==> listening && speechResult == ListeningText
    {
      if listening {
        StopListening();
      } else {
        StartListening();
      }
    }

    /** `recognition.onresult`: a non-empty final text is shown and ends
        listening; otherwise the interim text is shown. */
    method OnResult(results: seq<SpeechResult>)
      modifies this`speechResult, this`listening
      ensures Joined(results, true) != "" ==> speechResult == Joined(results, true) && !listening
      ensures Joined(results, true) == "" ==> speechResult == Joined(results, false) && listening == old(listening)
    {
      var finalText, interimText := FoldResults(results);
      if finalText != "" {
        speechResult := finalText;
        StopListening();
      } else {
        speechResult := interimText;
      }
    }

    /** `recognition.onerror`: report the error and stop listening. */
    method OnError(error: string)
      modifies this`speechResult, this`listening
      ensures speechResult == ErrorText(error) && !IsCaptured(speechResult)
      ensures !listening
    {
      speechResult := ErrorText(error);
      ErrorTextIsNotSpeech(error, Placeholder);
      StopListening();
    }

    /** `recognition.onend`: the engine stopped, so the page stops
        listening. */
    method OnEnd()
      modifies this`listening
      ensures !listening
    {
      StopListening();
    }

    /** `checkPronunciation`. Unless the capture text holds speech nothing
        is sent. Otherwise it is sent with the current practice id; a
        failed or refused request changes nothing more, and a reply shows
        the graded score and the two classified word lists. */
    method CheckPronunciation(reply: Reply<PronunciationReply>) returns (issued: Option<Request>)
      requires Valid()
      modifies this`pronunciationView, this`expectedSpans, this`actualSpans, this`stage
      ensures Valid()
      ensures !IsCaptured(speechResult) ==> issued == None && unchanged(this)
      ensures IsCaptured(speechResult) ==> issued == Some(SubmitPronunciation(practiceId, speechResult))
      ensures !reply.Ok? ==> unchanged(this)
      ensures IsCaptured(speechResult) && reply.Ok? ==>
        var r := reply.body;
        && pronunciationView == Some(ViewOf(r.score))
        && expectedSpans == ClassifyExpected(r.expectedWords, r.matched, r.missed)
        && actualSpans == ClassifyActual(r.actualWords, r.matched, r.extra)
        && stage == PronunciationResult
    {
      if !IsCaptured(speechResult) {
        return None;
      }
      issued := Some(SubmitPronunciation(practiceId, speechResult));
      if !reply.Ok? {
        return;
      }
      var r := reply.body;
      pronunciationView := Some(ViewOf(r.score));
      expectedSpans := ClassifyExpected(r.expectedWords, r.matched, r.missed);
      actualSpans := ClassifyActual(r.actualWords, r.matched, r.extra);
      stage := PronunciationResult;
    }
  }
}
