/**
 * The home page (`app.js`): script creation, a simpler practice session
 * (the learner repeats the original sentence rather than a translation),
 * the progress table and the sentence search. As on the practice page,
 * the page's globals and the parts of the page the logic reads back are
 * the fields of `Page`, replies are method inputs and the request a
 * method sends is its result.
 */
module HomePage {
  import opened Wrappers
  import opened Text
  import opened Scoring
  import opened Api

  /** The capture text before anything was said. */
  const Placeholder: string := "Click \"Start Speaking\" and say the sentence..."

  /** Which section of the practice interface is showing; `Hidden` is the
      interface hidden, before a session and after one completes. */
  datatype Stage = Hidden | TranslationEntry | TranslationResult | PronunciationEntry | PronunciationResult

  /** The script-creation guard: both fields must be non-empty (they are
      not trimmed), and then both are sent as typed. */
  function CreateScriptRequest(title: string, content: string): (r: Option<Request>)
    ensures r.None? <==> title == "" || content == ""
    ensures r.Some? ==> r.value == CreateScript(title, content)
  {
    if title == "" || content == "" then None else Some(CreateScript(title, content))
  }

  // ---------------------------------------------------------------------
  // The progress table

  /** A score cell of the recent-sessions table: a badge with the rounded
      percentage, or a dash. */
  datatype Cell = Badged(badge: Badge, percent: nat) | Dash

  /** The translation-score cell: always a badge, banded on the raw
      score. */
  function TranslationCell(s: Score): (c: Cell)
    ensures c.Badged? && c.badge == BadgeOf(s) && c.percent == RoundPercent(s)
  {
    Badged(BadgeOf(s), RoundPercent(s))
  }

  /** The pronunciation-score cell: a dash when the score is missing or
      zero (both falsy), else a badge banded on the raw score. */
  function PronunciationCell(s: Option<Score>): (c: Cell)
    ensures c == Dash <==> s.None? || s.value.num == 0
    ensures c != Dash ==> c == TranslationCell(s.value)
  {
    if s.None? || s.value.num == 0 then Dash else TranslationCell(s.value)
  }

  // ---------------------------------------------------------------------
  // Search results

  /** A result card: the script title, the sentence, and its number
      within the script counted from one. */
  datatype SearchCard = SearchCard(title: string, text: string, number: nat)

  /** What the results area shows. */
  datatype SearchView = Cleared | NoMatches(query: string) | Cards(cards: seq<SearchCard>)

  /** One card per hit, in the order of the hits. */
  function CardsOf(hits: seq<SearchHit>): (r: seq<SearchCard>)
    ensures |r| == |hits|
    ensures forall i :: 0 <= i < |hits| ==>
      r[i].title == hits[i].scriptTitle && r[i].text == hits[i].originalText && r[i].number == hits[i].orderIndex + 1
  {
    seq(|hits|, i requires 0 <= i < |hits| => SearchCard(hits[i].scriptTitle, hits[i].originalText, hits[i].orderIndex + 1))
  }

  // ---------------------------------------------------------------------
  // The page

  class Page {
    /** `currentSentences`, `currentSentenceIndex`, `currentPracticeId`. */
    var sentences: seq<Sentence>
    var index: nat
    var practiceId: Option<int>
    /** Whether the browser offers a recogniser. */
    const hasRecognizer: bool
    var stage: Stage
    /** The script form: its two fields and whether it is showing. */
    var scriptTitle: string
    var scriptContent: string
    var formVisible: bool
    /** The sentence shown, the translation box and its graded result. */
    var shownSentence: string
    var translationInput: string
    var translationView: Option<ScoreView>
    var feedback: Option<string>
    /** The sentence to repeat, the capture text and the graded result. */
    var target: string
    var speechResult: string
    var pronunciationView: Option<ScoreView>
    /** The search box and the results area. */
    var searchInput: string
    var search: SearchView

    /** The sentence-scoped sections show only while the index points at
        a sentence. */
    ghost predicate Valid()
      reads this
    {
      stage.TranslationEntry? || stage.TranslationResult? || stage.PronunciationEntry? ==> index < |sentences|
    }

    constructor (hasRecognizer: bool)
      ensures Valid()
      ensures this.hasRecognizer == hasRecognizer
      ensures sentences == [] && index == 0 && practiceId == None && stage == Hidden
      ensures !formVisible && search == Cleared
    {
      this.hasRecognizer := hasRecognizer;
      sentences, index, practiceId := [], 0, None;
      stage := Hidden;
      scriptTitle, scriptContent, formVisible := "", "", false;
      shownSentence, translationInput, translationView, feedback := "", "", None, None;
      target, speechResult, pronunciationView := "", "", None;
      searchInput, search := "", Cleared;
    }

    /** The learner fills in the script form. */
    method EditScriptForm(title: string, content: string)
      modifies this`scriptTitle, this`scriptContent
      ensures scriptTitle == title && scriptContent == content
    {
      scriptTitle, scriptContent := title, content;
    }

    /** `showScriptForm`. */
    method ShowScriptForm()
      modifies this`formVisible
      ensures formVisible
    {
      formVisible := true;
    }

    /** `hideScriptForm`: hide the form and reset its fields. */
    method HideScriptForm()
      modifies this`formVisible, this`scriptTitle, this`scriptContent
      ensures !formVisible && scriptTitle == "" && scriptContent == ""
    {
      formVisible := false;
      scriptTitle, scriptContent := "", "";
    }

    /** `createScript`: the guard decides whether anything is sent; a
        successful reply (`response.ok`) hides and resets the form, and
        anything else leaves the page as it was. */
    method CreateScript(reply: Option<bool>) returns (issued: Option<Request>)
      modifies this`formVisible, this`scriptTitle, this`scriptContent
      ensures issued == CreateScriptRequest(old(scriptTitle), old(scriptContent))
      ensures issued.Some? && reply == Some(true) ==> !formVisible && scriptTitle == "" && scriptContent == ""
      ensures issued.None? || reply != Some(true) ==> unchanged(this)
    {
      issued := CreateScriptRequest(scriptTitle, scriptContent);
      if issued.None? {
        return;
      }
      if reply == Some(true) {
        HideScriptForm();
      }
    }

    /** `showCurrentSentence`: past the last sentence the interface is
        hidden; otherwise the current sentence shows with an empty
        translation box. */
    method ShowCurrentSentence()
      modifies this`stage, this`shownSentence, this`translationInput
      ensures Valid()
      ensures index >= |sentences| ==> stage == Hidden && shownSentence == old(shownSentence) && translationInput == old(translationInput)
      ensures index < |sentences| ==>
        stage == TranslationEntry && shownSentence == sentences[index].originalText && translationInput == ""
    {
      if index >= |sentences| {
        stage := Hidden;
        return;
      }
      shownSentence := sentences[index].originalText;
      translationInput := "";
      stage := TranslationEntry;
    }

    /** `startPractice`: no script chosen sends nothing; a failed request
        or an empty list leaves the session as it was; otherwise the list
        is stored, the index reset and the first sentence shown. */
    method StartPractice(scriptId: string, mode: string, reply: Option<seq<Sentence>>) returns (issued: Option<Request>)
      requires Valid()
      modifies this`sentences, this`index, this`stage, this`shownSentence, this`translationInput
      ensures Valid()
      ensures scriptId == "" ==> issued == None
      ensures scriptId != "" ==> issued == Some(FetchSentences(scriptId, mode))
      ensures scriptId == "" || reply.None? || reply.value == [] ==> unchanged(this)
      ensures scriptId != "" && reply.Some? && reply.value != [] ==>
        && sentences == reply.value && index == 0
        && stage == TranslationEntry && shownSentence == sentences[0].originalText && translationInput == ""
    {
      if scriptId == "" {
        return None;
      }
      issued := Some(FetchSentences(scriptId, mode));
      if reply.None? || reply.value == [] {
        return;
      }
      sentences := reply.value;
      index := 0;
      ShowCurrentSentence();
    }

    /** `nextSentence`. */
    method NextSentence()
      modifies this`index, this`stage, this`shownSentence, this`translationInput
      ensures Valid()
      ensures index == old(index) + 1
      ensures stage == Hidden <==> index >= |sentences|
      ensures index < |sentences| ==>
        stage == TranslationEntry && shownSentence == sentences[index].originalText && translationInput == ""
    {
      index := index + 1;
      ShowCurrentSentence();
    }

    /** The learner types into the translation box. */
    method EditTranslation(text: string)
      modifies this`translationInput
      ensures translationInput == text
    {
      translationInput := text;
    }

    /** `checkTranslation`: a blank translation, or no current sentence,
        sends nothing; a failed request changes nothing; a reply stores
        the practice id and shows the graded score and any feedback. */
    method CheckTranslation(reply: Option<TranslationReply>) returns (issued: Option<Request>)
      requires Valid()
      modifies this`practiceId, this`translationView, this`feedback, this`stage
      ensures Valid()
      ensures old(stage) == TranslationEntry && !IsBlank(translationInput) ==>
        issued == Some(SubmitTranslation(sentences[index].id, translationInput))
      ensures IsBlank(translationInput) || index >= |sentences| ==> issued == None
      ensures !IsBlank(translationInput) && index < |sentences| ==>
        issued == Some(SubmitTranslation(sentences[index].id, translationInput))
      ensures issued.None? || reply.None? ==> unchanged(this)
      ensures issued.Some? && reply.Some? ==>
        && practiceId == Some(reply.value.practiceId)
        && translationView == Some(ViewOf(reply.value.similarity))
        && feedback == (if Truthy(reply.value.aiFeedback) then reply.value.aiFeedback else None)
        && stage == TranslationResult
    {
      if Trim(translationInput) == "" {
        return None;
      }
      if index >= |sentences| {
        // `sentence.id` throws inside the `try`, before the request
        return None;
      }
      issued := Some(SubmitTranslation(sentences[index].id, translationInput));
      if reply.None? {
        return;
      }
      var result := reply.value;
      practiceId := Some(result.practiceId);
      translationView := Some(ViewOf(result.similarity));
      feedback := if Truthy(result.aiFeedback) then result.aiFeedback else None;
      stage := TranslationResult;
    }

    /** `startPronunciation`: the sentence to repeat is the original one,
        and the capture text is reset to the placeholder. */
    method StartPronunciation()
      requires Valid()
      modifies this`target, this`speechResult, this`stage
      ensures Valid()
      ensures old(stage) == TranslationResult ==> stage == PronunciationEntry
      ensures index >= |sentences| ==> unchanged(this)
      ensures index < |sentences| ==>
        target == sentences[index].originalText && speechResult == Placeholder && stage == PronunciationEntry
    {
      if index >= |sentences| {
        return;
      }
      target := sentences[index].originalText;
      speechResult := Placeholder;
      stage := PronunciationEntry;
    }

    /** `startSpeechRecognition`: without a recogniser nothing changes;
        otherwise the page says it is listening. */
    method StartSpeechRecognition()
      modifies this`speechResult
      ensures !hasRecognizer ==> unchanged(this)
      ensures hasRecognizer ==> speechResult == ListeningText
    {
      if !hasRecognizer {
        return;
      }
      speechResult := ListeningText;
    }

    /** `recognition.onresult` (no interim results): the first
        transcript is shown; an event with no results throws before
        changing anything. */
    method OnResult(transcripts: seq<string>)
      modifies this`speechResult
      ensures transcripts == [] ==> unchanged(this)
      ensures transcripts != [] ==> speechResult == transcripts[0]
    {
      if transcripts == [] {
        return;
      }
      speechResult := transcripts[0];
    }

    /** `recognition.onerror`. */
    method OnError(error: string)
      modifies this`speechResult
      ensures speechResult == ErrorText(error) && !HoldsSpeech(speechResult, Placeholder)
    {
      speechResult := ErrorText(error);
      ErrorTextIsNotSpeech(error, Placeholder);
    }

    /** `checkPronunciation`: unless the capture text holds speech nothing
        is sent. The reply is shown without checking `response.ok`: an
        error reply has no score, which renders as `NaN%` in the poor
        band; a request that fails changes nothing. */
    method CheckPronunciation(reply: Reply<PronunciationReply>) returns (issued: Option<Request>)
      requires Valid()
      modifies this`pronunciationView, this`stage
      ensures Valid()
      ensures !HoldsSpeech(speechResult, Placeholder) ==> issued == None
      ensures HoldsSpeech(speechResult, Placeholder) ==> issued == Some(SubmitPronunciation(practiceId, speechResult))
      ensures issued.None? || reply.Failed? ==> unchanged(this)
      ensures issued.Some? && reply.Rejected? ==> pronunciationView == Some(NaNView) && stage == PronunciationResult
      ensures issued.Some? && reply.Ok? ==>
        pronunciationView == Some(ViewOf(reply.body.score)) && stage == PronunciationResult
    {
      if !HoldsSpeech(speechResult, Placeholder) {
        return None;
      }
      issued := Some(SubmitPronunciation(practiceId, speechResult));
      if reply.Failed? {
        return;
      }
      pronunciationView := Some(if reply.Ok? then ViewOf(reply.body.score) else NaNView);
      stage := PronunciationResult;
    }

    /** The learner types into the search box. */
    method EditSearch(text: string)
      modifies this`searchInput
      ensures searchInput == text
    {
      searchInput := text;
    }

    /** `searchSentences`: a blank query clears the results and sends
        nothing; otherwise the trimmed query is sent, and a reply shows
        either the no-match notice or one card per hit. */
    method SearchSentences(reply: Option<seq<SearchHit>>) returns (issued: Option<Request>)
      modifies this`search
      ensures IsBlank(searchInput) ==> issued == None && search == Cleared
      ensures !IsBlank(searchInput) ==> issued == Some(Api.SearchSentences(Trim(searchInput)))
      ensures !IsBlank(searchInput) && reply.None? ==> unchanged(this)
      ensures !IsBlank(searchInput) && reply == Some([]) ==> search == NoMatches(Trim(searchInput))
      ensures !IsBlank(searchInput) && reply.Some? && reply.value != [] ==> search == Cards(CardsOf(reply.value))
    {
      var query := Trim(searchInput);
      if query == "" {
        search := Cleared;
        return None;
      }
      issued := Some(Api.SearchSentences(query));
      if reply.None? {
        return;
      }
      search := if reply.value == [] then NoMatches(query) else Cards(CardsOf(reply.value));
    }
  }
}
