/**
 * The JSON interface between the two pages and the server, as values:
 * what a sentence looks like, which requests the pages send and what the
 * replies carry.
 */
module Api {
  import opened Wrappers
  import opened Text
  import opened Scoring

  /** The truthiness of an optional text field, in Python (`if x:`) and
      in JavaScript (`if (x)`) alike: present and not empty. */
  predicate Truthy(o: Option<string>) {
    o.Some? && o.value != ""
  }

  /** A sentence as `GET /api/scripts/<id>/sentences` lists it. */
  datatype Sentence = Sentence(id: int, originalText: string, orderIndex: nat, modelTranslation: Option<string>)

  /** The requests the pages issue. */
  datatype Request =
    | CreateScript(title: string, content: string)
    | FetchSentences(scriptId: string, mode: string)
    | SubmitTranslation(sentenceId: int, userTranslation: string)
    | SetModelTranslation(targetSentence: Option<int>, modelTranslation: string)
    | SubmitPronunciation(practiceId: Option<int>, pronunciationText: string)
    | SearchSentences(query: string)

  /** The reply to `POST /api/practice/translate`. */
  datatype TranslationReply = TranslationReply(
    practiceId: int,
    originalText: string,
    userTranslation: string,
    modelTranslation: Option<string>,
    similarity: Score,
    aiFeedback: Option<string>)

  /** The reply to `POST /api/practice/pronunciation`. */
  datatype PronunciationReply = PronunciationReply(
    expectedWords: seq<string>,
    actualWords: seq<string>,
    matched: seq<string>,
    missed: seq<string>,
    extra: seq<string>,
    score: Score,
    userTranslation: string,
    pronunciationText: string)

  /** One hit of `GET /api/sentences/search`. */
  datatype SearchHit = SearchHit(id: int, originalText: string, scriptTitle: string, orderIndex: nat)

  /** What a page's `fetch` ends with: a transport failure or a body that
      is not JSON, a JSON reply with an error status, or a JSON reply with
      a success status. */
  datatype Reply<T> = Failed | Rejected(error: string) | Ok(body: T)

  // ---------------------------------------------------------------------
  // The capture text both pages share

  /** The capture text while the recogniser listens. */
  const ListeningText: string := "Listening..."

  /** The prefix of the capture text after a recogniser error. */
  const ErrorPrefix: string := "Error:"

  /** What the error handlers write for an engine error code. */
  function ErrorText(error: string): string {
    "Error: " + error
  }

  /** The pronunciation guard of a page whose capture text starts out as
      `placeholder`: the text holds speech unless it is the placeholder,
      the listening notice or an error report. */
  predicate HoldsSpeech(speech: string, placeholder: string) {
    speech != placeholder && speech != ListeningText && !StartsWith(speech, ErrorPrefix)
  }

  /** What the error handlers write is never taken for speech, whatever
      the placeholder. */
  lemma ErrorTextIsNotSpeech(error: string, placeholder: string)
    ensures !HoldsSpeech(ErrorText(error), placeholder)
  {
    assert ErrorText(error)[..|ErrorPrefix|] == ErrorPrefix;
  }
}
