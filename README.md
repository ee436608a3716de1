# Arabic–English translation practice, modelled in Dafny

The application lets a learner paste an Arabic text, which the Flask
server cuts into sentences and stores with machine translations. The
learner then practises the script sentence by sentence:

- type an English translation and get it scored;
- say a sentence aloud into the browser's speech recogniser;
- see the spoken words compared with the expected ones, word by word.

Two pages drive a session:

- The practice page (`static/js/practice.js`) is the richer one. The
  learner says a translation: their own or the model translation.
- The home page (`static/js/app.js`) is simpler. The learner repeats the
  original sentence. This page also creates scripts, lists recent
  attempts with graded badges, and searches sentences.

This project models the logic of those two pages and of the server's
handlers (`app.py`), and proves properties of it:

- the session state machine and the guards that stop a request before
  it is sent;
- the speech-capture bookkeeping;
- the grading of scores into bands and badges;
- the server's word matcher and the pages' colouring of its result;
- the server's sentence-record loop, truncation and empty-input guards.

Modules, one per file:

- `Wrappers` (`wrappers.dfy`): `Option` and `Result`.
- `Text` (`text.dfy`): whitespace, stripping, ASCII case folding, and the
  two ways the programs cut a text into words. Python's `str.split()`
  is `Words`. JavaScript's `split(/\s+/)` is `JsSplit`. The lemmas say
  where the two agree and where they differ.
- `Scoring` (`scoring.dfy`): a score is an exact fraction. `Math.round`
  of a percentage is computed exactly on it. This gives the pages'
  three bands and the progress table's three badges.
- `Api` (`api.dfy`): the JSON interface as values: sentences, the
  requests the pages send, the replies, and the capture-text guard both
  pages share.
- `Server` (`server.dfy`): `create_script`, `update_script`,
  `practice_pronunciation`, the truncation in `get_progress`, and
  `search_sentences`. The database is a value the handlers take and
  return. The sentence tokeniser and the translator are outside the
  model, so their outputs are inputs.
- `PracticePage` (`practice_page.dfy`): class `Page` holds the page's
  globals (`currentSentences`, `currentSentenceIndex`,
  `currentPracticeId`, `currentSentenceId`, `currentModelTranslation`,
  `isListening`). It also holds the parts of the page the logic reads
  back, such as the translation box and the capture text. Each user
  action or recogniser event is a method.
- `HomePage` (`home_page.dfy`): the same for the home page.
- `Agreement` (`agreement.dfy`): lemmas across the interface. They
  connect what the practice page renders to the server's match, and
  compare the guards on the two sides.

How the pages and the server are modelled:

- A page method that may talk to the server takes the server's reply as
  a parameter: `None` or `Failed` when the request or its JSON decoding
  fails.
- It returns the request it sends, `None` when a guard stops it.
- The reply is consulted only when a request is sent.

Behaviours the model follows as the code has them:

- `startPronunciation` in `practice.js` fills the model-translation
  option from the sentence list loaded at the start. It does not use
  `currentModelTranslation`, so a model translation saved during the
  session is not offered.
- Neither page's `showCurrentSentence` clears the practice id of the
  previous sentence.
- The home page's `checkPronunciation` does not check `response.ok`. An
  error reply shows `NaN%` in the poor band.
- A pronunciation score of exactly 0 is falsy. The progress table shows
  it as `-`, like a missing one.
- When `practice_pronunciation` cannot find the attempt, the 404 raised
  by `get_or_404` is caught by the handler's own `except Exception`. It
  is answered with status 500.

## Verifying

Verify all eight files together from this directory with Dafny 4.11:

```
dafny verify --resource-limit 2000000 --verification-time-limit 0 --warn-contradictory-assumptions *.dfy
```

Each proof obligation fits within 500,000 resource units, a quarter
of the 2,000,000 limit above, on any of the solver seeds 0 to 5
(`--boogie /randomSeed:<n>`). A plain `dafny verify *.dfy`, with its
default 30-second limit per batch, also goes through.

## Model

| member | source | states |
|---|---|---|
| Text.SkipSpaces | app.py:280-281 | the first non-whitespace position at or after `i`; everything skipped is whitespace |
| Text.BackSpaces | app.py:280-281 | the end of the last non-whitespace run before `j`; everything dropped is whitespace |
| Text.Trim | app.py:280-281 | `strip()`/`trim()`: the result neither starts nor ends with whitespace, and it is empty exactly when the text is blank |
| Text.TrimIsSlice | app.py:280-281 | the stripped text is a slice of the text; what is cut on either side is whitespace |
| Text.TrimStart | static/js/practice.js:457-458 | the text after the whitespace run that `\s+` consumes: a suffix that does not start with whitespace, everything dropped is whitespace |
| Text.Tokens | app.py:282-283 | the accumulator of `str.split()`: with a pending word free of whitespace, every token is a non-empty run without whitespace (what the tokens are is stated by `Text.WordsOfInterleave`) |
| Text.Words | app.py:282-283 | `str.split()`: no word is empty or holds whitespace |
| Text.WordsOfInterleave | app.py:282-283 | `str.split()` of any text made of non-empty whitespace-free words separated by whitespace (non-empty between two words, possibly empty at the ends) is exactly those words, in order |
| Text.Pieces | static/js/practice.js:457-458 | the accumulator of `split(/\s+/)`: there is always a piece, and with a pending piece free of whitespace no piece holds whitespace |
| Text.JsSplit | static/js/practice.js:457-458 | `split(/\s+/)` always gives at least one piece, and no piece holds whitespace; what the pieces are is stated by `Text.JsSplitOfInterleave` and `Text.JsSplitOfBlank`, and how they differ from `str.split()` by `Text.JsSplitIsWords` |
| Text.LowerEachAppend | app.py:284-288 | lower-casing word by word distributes over concatenation |
| Text.LowerSet | app.py:284-285 | `set(w.lower() for w in ws)`: holds the lower-case form of every word |
| Text.LowerSetMember | static/js/practice.js:422-424 | `new Set(ws.map(w => w.toLowerCase()))` holds nothing but lower-case forms of the words |
| Text.LowerKeepsSpace | app.py:282-288 | case folding never turns a character into whitespace or back |
| Text.TokensOfLower | app.py:282-288 | splitting a lower-cased text gives the lower-cased tokens |
| Text.WordsOfLower | app.py:282-288 | `split` and `lower` commute |
| Text.TokensSkipSpaces | app.py:282-283 | `str.split()` ignores leading whitespace |
| Text.TrimStartKeepsLast | static/js/practice.js:457-458 | trimming the front keeps a final non-whitespace character |
| Text.PiecesAreTokens | static/js/practice.js:457-458 | on text that does not start or end with whitespace, the two splitters agree from any point |
| Text.JsSplitIsWords | static/js/practice.js:457-458 | on a non-empty text that does not start or end with whitespace, `split(/\s+/)` equals `str.split()` |
| Text.JsSplitKeepsEmptyPieces | static/js/practice.js:457-458 | on the examples "" and " a": `split(/\s+/)` gives [""] and ["", "a"], `str.split()` gives [] and ["a"] |
| Text.JsSplitOfInterleave | static/js/practice.js:457-458 | `split(/\s+/)` of one or more non-empty whitespace-free words separated by whitespace is those words, in order, after an empty piece when the text starts with whitespace and before one when it ends with whitespace |
| Text.JsSplitOfBlank | static/js/practice.js:457-458 | `split(/\s+/)` of a blank text is [""] when it is empty and ["", ""] otherwise |
| Text.SkipSpacesOfLower | app.py:280-284 | case folding does not move the start of the stripped text |
| Text.BackSpacesOfLower | app.py:280-284 | case folding does not move the end of the stripped text |
| Text.TrimOfLower | app.py:280-284 | stripping and lower-casing commute |
| Scoring.RoundPercent | static/js/practice.js:223 | `Math.round(score * 100)`: the nearest whole percentage, halves up, as two exact inequalities |
| Scoring.BandOf | static/js/practice.js:226-232 | exactly one band: good iff >= 80, medium iff 60..79, poor iff < 60 |
| Scoring.BadgeOf | static/js/app.js:418 | the raw-score badge: success iff score >= 0.8, danger iff score < 0.6, warning otherwise |
| Scoring.ViewOf | static/js/practice.js:410-418 | a reply's score is shown as its rounded percentage in that percentage's band |
| Scoring.BandMonotone | static/js/practice.js:226-232 | a higher percentage never gets a lower band |
| Scoring.RoundPercentAtLeast | static/js/practice.js:223-226 | the rounded percentage reaches `k` exactly when 100·score + ½ >= k |
| Scoring.RoundPercentInRange | static/js/practice.js:223-224 | a score in [0, 1] shows as 0..100; 0 is 0% and 1 is 100% |
| Scoring.BadgeNeverAboveBand | static/js/app.js:418 | a success badge implies a good band; a poor band implies a danger badge |
| Scoring.BadgeAgreesWithBand | static/js/app.js:418 | the badge names the band's grade exactly outside [0.795, 0.8) and [0.595, 0.6) |
| Scoring.BadgeAndBandDisagree | static/js/app.js:418-419 | 0.795 is 80% good but a warning badge; 0.595 is 60% medium but a danger badge |
| Api.ErrorTextIsNotSpeech | static/js/practice.js:38-43 | the error handler's text never passes the pronunciation guard |
| Api.HoldsSpeech | static/js/practice.js:386-388 | the capture guard both pages' `checkPronunciation` apply (app.js:309-311 with the home placeholder); a predicate with no contract of its own, used by both pages' `CheckPronunciation` ensures and by `Api.ErrorTextIsNotSpeech` and `Agreement.PronunciationGuardsDiffer` |
| Server.BuildSentenceRecords | app.py:118-128 | one row per sentence: row i has the stripped sentence, order index i, and the i-th translation or '' |
| Server.CreateScript | app.py:98-141 | rejected with 400 iff the title or content is missing or empty; otherwise the rows as above and `sentences_count` equal to the number of rows |
| Server.UpdateScript | app.py:162-184 | a given title replaces the old one; a given content rebuilds every row; without content the rows stay |
| Server.Select | app.py:286-288 | the words whose lower-case form is (or is not) among the keys, and no others |
| Server.MatchWords | app.py:280-291 | the word lists are `strip().split()` of the texts; the score is matched over expected, 0 when nothing is expected |
| Server.SelectIsSubsequence | app.py:286-288 | a comprehension over a list keeps an order-preserving subsequence of it |
| Server.SelectSplits | app.py:286-287 | filtering by a test and by its negation splits the list (lengths and multisets add up) |
| Server.SelectCount | app.py:286-288 | a word occurs in a filtered list exactly as often as in the list when it passes the test, and not at all otherwise |
| Server.MatchedMissedPartition | app.py:286-287 | `matched` and `missed` are ordered subsequences partitioning the expected words; a word is matched iff it was spoken, in any case |
| Server.ExtraWords | app.py:288 | `extra` is the ordered subsequence of spoken words whose lower-case form was not expected, and holds each such word exactly as often as it was spoken |
| Server.WordsAreTokens | app.py:280-283 | no expected or spoken word is empty or holds whitespace |
| Server.ScoreInUnitRange | app.py:289-291 | the score is in [0, 1]; 0 when nothing is expected; 1 iff something is expected and nothing is missed |
| Server.LowerSetOfLowerEach | app.py:284-285 | the lower-case set depends only on the lower-cased words |
| Server.SelectStepOfLower | app.py:286-288 | one step of a filter, seen in lower case |
| Server.SelectOfLowerEach | app.py:286-288 | filtering lists that agree in lower case gives lists that agree in lower case |
| Server.WordsIgnoreCase | app.py:280-283 | texts that differ only in case split into words that differ only in case |
| Server.MatchIgnoresCase | app.py:284-291 | changing the case of either text changes `matched`, `missed` and `extra` only in case, and keeps the score |
| Server.PracticePronunciation | app.py:272-309 | 400 iff the id is missing or 0 or the text is missing or empty; 500 iff the id is unknown; success iff the id is present, non-zero and stored and the text is non-empty; on success the reply carries the match of the stripped texts, and only that attempt is updated, with the stripped text and the score |
| Server.MatchOfStripped | app.py:280-283 | matching the stripped texts is matching the texts |
| Server.TrimTwice | app.py:280-281 | stripping is idempotent |
| Server.Truncate | app.py:333-334 | at most 53 characters; unchanged up to 50; otherwise the first 50 plus '...' |
| Server.SearchSentences | app.py:342-353 | an empty query answers [] without a lookup; otherwise the first min(20, n) matches, in order |
| PracticePage.Joined | static/js/practice.js:19-27 | the concatenation, in order, of the transcripts of the results whose `isFinal` is the given flag; no contract of its own: `PracticePage.FoldResults`, `PracticePage.JoinedAppend` and `PracticePage.JoinedEmpty` state what it is |
| PracticePage.FoldResults | static/js/practice.js:19-27 | the final text is the in-order concatenation of the final transcripts; the interim text is that of the others |
| PracticePage.JoinedAppend | static/js/practice.js:21-27 | folding an event in two parts is folding it whole |
| PracticePage.JoinedEmpty | static/js/practice.js:28-35 | the final text is empty iff every final transcript is empty |
| PracticePage.DefaultChoice | static/js/practice.js:290-300 | the radio button `startPronunciation` checks; no contract of its own: `PracticePage.DefaultTarget` states it |
| PracticePage.TargetText | static/js/practice.js:305-310 | the text `updatePronunciationSentence` shows for a checked button; no contract of its own: `PracticePage.DefaultTarget` and `PracticePage.Page.UpdatePronunciationSentence` state it |
| PracticePage.DefaultTarget | static/js/practice.js:290-309 | the default target is the user text if not blank, else the model text if not blank, else none; the target shown is blank only when both are |
| PracticePage.ClassifyExpected | static/js/practice.js:420-435 | one span per expected word, in order, with its own text; matched wins over missed; membership is case-insensitive |
| PracticePage.ClassifyActual | static/js/practice.js:436-446 | one span per spoken word, in order, with its own text; matched wins over extra; membership is case-insensitive |
| PracticePage.CompareWords | static/js/practice.js:459-478 | an expected word is correct iff it was spoken, else incorrect; a spoken word is correct iff it was expected, else extra |
| PracticePage.ShowWordComparison | static/js/practice.js:456-484 | one span per `split(/\s+/)` piece of each text, with the piece's text, so at least one span each even for an empty text; its colouring is `PracticePage.CompareWords`, and `Agreement.ShowWordComparisonAgrees` and `Agreement.ShowWordComparisonDiffers` relate it to the server |
| PracticePage.Page.constructor | static/js/practice.js:1-16 | an empty session at index 0, not listening, no ids |
| PracticePage.Page.ShowCurrentSentence | static/js/practice.js:131-150 | completion iff index >= length; otherwise sentence `index` shows with an empty translation box |
| PracticePage.Page.StartPractice | static/js/practice.js:100-129 | no script: no request; failed or empty reply: nothing changes; otherwise the list is stored, index 0, first sentence shown |
| PracticePage.Page.NextSentence | static/js/practice.js:486-489 | the index grows by exactly one; completion iff it reaches the length |
| PracticePage.Page.EditTranslation | static/js/practice.js:182 | the translation box holds what was typed |
| PracticePage.Page.CheckTranslation | static/js/practice.js:181-250 | from the translation-entry section a non-blank translation is always sent, for the current sentence; a blank translation (or no current sentence) sends nothing and changes nothing; otherwise the request carries the sentence id and the text as typed, and a reply sets the practice id, the model translation, the offer to add one, the graded score and the feedback |
| PracticePage.Page.ShowTranslationResult | static/js/practice.js:204-244 | the reply half of `checkTranslation` |
| PracticePage.Page.SaveModelTranslation | static/js/practice.js:258-282 | a blank entry sends nothing; otherwise the trimmed text is sent for the current sentence id, and only a success reply stores it and withdraws the offer |
| PracticePage.Page.UpdatePronunciationSentence | static/js/practice.js:305-310 | the target shown is the typed translation when its option is checked, else the model text |
| PracticePage.Page.StartPronunciation | static/js/practice.js:284-303 | from the translation result it always opens the pronunciation section; the two options are the typed translation and the sentence's stored model translation; the default one is checked and shown; the capture text is reset to the placeholder |
| PracticePage.Page.ToggleSpeechRecognition | static/js/practice.js:312-318 | stops when listening, otherwise starts |
| PracticePage.Page.StartListening | static/js/practice.js:320-332 | no recogniser: nothing changes; otherwise listening, with "Listening..." shown |
| PracticePage.Page.StopListening | static/js/practice.js:334-341 | always leaves the page not listening |
| PracticePage.Page.OnResult | static/js/practice.js:18-36 | a non-empty final text is shown and listening stops; otherwise the interim text is shown |
| PracticePage.Page.OnError | static/js/practice.js:38-43 | "Error: " + code is shown, which the guard rejects, and listening stops |
| PracticePage.Page.OnEnd | static/js/practice.js:45-47 | listening stops |
| PracticePage.Page.CheckPronunciation | static/js/practice.js:384-454 | the placeholder, "Listening..." or an "Error:" text sends nothing; a failed or refused reply changes nothing; a reply shows the graded score and both classified word lists |
| HomePage.CreateScriptRequest | static/js/app.js:62-69 | a request is sent iff title and content (untrimmed) are both non-empty |
| HomePage.PronunciationCell | static/js/app.js:423-427 | a dash iff the score is missing or 0; otherwise the raw-score badge and the rounded percentage |
| HomePage.TranslationCell | static/js/app.js:418-420 | the translation-score cell is always a badge, even for a score of 0, graded on the raw score, with the rounded percentage |
| HomePage.CardsOf | static/js/app.js:470-480 | one card per hit, in order, numbered `order_index + 1` |
| HomePage.Page.constructor | static/js/app.js:1-13 | an empty session at index 0, no practice id, form and results hidden |
| HomePage.Page.EditScriptForm | static/js/app.js:63-64 | the form's title and content hold what was typed |
| HomePage.Page.ShowScriptForm | static/js/app.js:52-55 | the form shows |
| HomePage.Page.HideScriptForm | static/js/app.js:57-60 | the form hides and its fields are reset |
| HomePage.Page.CreateScript | static/js/app.js:62-96 | the request is the guard's; a success reply hides and resets the form; anything else changes nothing |
| HomePage.Page.ShowCurrentSentence | static/js/app.js:193-211 | the interface hides iff index >= length; otherwise sentence `index` shows with an empty translation box |
| HomePage.Page.StartPractice | static/js/app.js:162-191 | no script: no request; failed or empty reply: nothing changes; otherwise the list is stored, index 0, first sentence shown |
| HomePage.Page.NextSentence | static/js/app.js:355-358 | the index grows by exactly one; the interface hides iff it reaches the length |
| HomePage.Page.EditTranslation | static/js/app.js:214 | the translation box holds what was typed |
| HomePage.Page.CheckTranslation | static/js/app.js:213-270 | from the translation-entry section a non-blank translation is always sent, for the current sentence; a blank translation (or no current sentence) sends nothing; a failed request changes nothing; a reply sets the practice id, the graded score and the feedback |
| HomePage.Page.StartPronunciation | static/js/app.js:272-280 | from the translation result it always opens the pronunciation section; the target is the original sentence and the capture text is reset to the placeholder |
| HomePage.Page.StartSpeechRecognition | static/js/app.js:282-291 | no recogniser: nothing changes; otherwise "Listening..." is shown |
| HomePage.Page.OnResult | static/js/app.js:15-19 | the first transcript is shown; an empty event changes nothing |
| HomePage.Page.OnError | static/js/app.js:21-25 | "Error: " + code is shown, which the guard rejects |
| HomePage.Page.CheckPronunciation | static/js/app.js:306-353 | the guard as on the practice page; an error reply shows NaN% in the poor band; a failed request changes nothing; a reply shows the graded score |
| HomePage.Page.EditSearch | static/js/app.js:448 | the search box holds what was typed |
| HomePage.Page.SearchSentences | static/js/app.js:447-485 | a blank query clears the results and sends nothing; otherwise the trimmed query is sent, and a reply shows a no-match notice or one card per hit |
| Agreement.SelectLowerSet | app.py:286-288 | the lower-case set of a filtered list is the list's set intersected with, or minus, the keys |
| Agreement.MatchLowerSets | app.py:284-288 | in lower case, matched = expected ∩ spoken, missed = expected − spoken, extra = spoken − expected |
| Agreement.ClassifyFromSets | static/js/practice.js:420-478 | given lists with those sets, the reply-driven colouring equals the page's own comparison |
| Agreement.CompareWordsAgrees | static/js/practice.js:420-478 | on the server's own lists, `showWordComparison`'s colouring equals `checkPronunciation`'s |
| Agreement.ExpectedNeverNeutral | static/js/practice.js:427-435 | fed the server's reply, no expected word renders uncoloured; correct iff spoken, else incorrect |
| Agreement.ActualNeverNeutral | static/js/practice.js:438-446 | fed the server's reply, a spoken word renders correct iff it was expected, else extra, never uncoloured |
| Agreement.TrimOfTrimmed | app.py:280-281 | a non-empty text with no surrounding whitespace is its own strip |
| Agreement.ShowWordComparisonAgrees | static/js/practice.js:456-478 | on texts without surrounding whitespace, `showWordComparison` renders what `checkPronunciation` renders from the server's match |
| Agreement.OneLetterWord | static/js/practice.js:457 | a step of `Agreement.ShowWordComparisonDiffers`, not a property of its own: "a" splits to ["a"] both ways, and " a" strips to "a" |
| Agreement.LowerCaseWords | static/js/practice.js:459 | a step of `Agreement.ShowWordComparisonDiffers`, not a property of its own: "a" and "" are their own lower case |
| Agreement.LeadingEmptyWord | static/js/practice.js:463-469 | a step of `Agreement.ShowWordComparisonDiffers`, not a property of its own: the page's comparison of [“”, “a”] with [“a”] colours the empty word incorrect |
| Agreement.ShowWordComparisonDiffers | static/js/practice.js:457 | with leading whitespace, `showWordComparison` shows an empty incorrect word that the server's split never produces |
| Agreement.CreateScriptGuardsAgree | static/js/app.js:66 | the home page sends a script exactly when the server's guard accepts the title and content |
| Agreement.PronunciationGuardsDiffer | app.py:277-278 | an empty capture passes both pages' guards, but the server rejects it; so does a pronunciation sent before any practice id exists |

## Left out

- Rendering: the `innerHTML` templates, class toggling, `scrollIntoView`,
  alerts and the Bootstrap modal. The model keeps only the values the
  page shows: the stage, the texts, the bands, the spans and the cards.
- HTTP and JSON: `fetch`, response decoding and the Flask routes. Replies
  are method inputs.
- Event interleaving between concurrent requests, such as a double
  submit overwriting the practice id. Each method runs to completion.
- The speech engine itself (`recognition.start`/`stop`) and speech
  synthesis in `playAudio`. These are platform calls. The model keeps the
  listening flag, the result fold and the capture text.
- `revealSentenceRealtime`, which is driven by `setTimeout`.
- Floating point. Scores are exact fractions. `Math.round` is computed
  exactly. The progress-bar width (`updateProgress`), the
  `difflib.SequenceMatcher` ratio and `round(avg, 2)` are not modelled.
  The similarity ratio is an input through the translation reply.
- `nltk.sent_tokenize`, the MarianMT translator and the OpenAI feedback.
  Their outputs are inputs.
- SQLAlchemy persistence, `order_by(random())`, dates and database ids.
  The stored attempt is a map from id to record.
- Unicode. Whitespace is the six ASCII characters Python and JavaScript
  both treat as whitespace. Case folding covers ASCII letters only.
- `loadScripts`, `loadProgress`'s totals, `startPracticeWithScript` and
  the query-parameter start-up of `practice.js`. The server's
  `get_scripts`, `get_script`, `delete_script`, `get_sentences`,
  `set_model_translation` and `practice_translation` are not modelled
  either. They read or write the database, and `practice_translation`
  also calls the similarity library and OpenAI; its reply is an input to
  the pages.
- After completion `practice.js` replaces the interface, so its controls
  are gone. The model still lets its methods be called.
- Server.PracticePronunciation: the 500 reply's error text is the
  exception's message; the model does not spell it out.
- Server.UpdateScript: the 404 for an unknown script id is not modelled,
  because the stored script is an input. A `title` or `content` sent as
  JSON `null` is not modelled either. Both end in an uncaught 500 and
  nothing is stored: the title column does not accept null, so the
  commit fails, and the sentence tokeniser fails on a null content.
- HomePage.Page.CheckTranslation and PracticePage.Page.CheckTranslation:
  a reply without `practice_id` (an error body) is not modelled. The
  translate handler's error replies are the 404 of `get_or_404` and the
  500 of an uncaught exception, such as a missing `user_translation`.
  Neither is JSON, so decoding fails and the model treats both as a
  failed request (`None`).
