# QuizMaster quiz-session core in Dafny

QuizMaster lets a user pick a topic or upload a document. An AI model turns
that text into a quiz, and the app plays the quiz one question at a time,
scores it, and ends with feedback and a study guide. The repository has
several variants of the app:

- the single-file app `App.tsx`, with a streak counter, difficulty, question
  count and a study guide;
- its smaller sibling `src/App.tsx`, without streak or study guide;
- a dashboard app built from `SetupPanel`, `QuizCard`, `ResultsView`,
  `Dashboard` and `ApiKeyModal`;
- a store-driven app, where `QuizSetup`, `QuizGame` and `ResultsTable` sit on
  the zustand stores `store/useQuizStore.ts` and `store/quizStore.ts`.

The services are shared. `services/fileService.ts` picks a file reader by MIME
type and name. `services/geminiService.ts` reads PDFs page by page, cuts the
source material to size, trims the generated list and supplies fixed
fallback texts.

This project models that core and proves properties about the model. It
follows the form of each source:

- **Objects with state become classes.** Each app, form and store whose
  state hooks are updated in place is a `class` whose fields are those hooks.
  Each handler is a method whose `ensures` states the entire new state.
  `App.tsx` and `src/App.tsx` (`QuizApp.Session`, `LiteApp.LiteSession`) also
  carry an invariant that every handler keeps:
  - the streak is the run of correct answers at the end of the answer list;
  - during a game, the answers recorded are exactly those of the questions
    before the current one;
  - on the results screen, every question has its answer.
- **Loops become methods.** The page loops of the two PDF readers are `while`
  loops with invariants. They are proved equal to a page-assembly function
  (`PdfText.Assemble`).
- **Derivations become functions with lemmas.** This covers scores, counts,
  mistakes, report rows, bands, guards and fallbacks.

`Math.round(c / n * 100)` is modelled in integers as `(200c + n) div (2n)` for
`n > 0`: the exact ratio rounded half up (`Scoring.Percent`). JavaScript
rounds the quotient and the product to double precision first, and the two
can differ from 40 questions on (23 of 40 gives 57 in JavaScript and 58
here). The counts the shown code sets stay below that: the slider of
`App.tsx` stops at 15 (App.tsx:397), `components/QuizSetup.tsx` leaves
`generateQuiz` at its default of 5 (services/geminiService.ts:48), and the
slider of `components/SetupPanel.tsx` stops at `MAX_QUESTIONS`, 20
(components/SetupPanel.tsx:257, constants.ts:5). JavaScript's `trim` uses
the ECMAScript white-space and line-terminator set (`Text.WHITESPACE`).

Everything outside the program is a parameter of the operation that uses
it. That covers pdf.js, mammoth, FileReader, the Gemini SDK and the alert
box. Concretely, the parameter is what the outside call returns:

- a list of page contents, or a load error (`PdfText.PdfDocument`);
- the model's reply (`GeminiService.GenerationReply`,
  `GeminiService.TextReply`);
- a `Result`.

### Modules

| module | file | source |
|---|---|---|
| `Common`, `Seqs` | common.dfy | shared: `Option`, `Result`, counting and filtering over sequences |
| `Text` | text.dfy | JavaScript string operations used by the core (`trim`, ASCII `toLowerCase`, `slice`, `split('.')[0]`, `replace`, `join`, number formatting) |
| `QuizTypes` | quiz_types.dfy | `types.ts`, `constants.ts`, and the record shapes of the apps and stores |
| `Scoring` | scoring.dfy | the answer check, the rounded percentage, the streak and the mistakes list |
| `PdfText` | pdf_text.dfy | the page-text assembly both PDF readers share |
| `QuizApp` | app_session.dfy | `App.tsx` |
| `LiteApp` | lite_session.dfy | `src/App.tsx` |
| `SetupPanel` | setup_panel.dfy | `components/SetupPanel.tsx` |
| `Dashboard` | dashboard.dfy | `components/Dashboard.tsx` |
| `ResultsView` | results_view.dfy | `components/ResultsView.tsx` |
| `QuizCard` | quiz_card.dfy | `components/QuizCard.tsx` |
| `ResultsTable` | results_table.dfy | `components/ResultsTable.tsx` |
| `GeminiService` | gemini_service.dfy | `services/geminiService.ts` |
| `QuizSetup` | quiz_setup.dfy | `components/QuizSetup.tsx` |
| `QuizGame` | quiz_game.dfy | `components/QuizGame.tsx` |
| `ApiKeyModal` | api_key_modal.dfy | `components/ApiKeyModal.tsx` |
| `FileService` | file_service.dfy | `services/fileService.ts` |
| `UseQuizStore` | use_quiz_store.dfy | `store/useQuizStore.ts` |
| `QuizStore` | quiz_store.dfy | `store/quizStore.ts` |

### Where the code and its description differ

The model follows the code in each case below.

- **`resetGame` in `App.tsx`** (App.tsx:165-176) does not restore the chosen
  question types, the difficulty, the question count or the study-guide
  loading flag. It resets only the session data. In `src/App.tsx` the same
  handler does restore the types to `['MCQ']` (src/App.tsx:102).
- **The answer checks differ between variants.** The card of the dashboard
  app (components/QuizCard.tsx:37) compares lower-cased strings without
  trimming. The other variants trim first.
- **The fill-in guard differs too.** The card submits the trimmed text,
  while `App.tsx` submits the raw text once its trim is non-empty.
- **`src/App.tsx` does not reject an empty generated list.** The game view
  simply does not render for it (src/App.tsx:269). The model keeps the empty
  game state, with index 0 and no answers, inside the invariant.
- **The footer buttons of `src/App.tsx`** (src/App.tsx:415-416) change the
  view without resetting anything. The model offers them only while no
  advance is pending.

## Model

Plain definitions that transcribe one source expression have no row of their own. These are `Scoring.Percent`, `Scoring.IsCorrectAnswer`, `ResultsView.Score`, `ResultsView.ShowsConfetti`, `ResultsView.FetchesGuide`, `ResultsTable.Score`, `ResultsTable.HasIncorrect`, `QuizCard.CardIsCorrect`, `SetupPanel.ValidateStart`, `QuizApp.AnswerStep`, `LiteApp.AnswerStep`, `LiteApp.AdvanceStep`, `QuizSetup.GenerationTitle` and `QuizSetup.SessionTitle`. Each is characterised by the rows of the lemmas about it.

| member | source | states |
|---|---|---|
| Scoring.CorrectIffTrimmedCaseless | App.tsx:206 | An answer is correct exactly when the trimmed answer and the trimmed expected answer agree ignoring ASCII case; trimming and lower-casing commute. |
| Scoring.CorrectIgnoresPadding | App.tsx:206 | White space around a submitted answer never changes whether it is judged correct. |
| Scoring.PaddedParisIsCorrect | App.tsx:206 | `" Paris "` is accepted for `"Paris"`. |
| Scoring.Judge | App.tsx:205-207 | The record built for an answer carries the question's id and the answer as given, and is marked correct exactly when the answer passes the trimmed, caseless check. |
| Scoring.RoundDivBracket | App.tsx:226 | The rounded quotient `r` satisfies `r - 1/2 <= num/den < r + 1/2`, which is `Math.round` rounding halves up. |
| Scoring.RoundDivUnique | App.tsx:226 | Exactly one integer lies in that rounding bracket, so the integer formula is the rounding and nothing else. |
| Scoring.MulStrict | App.tsx:226 | Scaling a strict inequality by a positive factor leaves a gap of at least that factor (used to pin down the rounding). |
| Scoring.PercentBracket | App.tsx:226 | The score `round(100·correct/total)` lies within half a point of the exact ratio. |
| Scoring.PercentBounds | App.tsx:225-226 | Between none and all questions correct, the score lies in 0..100. |
| Scoring.PercentExtremes | App.tsx:225-226 | No correct answers scores 0; all correct scores 100. |
| Scoring.PercentMonotone | App.tsx:225-226 | More correct answers never lower the score. |
| Scoring.PercentFullIffAllCorrect | App.tsx:225-226 | For fewer than 200 questions, a score of 100 means every answer is correct, and conversely. |
| Scoring.PercentRoundsUpAtTwoHundred | App.tsx:226 | At 200 questions one miss still rounds to 100 (199/200), so the bound above is tight. |
| Scoring.CorrectCount | App.tsx:225 | The number of correct records never exceeds the number of records. |
| Scoring.CorrectCountAppend | App.tsx:213 | Appending a record raises the correct count by one exactly when that record is correct. |
| Scoring.UserCorrectCount | components/ResultsView.tsx:30 | The number of correct answers never exceeds the number of answers. |
| Scoring.TrailingCorrect | App.tsx:209-211 | The streak value is a run of correct answers at the end of the list, never longer than the list, and it cannot be extended (the answer before the run is wrong). |
| Scoring.TrailingCorrectStep | App.tsx:209-211 | After one more answer the streak is one more on a correct answer and 0 on a wrong one. |
| Scoring.MissedIndices | App.tsx:250-252 | Every listed position lies below the bound and holds an incorrect answer. |
| Scoring.MissedIndicesComplete | App.tsx:250-252 | Every position below the bound that holds an incorrect answer is listed. |
| Scoring.MissedIndicesIncrease | App.tsx:250-252 | The listed positions are strictly increasing, that is, in question order without repeats. |
| Scoring.MistakesPrefix | App.tsx:250-252 | Over the first `m` questions the mistakes are, in order, exactly the questions at the missed positions together with the answer given at the same position. |
| Scoring.MistakesAreMissedQuestions | App.tsx:250-252 | The mistakes list of `finishQuiz` holds, in question order, exactly the questions whose answer at the same index is incorrect, with that answer and the right answer. |
| Scoring.MissedCount | App.tsx:250-252 | Among the first `n` answers, the missed positions number `n` minus the correct ones. |
| Scoring.MistakeCountIsIncorrectCount | App.tsx:250-252 | With one answer per question, there are as many mistakes as incorrect answers. |
| QuizApp.InitialIsValid | App.tsx:126-143 | The initial state of the hooks satisfies the session invariant. |
| QuizApp.ResetState | App.tsx:165-176 | `resetGame` yields the landing state with no topic, file, questions, answers, streak, feedback or guide; it keeps the chosen types, difficulty, count and loading flag; the result satisfies the invariant. |
| QuizApp.ResetRestoresInitial | App.tsx:165-176 | With default settings, a reset gives exactly the initial state, and a second reset changes nothing. |
| QuizApp.FinishSummary | App.tsx:224-260 | `finishQuiz` derives a report. Its score is the rounded percentage over the number of questions. Confetti is due exactly when the score is above 70. The mistakes are the index-aligned list, and the criticism request carries the same mistakes, renamed field by field. The guide topic is the topic, or "General Knowledge" when there is none. |
| QuizApp.FinishSummaryFacts | App.tsx:224-252 | With an answer per question, the score is in 0..100 and reaches 100 exactly when all answers are correct (for quizzes under 200 questions). The mistakes are as many as the incorrect answers. |
| QuizApp.FourOfFiveCounts | App.tsx:225 | Five answers with only the fourth wrong have four correct ones, and only position 3 is missed. |
| QuizApp.FourOfFiveCorrect | App.tsx:225 | Five answers with only the fourth wrong count four correct. |
| QuizApp.FourOfFive | App.tsx:224-252 | Five questions with the fourth missed: 80 %, confetti, the fallback guide topic, and a single mistake naming the fourth question. |
| QuizApp.FibSubmission | App.tsx:663 | The fill-in box submits exactly when the trimmed text is non-empty, and then submits the untrimmed text. |
| QuizApp.FibSubmitsIffNotAllWhitespace | App.tsx:680 | Text made only of white space is never submitted; any other text is. |
| QuizApp.AnswerStepKeepsInv | App.tsx:204-221 | One answer keeps the session invariant. It appends exactly the new record and leaves questions and topic alone. The quiz finishes exactly on the last question; otherwise the index moves on by one. |
| QuizApp.Session.constructor | App.tsx:126-143 | The app starts on the landing view with the default hooks (`['MCQ']`, Medium, 5 questions), and the invariant holds. |
| QuizApp.Session.StartSetup | App.tsx:163 | Only the view changes, to setup. |
| QuizApp.Session.BackToLanding | App.tsx:314 | Only the view changes, back to landing. |
| QuizApp.Session.SetTopic | App.tsx:340 | Only the topic changes. |
| QuizApp.Session.ChooseTopicMode | App.tsx:326 | The topic and the file are cleared; nothing else changes. |
| QuizApp.Session.ClearFile | App.tsx:353 | Only the file is dropped. |
| QuizApp.Session.ImportFile | App.tsx:361 | Only the file is set; the control is offered only with neither file nor topic. |
| QuizApp.Session.SetDifficulty | App.tsx:373-376 | Only the difficulty changes, to one of Easy, Medium, Hard. |
| QuizApp.Session.SetCount | App.tsx:399 | Only the question count changes, within the slider range 3..15. |
| QuizApp.Session.ToggleType | App.tsx:411-414 | Only the selected types change, by the toggle. |
| QuizApp.Session.Generate | App.tsx:178-202 | Failure: an unreadable PDF, a failed or unparsable reply, or an empty list each end in the busy alert with no state change. Request: when the file reads, it goes out with the title fallback and the file's text or the topic as content. Success: a non-empty list starts a fresh game at index 0 with no answers and streak 0. |
| QuizApp.Session.Record | App.tsx:209-221 | The state after recording a given answer is the answer step, and the invariant is kept. |
| QuizApp.Session.Answer | App.tsx:204-221 | Exactly one record for the current question is appended, judged by the trimmed caseless check, and the streak is updated. Then the index advances, or on the last question the quiz finishes and returns the finish report over all the answers. |
| QuizApp.Session.ReceiveFeedback | App.tsx:254 | Only the feedback text changes. |
| QuizApp.Session.ReceiveStudyGuide | App.tsx:256-260 | The guide text is set and the loading flag cleared; nothing else changes. |
| QuizApp.Session.ResetGame | App.tsx:165-176 | The new state is the reset of the old one, and the invariant holds. |
| QuizApp.Session.Load | App.tsx:126-143 | Every hook takes the value given. |
| LiteApp.InitialIsValid | src/App.tsx:77-86 | The initial hooks satisfy the variant's invariant. |
| LiteApp.AnswerStepKeepsInv | src/App.tsx:124-131 | Answering an unanswered question appends exactly one record, at the current position, keeps the earlier records, schedules the advance and keeps the invariant. |
| LiteApp.AdvanceStepKeepsInv | src/App.tsx:131-146 | The advance keeps the answers and the invariant; afterwards the answers again match the index, and the results are reached exactly from the last question. |
| LiteApp.FinishRequest | src/App.tsx:135-143 | The criticism request carries the rounded percentage over the number of questions and, in question order, exactly the questions whose same-index answer is incorrect. |
| LiteApp.FinishRequestFacts | src/App.tsx:135-141 | With one answer per question the score is in 0..100 and the mistakes are as many as the incorrect answers. |
| LiteApp.RunningPercentOverflows | src/App.tsx:290 | In a state satisfying the invariant, with the first two questions answered correctly and the advance pending, the header shows 200 %. |
| LiteApp.RunningPercentAsWrittenExceedsFull | src/App.tsx:290 | In quizzes of up to 200 questions, whenever an advance is pending past the first question and all answers are correct, the header as written shows more than 100 %. From 201 questions on, the excess rounds away and it shows 100 %. |
| LiteApp.RunningPercent | src/App.tsx:290 | The corrected running percentage is in 0..100: the rounded share of correct answers among those given, 0 before any. |
| LiteApp.RunningPercentAgreesAtRest | src/App.tsx:290 | While no advance is pending, the header as written and the corrected percentage agree. |
| LiteApp.LiteSession.constructor | src/App.tsx:77-86 | The variant starts on the landing view with `['MCQ']` and no quiz data, and the invariant holds. |
| LiteApp.LiteSession.RunningScore | src/App.tsx:290 | The percentage shown in the header, corrected, is always in 0..100. |
| LiteApp.LiteSession.StartSetup | src/App.tsx:91 | Only the view changes, to setup. |
| LiteApp.LiteSession.GoToLanding | src/App.tsx:196 | Only the view changes, to landing. |
| LiteApp.LiteSession.GoToSetup | src/App.tsx:416 | Only the view changes, to setup. |
| LiteApp.LiteSession.ChooseTopicSource | src/App.tsx:204 | The topic and the file are cleared; nothing else changes. |
| LiteApp.LiteSession.ClearFile | src/App.tsx:225 | Only the file is dropped. |
| LiteApp.LiteSession.SetTopic | src/App.tsx:217 | Only the topic changes. |
| LiteApp.LiteSession.ImportFile | src/App.tsx:233 | Only the file is set. |
| LiteApp.LiteSession.ToggleType | src/App.tsx:243 | Only the selected types change, by the toggle. |
| LiteApp.LiteSession.Generate | src/App.tsx:106-122 | A failed extraction or generation ends in the alert with the state kept. Otherwise the request carries the title fallback and the content, and the game starts on the generated list, even an empty one. Loading is false afterwards. |
| LiteApp.LiteSession.Answer | src/App.tsx:124-131 | Exactly one judged record for the current question is appended and the advance is scheduled. |
| LiteApp.LiteSession.Advance | src/App.tsx:131-146 | The next question follows, or on the last one the results view opens and the criticism request over all the answers is returned; the invariant is kept. |
| LiteApp.LiteSession.ReceiveFeedback | src/App.tsx:143 | Only the feedback text changes. |
| LiteApp.LiteSession.ResetGame | src/App.tsx:94-104 | Every hook returns to its initial value, the question types included. |
| SetupPanel.ValidateStartOutcomes | components/SetupPanel.tsx:59-81 | The guards run in order. A blank topic gives the topic message; blank content gives the content message in topic mode and the document message in upload mode. A config results exactly when neither is blank. It carries the untrimmed topic and content, the difficulty, the type and the count, and a timer exactly when it is positive. |
| SetupPanel.ValidateStartAccepts | components/SetupPanel.tsx:73-80 | A non-blank topic and content are accepted and kept as typed. |
| SetupPanel.ValidateStartNeedsText | components/SetupPanel.tsx:60-71 | Only a non-blank topic and a non-blank content are accepted. |
| SetupPanel.TopicCheckedFirst | components/SetupPanel.tsx:60-63 | A topic of white space alone is reported whatever the content and mode. |
| SetupPanel.PaddingIsKept | components/SetupPanel.tsx:73-80 | Padding the topic and content keeps an accepted form accepted, and the padding reaches the config. |
| SetupPanel.DroppedTopic | components/SetupPanel.tsx:38-40 | A typed topic is kept. Otherwise the topic becomes the file name up to its first dot: a dot-free prefix of the name, followed in the name by a dot when shorter. |
| SetupPanel.DroppedTopicIsStem | components/SetupPanel.tsx:39 | For a name `stem.rest`, or a dot-free name, the proposed topic is the stem. |
| SetupPanel.DroppedTopicExamples | components/SetupPanel.tsx:39 | `quiz.tar.gz` proposes `quiz`; `.env` proposes the empty topic. |
| SetupPanel.StemOfArchiveName | components/SetupPanel.tsx:39 | `quiz.tar.gz` proposes `quiz`. |
| SetupPanel.StemOfDotName | components/SetupPanel.tsx:39 | `.env` proposes the empty topic. |
| SetupPanel.ParseError | components/SetupPanel.tsx:42 | The message shown is the error's own, or the fixed one when it has none; never empty. |
| SetupPanel.SetupPanelState.constructor | components/SetupPanel.tsx:17-26 | The form starts in upload mode, empty, with medium difficulty, multiple choice, ten questions and no timer. |
| SetupPanel.SetupPanelState.OnDrop | components/SetupPanel.tsx:28-46 | Nothing happens without a file. Otherwise the dispatch's outcome decides. Success sets the content to the parsed text and the file name, proposes a topic and clears the error. Failure shows its message and leaves content, name and topic alone. In both cases parsing ends; the settings are untouched. |
| SetupPanel.SetupPanelState.HandleStart | components/SetupPanel.tsx:59-81 | An invalid form sets the guard's message and hands nothing over; a valid one hands over its config. The form's fields are unchanged. |
| SetupPanel.SetupPanelState.ChooseUpload | components/SetupPanel.tsx:94 | The mode becomes upload; every other field of the form, the settings, the error and the parsing flag included, keeps its value. |
| SetupPanel.SetupPanelState.ChooseTopic | components/SetupPanel.tsx:103-107 | Topic mode clears the file name and the content; the topic, the settings, the timer, the error and the parsing flag keep their values. |
| SetupPanel.SetupPanelState.RemoveFile | components/SetupPanel.tsx:152 | The file name and content are cleared; every other field keeps its value. |
| SetupPanel.SetupPanelState.SetTopic | components/SetupPanel.tsx:124 | The topic takes the typed value; every other field keeps its value. |
| SetupPanel.SetupPanelState.SetContent | components/SetupPanel.tsx:174 | The content takes the typed value; every other field keeps its value. |
| SetupPanel.SetupPanelState.SetDifficulty | components/SetupPanel.tsx:195 | The difficulty takes the chosen value; every other field keeps its value. |
| SetupPanel.SetupPanelState.SetQuizType | components/SetupPanel.tsx:237 | The quiz type takes the chosen value; every other field keeps its value. |
| SetupPanel.SetupPanelState.SetCount | components/SetupPanel.tsx:256-260 | The count takes the slider value, within `MIN_QUESTIONS..MAX_QUESTIONS`; every other field keeps its value. |
| SetupPanel.SetupPanelState.SetTimer | components/SetupPanel.tsx:216-220 | The timer takes the slider value, within 0..120 in steps of 10; every other field keeps its value. |
| Dashboard.ScoreSumBounds | components/Dashboard.tsx:18 | Scores in 0..100 sum to between 0 and 100 per quiz. |
| Dashboard.ScoreSumConstant | components/Dashboard.tsx:18 | Equal scores sum to that score times the number of quizzes. |
| Dashboard.AverageScore | components/Dashboard.tsx:16-19 | The average is 0 for an empty history. Otherwise it is the total divided by the number of quizzes, rounded half up. |
| Dashboard.AverageScoreBounds | components/Dashboard.tsx:17-19 | The average of scores in 0..100 is in 0..100. |
| Dashboard.AverageOfEqualScores | components/Dashboard.tsx:17-19 | A history of equal scores averages to that score. |
| Dashboard.ScoreBand | components/Dashboard.tsx:121-123 | A saved score is green from 80, yellow from 50 below 80, red below 50; the bands are disjoint and cover all scores. |
| Dashboard.AverageBand | components/Dashboard.tsx:80 | The average is green from 70, yellow from 40 below 70, grey below 40. |
| Dashboard.BandsMonotone | components/Dashboard.tsx:80 | A higher score never gets a lower band on either scale, and 75 is yellow as a score but green as an average. |
| ResultsView.IncorrectCount | components/ResultsView.tsx:30-31 | Correct and incorrect counts add up to the number of questions; with at most one answer per question the incorrect count is not negative. |
| ResultsView.ScoreFacts | components/ResultsView.tsx:25-28 | The score is in 0..100 and 0 without correct answers. For quizzes under 200 questions it is 100 exactly when nothing is incorrect. |
| ResultsView.ConfettiThreshold | components/ResultsView.tsx:38-47 | Outside review mode the results screen fires confetti exactly when at least 69.5 % of the questions are answered correctly, the point from which the rounded score reaches 70; in review mode it never does. The `>= 70` threshold is inclusive, unlike the `> 70` of `App.tsx`. |
| ResultsView.IncorrectAnswers | components/ResultsView.tsx:58 | The answers sent to the study guide are exactly the incorrect ones, and they number the answers minus the correct ones. |
| ResultsView.FetchedGuideHasMistakes | components/ResultsView.tsx:49-59 | With one answer per question, when the guide is fetched the list sent is not empty. The service's mastery text then comes back only if the model itself wrote it. |
| ResultsView.FindAnswer | components/ResultsView.tsx:81 | The lookup finds nothing exactly when no answer has the id; otherwise it returns the first answer with that id. |
| ResultsView.TableRow | components/ResultsView.tsx:80-90 | Row `i` is numbered `Q{i+1}` and shows the question and its right answer. The answer column shows the first matching answer's text when it is not empty, and `-` when there is no answer or its text is empty; so it reads `-` exactly when there is no answer or its text is empty or is itself `-`. The status is "Correct" exactly when the first matching answer is correct, and "Incorrect" otherwise. |
| ResultsView.TableData | components/ResultsView.tsx:80 | One row per question, in question order. |
| ResultsView.RowNumbersDistinct | components/ResultsView.tsx:84 | No two rows share a number. |
| ResultsView.CleanGuide | components/ResultsView.tsx:112 | The cleaned text contains none of the markdown characters: asterisk, underscore, hash and backtick. |
| ResultsView.CleanGuideKeepsText | components/ResultsView.tsx:112 | Every other character keeps its number of occurrences. Cleaning distributes over concatenation, so order is kept, and cleaning twice equals cleaning once. |
| ResultsView.CleanGuideExample | components/ResultsView.tsx:112 | `## **Tip**` becomes ` Tip`. |
| ResultsView.BoldEndCleaned | components/ResultsView.tsx:112 | `Tip**` becomes `Tip`. |
| ResultsView.HeadingMarksCleaned | components/ResultsView.tsx:112 | `## **` becomes a single space. |
| ResultsView.OnlyMarkdown | components/ResultsView.tsx:112 | Two markdown characters vanish entirely. |
| QuizCard.CardCheckIsStricter | components/QuizCard.tsx:37 | Whatever the card's caseless, untrimmed check accepts, the trimmed check of the other screens accepts. |
| QuizCard.CardCheckCountsPadding | components/QuizCard.tsx:37 | The converse fails: `" Paris "` passes the trimmed check and fails the card's. |
| QuizCard.CardCheckIgnoresCase | components/QuizCard.tsx:37 | `PARIS` is accepted for `paris`. |
| QuizCard.FibSubmission | components/QuizCard.tsx:30-35 | Nothing is submitted for text of white space alone. Anything else submits its trimmed, non-empty form, which starts and ends with a non-space. |
| QuizCard.FibSubmissionIgnoresPadding | components/QuizCard.tsx:30-35 | Padding around the typed text never changes what is submitted. |
| QuizCard.ShownOptions | components/QuizCard.tsx:72 | An MCQ question shows its own options (none when it has none), a true/false question `True` and `False`, and a fill-in question none. |
| QuizCard.TrueFalseIgnoresOptions | components/QuizCard.tsx:107 | A true/false question's buttons do not depend on its options. |
| QuizCard.StateClass | components/QuizCard.tsx:72-84 | The highlight decision table, with the result shown: the actual answer is right first, otherwise a selected wrong option is wrong, otherwise the option is dimmed. With the result hidden, only a selected MCQ option is chosen. Right occurs exactly when the result is shown on the actual answer. |
| QuizCard.OptionClick | components/QuizCard.tsx:90 | A click answers, with its option, exactly when the card is not disabled. |
| ResultsTable.ScoreAndIncorrect | components/ResultsTable.tsx:11-14 | With one answer per active question the score is in 0..100, and `hasIncorrect` holds exactly when some answer is wrong. For fewer than 200 questions, that is exactly when the score is below 100. |
| ResultsTable.QuestionCell | components/ResultsTable.tsx:26 | The cell is the first 50 characters of the question followed by `...`, whether or not anything was cut. |
| ResultsTable.ExportRowOf | components/ResultsTable.tsx:24-30 | Row `i` is `Q{i+1}`, the shortened question, the answer given, the right answer, and `PASS` exactly when correct, `FAIL` exactly when not. |
| ResultsTable.ExportRows | components/ResultsTable.tsx:24 | One row per recorded answer, in answer order. |
| ResultsTable.PassRowsAreCorrectAnswers | components/ResultsTable.tsx:29 | The report has as many `PASS` rows as correct answers. |
| ResultsTable.RowLabelsDistinct | components/ResultsTable.tsx:25 | No two rows share a label. |
| ResultsTable.ShortQuestionGetsDots | components/ResultsTable.tsx:26 | `Capital?` becomes `Capital?...`. |
| GeminiService.CappedText | services/geminiService.ts:20-41 | PDF extraction succeeds only on a loaded document, with the assembly of its first fifteen pages. Every failure becomes the single "Unable to read PDF" message. |
| GeminiService.ExtractTextFromPdf | services/geminiService.ts:20-41 | The page loop over `1..min(numPages, 15)` produces exactly the capped text. |
| GeminiService.CapIgnoresLaterPages | services/geminiService.ts:27 | Pages after the fifteenth never change the outcome. |
| GeminiService.CappedTextIsPrefix | services/geminiService.ts:27-35 | A readable document yields a prefix of its full text, and all of it with at most fifteen pages. |
| GeminiService.SixteenthPageIgnored | services/geminiService.ts:27 | A sixteenth page that cannot be read does not make extraction fail. |
| GeminiService.SafeContent | services/geminiService.ts:51 | At most 30 000 characters are sent, always a prefix of the content, and all of it when it fits. |
| GeminiService.TemperatureTenths | services/geminiService.ts:88 | The temperature is 0.7 exactly for `Hard` and 0.5 otherwise. |
| GeminiService.BuildQuizRequest | services/geminiService.ts:43-91 | The request carries the topic, types, difficulty and count as given, and at most 30 000 characters from the start of the content. Its temperature is 0.7 exactly for `Hard`. |
| GeminiService.SliceTo | services/geminiService.ts:94 | `slice(0, end)` returns a prefix; its length is `min(end, length)` for a non-negative end, and counts from the back for a negative one. |
| GeminiService.GenerateQuiz | services/geminiService.ts:92-97 | A failed call and unparsable text fail, and every failure carries one fixed message. Missing text gives the empty list. A parsed list is cut to `count`, is a prefix of the parsed list, and has exactly `count` questions when enough were parsed. |
| GeminiService.TextOr | services/geminiService.ts:120 | The reply's text, unless it is missing or empty, in which case the fallback. |
| GeminiService.Criticism | services/geminiService.ts:101-124 | The model's text, "Performance analysis complete." when it is empty, "Great job completing the quiz!" on failure; never empty. |
| GeminiService.StudyGuide | services/geminiService.ts:126-161 | With no mistakes, the canned mastery text whatever the model would say. Otherwise it is the model's text, "Study guide unavailable." when that is empty, or "Could not generate study guide." on failure. It is never empty. |
| PdfText.PageLine | services/geminiService.ts:33-34 | A page contributes its items joined by single spaces and one final newline. |
| PdfText.Assemble | services/fileService.ts:45-52 | Assembly succeeds exactly when every page reads; a failure reports the error of some failing page. |
| PdfText.AssembleErrSticks | services/fileService.ts:45-52 | Once a prefix of the pages fails, further pages do not change the outcome. |
| PdfText.FirstErrorWins | services/fileService.ts:45-52 | The error reported is that of the first failing page. |
| PdfText.AssembleAppend | services/fileService.ts:51 | The text of `a + b` is the text of `a` followed by the text of `b`. |
| PdfText.AssemblePrefix | services/fileService.ts:45-52 | The text of the first `k` pages is a prefix of the text of all pages. |
| PdfText.OneNewlinePerPage | services/fileService.ts:51 | When no text item holds a newline, the text has exactly one newline per page. |
| FileService.Route | services/fileService.ts:8-23 | A PDF MIME type wins. Next, DOCX is chosen by its MIME type or a `.docx` name, then plain text by MIME type. Each parser is chosen exactly under its condition, and nothing is chosen otherwise. |
| FileService.DocxNameBeatsTextMime | services/fileService.ts:13-17 | `notes.docx` with MIME `text/plain` goes to the DOCX reader. |
| FileService.TxtNameAloneUnsupported | services/fileService.ts:18-22 | `notes.txt` with another MIME type is unsupported. |
| FileService.ParsePdf | services/fileService.ts:40-55 | The loop over every page, uncapped, yields the full assembled text, or the first error. |
| FileService.ParseFile | services/fileService.ts:8-23 | The outcome is the chosen reader's, or the "Unsupported file type" error. |
| QuizSetup.Toggle | components/QuizSetup.tsx:16-18 | The type becomes selected exactly when it was not, and no other type changes. An absent type is appended at the end; a present one is removed, so the list gets shorter. |
| QuizSetup.ToggleTwiceMembership | components/QuizSetup.tsx:16-18 | Toggling twice restores which types are selected. |
| QuizSetup.ToggleTwiceRestoresAbsent | components/QuizSetup.tsx:16-18 | Toggling an unselected type twice restores the list exactly. |
| QuizSetup.ToggleTwiceReorders | components/QuizSetup.tsx:16-18 | Toggling a selected type twice moves it to the end: `[MCQ, TF]` becomes `[TF, MCQ]`. |
| QuizSetup.TitleOr | components/QuizSetup.tsx:28-29 | The first non-empty of topic, file name and fallback; never empty with a non-empty fallback. |
| QuizSetup.TitlesDifferOnlyWithoutTopicOrName | components/QuizSetup.tsx:28-29 | The generation title and the session title differ exactly when there is neither a topic nor a named file. |
| QuizSetup.QuizSetupState.constructor | components/QuizSetup.tsx:10-14 | Topic mode, no topic, no file, not loading, `['MCQ']`. |
| QuizSetup.QuizSetupState.SetMode | components/QuizSetup.tsx:48 | Only the mode changes; topic and file are kept. |
| QuizSetup.QuizSetupState.SetTopic | components/QuizSetup.tsx:66 | Only the topic changes. |
| QuizSetup.QuizSetupState.PickFile | components/QuizSetup.tsx:75-76 | A pick replaces the file, an empty pick keeps it; nothing else changes. |
| QuizSetup.QuizSetupState.ToggleType | components/QuizSetup.tsx:16-18 | Only the types change, by the toggle. |
| QuizSetup.QuizSetupState.HandleStart | components/QuizSetup.tsx:20-35 | Nothing happens without a type. The content is the topic, unless a file is chosen in file mode. The request carries the default difficulty and count. A quiz that arrives starts in the store under the session title; any failure alerts and leaves the store alone. Loading ends false. |
| QuizGame.QuizGameState.constructor | components/QuizGame.tsx:8-10 | The game starts at index 0, with no selection and nothing revealed, on a store holding a fresh, non-empty quiz. |
| QuizGame.QuizGameState.SelectOption | components/QuizGame.tsx:77 | An option click sets the selection unless an answer is being revealed. |
| QuizGame.QuizGameState.TypeAnswer | components/QuizGame.tsx:101 | The fill-in input always sets the selection. |
| QuizGame.QuizGameState.HandleSubmit | components/QuizGame.tsx:15-35 | Exactly one answer is appended, carrying the question's id, text and answer, the selection, and the trimmed caseless verdict. Otherwise questions, topic and roast are unchanged. Then the game moves to the next question (selection cleared, reveal off), or on the last question shows the results without advancing. |
| ApiKeyModal.Submit | components/ApiKeyModal.tsx:15-26 | A blank key shows "Please enter a valid API key" and saves nothing. Any other key is saved as typed. Without the `AIza` prefix the warning is shown too; with it the error is left as it was. |
| ApiKeyModal.SavedIffNotBlank | components/ApiKeyModal.tsx:17-25 | The key is saved exactly when it is not white space alone, and never empty. |
| ApiKeyModal.PaddedKeyIsSavedWithWarning | components/ApiKeyModal.tsx:21-25 | `" AIzaX"` is saved with its space, and the warning is shown. |
| ApiKeyModal.ApiKeyModalState.constructor | components/ApiKeyModal.tsx:12-13 | Empty input and no error. |
| ApiKeyModal.ApiKeyModalState.Edit | components/ApiKeyModal.tsx:57-60 | Editing sets the text and clears the error. |
| ApiKeyModal.ApiKeyModalState.HandleSubmit | components/ApiKeyModal.tsx:15-26 | The error shown and the key saved are the outcome of the submit; the input is untouched. |
| UseQuizStore.Store.constructor | store/useQuizStore.ts:36-41 | The intro view, no topic, questions, answers or roast. |
| UseQuizStore.Store.SetView | store/useQuizStore.ts:43 | Only the view changes. |
| UseQuizStore.Store.StartQuiz | store/useQuizStore.ts:45-51 | The quiz view with the topic and questions, and no answers or roast. |
| UseQuizStore.Store.AddAnswer | store/useQuizStore.ts:53-55 | Exactly one answer is appended at the end; earlier answers and all other fields are unchanged. |
| UseQuizStore.Store.SetRoast | store/useQuizStore.ts:57 | Only the roast changes. |
| UseQuizStore.Store.Reset | store/useQuizStore.ts:59-65 | Exactly the initial state, whatever the state was. |
| QuizStore.Store.constructor | store/quizStore.ts:26-31 | The hero view, no config, questions, answers or feedback. |
| QuizStore.Store.SetView | store/quizStore.ts:33 | Only the view changes. |
| QuizStore.Store.StartSetup | store/quizStore.ts:35 | Only the view changes, to setup. |
| QuizStore.Store.StartQuiz | store/quizStore.ts:37-43 | Config and questions stored, answers and feedback cleared, quiz view. |
| QuizStore.Store.SubmitAnswer | store/quizStore.ts:45-47 | Exactly one answer is appended; earlier answers and all other fields are unchanged. |
| QuizStore.Store.SetAiFeedback | store/quizStore.ts:49 | Only the feedback changes. |
| QuizStore.Store.Reset | store/quizStore.ts:51-57 | Exactly the initial state. |
| Text.TrimStart | App.tsx:206 | Leading trim returns a suffix of the text that is empty or starts with a non-space. |
| Text.TrimStartDropsWhitespace | App.tsx:206 | What leading trim removes is white space only. |
| Text.TrimEnd | App.tsx:206 | Trailing trim returns a prefix of the text that is empty or ends with a non-space. |
| Text.TrimEndDropsWhitespace | App.tsx:206 | What trailing trim removes is white space only. |
| Text.BlankIffAllWhitespace | App.tsx:663 | `s.trim()` is empty exactly when `s` consists of white space only. |
| Text.TrimPadded | App.tsx:206 | Trimming text padded with white space gives the trim of the unpadded text. |
| Text.TrimIdempotent | App.tsx:206 | Trimming twice equals trimming once. |
| Text.LowerTrimCommute | App.tsx:206 | Lower-casing and trimming commute. |
| Text.LowerIdempotent | App.tsx:206 | Lower-casing twice equals lower-casing once. |
| Text.RemoveCharsCounts | components/ResultsView.tsx:112 | Removing a set of characters leaves none of them and keeps the number of occurrences of every other character. |
| Text.RemoveCharsAppend | components/ResultsView.tsx:112 | Removal distributes over concatenation. |
| Text.BeforeFirstSplit | components/SetupPanel.tsx:39 | `split('.')[0]` of `stem.rest` with a dot-free stem is the stem. |
| Text.NatToStringRoundTrip | components/ResultsView.tsx:84 | The decimal rendering of a number reads back as that number. |
| Text.NatToStringInjective | components/ResultsView.tsx:84 | Different numbers render differently. |

## Left out

- Rendering: markup, Tailwind classes, framer-motion, the confetti animation itself, ReactMarkdown, charts, progress bars, the loading-message rotation, and the jsPDF/autoTable layout. The model keeps only the decisions they display.
- Timers: the `setTimeout` delays of `App.tsx` and `components/QuizGame.tsx` are collapsed into one step with the handler. The stale-closure races they allow are not modelled. In particular, `LiteApp.LiteSession.GoToLanding` and `LiteApp.LiteSession.GoToSetup` require that no advance is pending, although the X button (src/App.tsx:196) and the footer (src/App.tsx:412-416) can be pressed during the 600 ms delay. Only `src/App.tsx` keeps its advance as a separate step (`LiteApp.LiteSession.Advance`), because its header is visible in between.
- Awaited calls: each `await` is collapsed into one atomic step together with the code after it. This covers `QuizApp.Session.Generate` (App.tsx:178-202), `LiteApp.LiteSession.Generate` (src/App.tsx:106-122), `SetupPanel.SetupPanelState.OnDrop` (components/SetupPanel.tsx:28-46) and `QuizSetup.QuizSetupState.HandleStart` (components/QuizSetup.tsx:20-35). Clicks made while a request runs are not modelled, such as Back (App.tsx:314) or the X button (src/App.tsx:196), and neither is the loading state they would interrupt.
- Outside libraries: pdf.js, mammoth, FileReader and the Gemini SDK. What they return is a parameter. The prompt texts are not modelled, because they only go to the model.
- `src/services/geminiService.ts`: it does not define the functions `src/App.tsx` imports from it, so what `src/App.tsx` gets from extraction and generation is a parameter of `LiteApp.LiteSession.Generate`. `api/gemini.ts` is not part of this model.
- `QuizApp.Session`: the `loading` hook of `App.tsx` only disables a button while a request runs, and is not a field.
- `Text.Lower`: it lower-cases ASCII letters only; JavaScript's full Unicode case mapping is not modelled.
- String lengths: a Dafny `char` is one Unicode scalar value, while JavaScript counts UTF-16 code units. So `GeminiService.SafeContent` (`slice(0, 30000)`) and `ResultsTable.QuestionCell` (`substring(0, 50)`) cut differently on text with characters outside the Basic Multilingual Plane, such as emoji.
- `ResultsTable`: `avgTime` is floating point, and NaN for an empty list, so it is left out. `activeQuestions`, `activeQuizConfig` and `retryIncorrect` are not defined by `store/quizStore.ts`; the number of active questions is a parameter, and no retry behaviour is modelled.
- `components/Results.tsx`: not part of this model. It reads store fields that `store/useQuizStore.ts` does not define, and its score repeats the others.
- `components/Hero.tsx` and `components/Landing.tsx`: not part of this model. They hold floating-point tilt maths, and `Hero` calls a `startSetup` the store it uses lacks.
- Persistence: no shown file implements the LocalStorage history behind `components/Dashboard.tsx`, so the saved quizzes are a parameter.
- Input coercion: the sliders' `parseInt` and the HTML range widgets appear only as the ranges in the setters' preconditions.
- `Scoring.Percent`: it rounds the exact rational `100c/n`, not the double-precision value of `c / n * 100`. The results differ for some quiz sizes of 40 and more (23/40, 29/200, 57/200, 46/80), larger than any count the shown code sets, but reachable through the unbounded `activeCount` of `ResultsTable.Score`. IEEE 754 arithmetic is not modelled.
- `QuizGame.QuizGameState.constructor`: it requires a non-empty quiz. `QuizSetup.QuizSetupState.HandleStart` can start the store on an empty list (a reply without text, or `"[]"`), and the component's first render then fails reading `q.id` (components/QuizGame.tsx:12, 49). That crash is not modelled.
- `QuizCard.StateClass`: modelled for MCQ and true/false buttons only; fill-in questions have no option buttons.
- `QuizGame.QuizGameState.HandleSubmit`: the one-step form also drops the window in which `reveal` is set but the answer is not yet recorded.

## Findings

| source | as written | input that shows it | evidently intended | confidence | as-written member | corrected member |
|---|---|---|---|---|---|---|
| src/App.tsx:290 | The game header divides the correct answers by `currentIndex`, or by 1 when it is 0. | In a two-question quiz, answer the first question correctly, then the second. Until the 600 ms advance runs, `currentIndex` is 1 while two answers are recorded, so the header shows 200 %. | Divide by the number of answers given, so the shown percentage stays within 0..100. | not executed | LiteApp.RunningPercentOverflows | LiteApp.RunningPercent |
