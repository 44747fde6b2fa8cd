# EasyEnglishWithAI — a Dafny model of the quiz and the profile back end

This project models four parts of the EasyEnglishWithAI language-learning app
and proves properties about them:

- **The phrasal-verb quiz generator** (`phrasal_verbs.dfy`, module
  `PhrasalVerbs`). It holds the fixed table of thirty phrasal verbs (id, verb,
  Turkish meaning, example sentence). It models the in-place Fisher–Yates
  `shuffleArray` as an array method, and `generateQuestions` as pure
  functions. Each generated question has a prompt, the correct meaning mixed
  with up to three meanings of other rows, and the index of the correct
  meaning. The random draws of every shuffle are a parameter
  (`Rand`: step `i` may swap with any position `0..i`). Every property is
  therefore proved for all possible draws.
- **The quiz screen** (`test_screen.dfy`, module `QuizScreen`). The class
  `TestScreen` holds the screen's four pieces of state and one method per
  event handler (pick an option, next, restart). It keeps an invariant: at
  most one point per answered question, and the score view is reachable
  only after the last answer.
- **The bearer-token middleware** (`auth_middleware.dfy`, module
  `AuthMiddleware`). It takes the token out of the `Authorization` header and
  classifies the verifier's outcome into one of five 401 messages, or accepts
  the request and records the user before calling the next handler. The
  JSON Web Token verifier is an oracle parameter.
- **The two profile handlers** (`user_profile.dfy`, module `UserProfile`).
  `GET /api/users/me` and `PUT /api/users/me` are modelled with the database
  as an oracle. Each handler reports the database access it made and the
  status and body it answers with.

Two support modules sit beside these:

- `Text` (`text.dfy`) gives JavaScript's `split` with a one-character
  separator and `trim` with ECMAScript's whitespace set.
- `Optional` (`optional.dfy`) gives `Option` and JavaScript truthiness of an
  optional string.

One behaviour of the quiz is proved rather than corrected. Rows "6" (Carry
on) and "19" (Go on) share the meaning "Devam etmek". Distractors are
filtered by id, not by text. The question on "Go on" can therefore show its
correct meaning twice, and only the first copy scores
(`PhrasalVerbs.RepeatedCorrectMeaning` exhibits concrete draws that do it).
The model keeps the behaviour exactly as written.

## Model

| member | source | states |
|---|---|---|
| Text.Split | backend/src/middleware/auth.middleware.ts:11 | `split` with a one-character separator yields at least one field, and no field contains the separator |
| Text.JoinSplit | backend/src/middleware/auth.middleware.ts:11 | splitting loses nothing: joining the fields with the separator gives back the input |
| Text.SplitAtFirst | backend/src/controllers/user.controllers.ts:35 | the first field is the text before the first separator; the later fields are the split of the rest |
| Text.Trim | backend/src/controllers/user.controllers.ts:56 | `trim` returns a contiguous middle of the input that neither starts nor ends with whitespace, and only whitespace is cut from either end |
| Text.TrimEmptyIffBlank | backend/src/controllers/user.controllers.ts:56 | `trim()` is empty exactly when the input is all whitespace (both directions) |
| PhrasalVerbs.TableIds | utils/phrasalVerbs.ts:8-189 | the table has thirty rows with ids "1" to "30" in order, so ids are pairwise distinct |
| PhrasalVerbs.SharedMeaning | utils/phrasalVerbs.ts:117-122 | row "19" (Go on) has the same meaning, "Devam etmek", as row "6" (Carry on) |
| PhrasalVerbs.Swap | utils/phrasalVerbs.ts:195 | the destructuring swap keeps the length and puts each of the two elements in the other's place (SwapExchanges adds that no other position changes) |
| PhrasalVerbs.SwapExchanges | utils/phrasalVerbs.ts:195 | the destructuring swap exchanges positions i and j and leaves every other position as it was |
| PhrasalVerbs.Draw | utils/phrasalVerbs.ts:194 | the draw of step i is a position in 0..i, the range of `Math.floor(Math.random() * (i + 1))` |
| PhrasalVerbs.ShuffleStep | utils/phrasalVerbs.ts:193-196 | one loop step swaps position i with its draw and goes on with the steps from i - 1 |
| PhrasalVerbs.SwapPermutes | utils/phrasalVerbs.ts:195 | a swap keeps the multiset of elements |
| PhrasalVerbs.ShuffleSteps | utils/phrasalVerbs.ts:193-196 | the loop steps from i down to 1 keep the length |
| PhrasalVerbs.ShuffleStepsPermutes | utils/phrasalVerbs.ts:193-196 | the loop steps from i down to 1 keep the multiset of elements, for every sequence of draws |
| PhrasalVerbs.Shuffled | utils/phrasalVerbs.ts:192-198 | what `shuffleArray` leaves in the array, as a value: the loop's steps from the last position down to 1; it keeps the length (ShuffledIsPermutation and ShuffleArray state the rest) |
| PhrasalVerbs.ShuffledIsPermutation | utils/phrasalVerbs.ts:192-198 | `shuffleArray` returns a permutation of its input: same length, same elements with the same multiplicities |
| PhrasalVerbs.ShortUnchanged | utils/phrasalVerbs.ts:193 | arrays of length 0 or 1 are left as they were, since the loop does not run |
| PhrasalVerbs.ShuffleStepsMap | utils/phrasalVerbs.ts:192-198 | shuffling commutes with mapping each element: the same draws move the images as they move the elements |
| PhrasalVerbs.Map | utils/phrasalVerbs.ts:211 | `map` keeps the length, and element k of the result is the function applied to element k |
| PhrasalVerbs.ShuffleArray | utils/phrasalVerbs.ts:192-198 | the in-place loop leaves the array holding the specified shuffle of its old contents, a permutation of them, and returns the same array |
| PhrasalVerbs.FindIndex | utils/phrasalVerbs.ts:216 | `findIndex` gives -1 exactly when the value is absent, and otherwise the first position holding it |
| PhrasalVerbs.OthersThan | utils/phrasalVerbs.ts:210 | a row is kept exactly when it is in the table and its id differs from the given id |
| PhrasalVerbs.Slice | utils/phrasalVerbs.ts:213 | `slice(0, n)` is the prefix of length min(n, length) |
| PhrasalVerbs.QuestionText | utils/phrasalVerbs.ts:219 | the prompt opens with the verb in double quotes |
| PhrasalVerbs.Distractors | utils/phrasalVerbs.ts:209-213 | the meanings of the rows with another id, shuffled, first three kept: min(3, n) of them (DistractorsFromOtherRows adds that they come from distinct other rows) |
| PhrasalVerbs.Options | utils/phrasalVerbs.ts:215 | the correct meaning and the distractors, shuffled: one more option than distractors (OptionsHoldMeaning adds that they are a permutation of the two) |
| PhrasalVerbs.MakeQuestion | utils/phrasalVerbs.ts:205-222 | the question for one row: its prompt is the verb's, and `answerIndex` is -1 exactly when the meaning is absent, otherwise an option index (AnswerIndexIsCorrect proves it is never -1) |
| PhrasalVerbs.GenerateQuestions | utils/phrasalVerbs.ts:201-224 | one question per table row |
| PhrasalVerbs.DistractorsFromOtherRows | utils/phrasalVerbs.ts:209-213 | the distractors are min(3, n) meanings of the n rows with another id, each row used at most once |
| PhrasalVerbs.OptionsHoldMeaning | utils/phrasalVerbs.ts:215 | the options are a permutation of the correct meaning plus the distractors, so the correct meaning is among them |
| PhrasalVerbs.AnswerIndexIsCorrect | utils/phrasalVerbs.ts:206-221 | the prompt names the verb; `answerIndex` is never -1, points at the correct meaning, and no earlier option holds it |
| PhrasalVerbs.OptionFromPool | utils/phrasalVerbs.ts:206-215 | an option other than the correct meaning is a meaning drawn from the other rows |
| PhrasalVerbs.OptionsAreMeaningAndDistractors | utils/phrasalVerbs.ts:206-215 | a question has 1 + min(3, n) options; apart from one copy of the correct meaning, they are meanings of distinct other rows |
| PhrasalVerbs.OthersThanCount | utils/phrasalVerbs.ts:210 | with distinct ids, excluding the verb's own id removes exactly one row |
| PhrasalVerbs.TableQuestionsHaveFourOptions | utils/phrasalVerbs.ts:209-215 | every question built from the thirty-row table has four options, whatever the draws |
| PhrasalVerbs.GenerateQuestionsPerRow | utils/phrasalVerbs.ts:201-224 | the questions are built from a permutation of the table's rows, question k from row k of it |
| PhrasalVerbs.GeneratedPrompts | utils/phrasalVerbs.ts:205-219 | the prompts of the questions are exactly the table's prompts, each as often as in the table |
| PhrasalVerbs.DistinctIdsOnce | utils/phrasalVerbs.ts:8-189 | in a table with distinct ids every row occurs once |
| PhrasalVerbs.EachVerbAskedOnce | utils/phrasalVerbs.ts:202-205 | every row of the real table is asked about exactly once, whatever the draws |
| PhrasalVerbs.OthersThanRemovesOne | utils/phrasalVerbs.ts:209-210 | with distinct ids, the filter keeps the rows before and after the excluded one, in order |
| PhrasalVerbs.FrontFromFiveSwaps | utils/phrasalVerbs.ts:193-196 | a legal sequence of draws under which the shuffle only exchanges positions 5 and 0 |
| PhrasalVerbs.KeepInPlaceIdentity | utils/phrasalVerbs.ts:193-196 | the draws that always pick the current position leave the array unchanged |
| PhrasalVerbs.FrontDistractor | utils/phrasalVerbs.ts:209-213 | in a table with distinct ids, under draws that bring pool position 5 to the front, the first of three distractors of a later row is the meaning of row 5 |
| PhrasalVerbs.RepeatedMeaningIn | utils/phrasalVerbs.ts:209-216 | in any table with distinct ids where a later row shares row 5's meaning, some legal draws show that meaning twice in front, and `answerIndex` is 0 |
| PhrasalVerbs.RepeatedCorrectMeaning | utils/phrasalVerbs.ts:209-216 | for the real table, some legal draws give "Go on" four options whose first two are both its correct meaning "Devam etmek"; `answerIndex` marks only the first |
| QuizScreen.TestScreen.constructor | app/testscreen/index.tsx:14-17 | the screen opens on question 0 with score 0, nothing picked, the score view off, and the invariant holding |
| QuizScreen.TestScreen.OptionsDisabled | app/testscreen/index.tsx:79 | the options are disabled exactly when one has been picked for the current question; OnSelectOption then changes nothing |
| QuizScreen.TestScreen.NextDisabled | app/testscreen/index.tsx:94 | the next button is disabled exactly when the options are not, i.e. until an option is picked; OnNext then changes nothing |
| QuizScreen.TestScreen.OnSelectOption | app/testscreen/index.tsx:32-38 | once an option is picked, later picks change nothing; the first pick is recorded and adds one point exactly when it is the answer index; the invariant is kept |
| QuizScreen.TestScreen.OnNext | app/testscreen/index.tsx:40-48 | nothing happens before a pick; after one, the screen moves to the next question with nothing picked, or on the last question turns on the score view; the invariant is kept |
| QuizScreen.TestScreen.OnRestart | app/testscreen/index.tsx:50-55 | all four pieces of state return to their initial values |
| QuizScreen.TestScreen.Progress | app/testscreen/index.tsx:84-87 | the progress numerator never exceeds the question count, reaches it exactly when the last question is answered, and is at least the score |
| AuthMiddleware.ExtractToken | backend/src/middleware/auth.middleware.ts:10-11 | a token found in the header is non-empty and has no space |
| AuthMiddleware.ErrorMessage | backend/src/middleware/auth.middleware.ts:29-35 | an expired token, a malformed token and any other verifier error each get their own message |
| AuthMiddleware.Authenticate | backend/src/middleware/auth.middleware.ts:9-37 | every rejection has status 401; an accepted user has a non-empty id and email |
| AuthMiddleware.RejectionMessages | backend/src/middleware/auth.middleware.ts:13-35 | each rejection carries its cause's message: no token, the verifier's error by its name, or a payload without a truthy id or email |
| AuthMiddleware.TokenOfHeader | backend/src/middleware/auth.middleware.ts:11 | for a header "word token[ more]", the token is the second word; the scheme word is not checked |
| AuthMiddleware.HeaderOfToken | backend/src/middleware/auth.middleware.ts:11 | a token is only ever the text between the first space and the next space or the end |
| AuthMiddleware.NoSpaceNoToken | backend/src/middleware/auth.middleware.ts:11-15 | a header without a space has no token |
| AuthMiddleware.NoTokenNoVerification | backend/src/middleware/auth.middleware.ts:13-18 | without a token the answer is the missing-token 401, whatever the verifier would say |
| AuthMiddleware.AcceptExactly | backend/src/middleware/auth.middleware.ts:18-25 | a request passes exactly when its token verifies to a payload with a truthy id and email; the recorded user carries those two |
| AuthMiddleware.Effects | backend/src/middleware/auth.middleware.ts:13-35 | what the middleware does for a verdict: one response on rejection, the user set then `next` called on acceptance (NextOnlyAfterUser and Exchange.Run state it) |
| AuthMiddleware.NextOnlyAfterUser | backend/src/middleware/auth.middleware.ts:24-25 | `next` is called once on acceptance, right after the user is set, and never on rejection |
| AuthMiddleware.Exchange.Run | backend/src/middleware/auth.middleware.ts:9-37 | running the middleware appends exactly the effects of the verdict to what the exchange has done so far |
| UserProfile.DisplayName | backend/src/controllers/user.controllers.ts:35 | the shown name is never empty; it is the stored name when truthy, and "Kullanıcı" when there is neither name nor email |
| UserProfile.DisplayNameFromEmail | backend/src/controllers/user.controllers.ts:35 | without a name, an email shows the part before its first '@', or all of itself if it has no '@'; an empty part falls back to "Kullanıcı" |
| UserProfile.GetUserProfile | backend/src/controllers/user.controllers.ts:6-44 | the database is queried exactly when the user id is truthy, and only for that id; the status is 200, 401, 404 or 500 |
| UserProfile.GetStatuses | backend/src/controllers/user.controllers.ts:10-31 | each status is tied to its cause: 401 exactly without a user id, whatever the database; 404 for code PGRST116 or no row; 500 for other errors or a throw; 200 for a row |
| UserProfile.GetEchoesRow | backend/src/controllers/user.controllers.ts:33-38 | a 200 answer carries the row's id, email and creation time, with the display name as its name |
| UserProfile.CheckName | backend/src/controllers/user.controllers.ts:56 | a name passes only if it is a string, with its non-empty trim; it is refused exactly when missing, falsy, or a string whose trim is empty; the check throws exactly for a truthy non-string (no `trim`) or a missing body |
| UserProfile.CheckNameByTrim | backend/src/controllers/user.controllers.ts:56 | a string name is refused exactly when its trim is empty, and otherwise passes with that trim |
| UserProfile.UpdateUserProfile | backend/src/controllers/user.controllers.ts:47-83 | a write happens only with a truthy user id, and for that id; the status is 200, 400, 401 or 500 |
| UserProfile.UpdateChecksInOrder | backend/src/controllers/user.controllers.ts:50-58 | a request without a parsed body is 500 with no write, whatever the user id; otherwise without a user id the answer is 401 with no write, whatever the name; next, a missing, falsy or all-whitespace name is 400 with no write, and a truthy non-string name is 500 with no write |
| UserProfile.UpdateStatuses | backend/src/controllers/user.controllers.ts:49-81 | each status holds exactly when its cause does: 401 without a user id (when there is a body); 400 for a refused name or a write error; 500 for a missing body, a non-string name, a throwing client or a write returning no row; 200 for a returned row |
| UserProfile.UpdateWritesTrimmed | backend/src/controllers/user.controllers.ts:60-77 | a name that is not blank is written trimmed and non-empty under the caller's id; a write error is 400 "Profil güncellenemedi.", a returned row is a 200 echoing it |
| UserProfile.UpdateSeesOnlyTrim | backend/src/controllers/user.controllers.ts:56-62 | two names with the same trim produce the same write and the same answer |

## Left out

- `Math.random()` is not modelled as floating point. Each shuffle takes its
  draws as a parameter, ranging over every value `Math.floor(Math.random() *
  (i + 1))` can take. No probability (uniformity of the shuffle) is stated.
- PhrasalVerbs.GenerateQuestions: the source shuffles three arrays in place:
  a copy of the table, each `wrongAnswers` array, and the fresh
  `[correctAnswer, ...shuffledWrongAnswers]` options array
  (utils/phrasalVerbs.ts:215). The model treats all three as values, via
  `Shuffled`. Only `ShuffleArray` shows the
  in-place loop on an array; the aliasing of the copy is not modelled.
- The module-level `questions` constant, computed once at import, is a
  parameter of the quiz screen rather than a global.
- QuizScreen.TestScreen.Progress: the progress bar's value is the quotient of
  this numerator by the question count, a floating-point number. Only the
  numerator is modelled.
- The screen's rendering, styling and navigation (`router.push`) are not
  modelled. The screen shown for an empty question list has no handlers, so
  the event methods require a non-empty list.
- AuthMiddleware.Authenticate: `req.user` receives the whole verified payload
  in the source; the model records only its `id` and `email`. A payload claim
  that is truthy but not a string is not represented.
- The JSON Web Token verification itself (signature, expiry) is not modelled:
  `verify` is an oracle returning a payload or a named error.
- An exception thrown by the next handler while it runs inside the
  middleware's `try` would be answered with a 401. The model stops at the
  call of `next`.
- `console.error` logging is not modelled.
- The Supabase client is not modelled. Each database call is an oracle from
  the id (and new name) to its outcome. The query builder's columns and
  filter are fixed by the handler and not represented.
- The update request's body is either absent (`NoBody`: `req.body` left
  undefined by the framework, so destructuring `name` throws and the handler
  answers 500 before the user-id check) or an object whose `name` is a
  string, missing/null, or another JSON value of which only its truthiness
  is kept.
- The rest of the repository is not part of this model: the chat pipeline,
  registration and login, token issuing, and the other screens and
  components.
