# RTGS assistant core, modelled in Dafny

This project models the decision logic of the RTGS productivity assistant:

- **The Python ML service** (`ml_service/app.py`):
  - the meeting-time suggester: busy hours parsed from "10:00 AM - 11:00 AM" strings, then a scan of the working hours 9 to 18 for the first three free ones, with a fallback suggestion;
  - the keyword-based duration predictor;
  - the keyword-based assistant reply.
- **The chat endpoint of the backend** (`chat` in `backend/src/controllers/aiController.ts`):
  - the keyword fallback for the intent;
  - resolution of the chatting and the mentioned user;
  - the free-slot gap finder;
  - the 4 PM conflict check;
  - topic selection for document queries;
  - the reply each intent produces.
- **The sign-up and sign-in field rules** (`validations/validationSchema.ts`). They are read the way the schema library applies them when every rule is checked:
  - the value is trimmed and lower-cased first;
  - then every failing test reports its message, in declaration order;
  - an absent value reports only its required message.
- **The proposal wizard** (`app/workflow-submission.tsx`). It is a class holding the current step and the form. Next, Back and field edits are its methods. The step indicator and the footer buttons are functions of the step.
- **The task-detail screen** (`app/task-detail.tsx`):
  - the subtask checklist, with its defaults and toggling;
  - the local status update after approval.

Modules:

| module | contents |
|---|---|
| `Wrappers` | `Option` |
| `Text` | Substring search (`in`, `includes`), ASCII lower-casing, Python and JavaScript whitespace and trimming, decimal numerals |
| `Keywords` | First-match and last-match keyword tables, the reference definitions for the if/else-if chains and the overwrite loop |
| `MlService` | `ml_service/app.py` |
| `AiController` | `aiController.ts` |
| `ValidationSchema` | `validationSchema.ts` |
| `WorkflowSubmission` | `workflow-submission.tsx` |
| `TaskDetail` | `task-detail.tsx` |

Where the source works by loops and state, the model does too:

- **`MlService`**: `OccupiedSlots`, `IsOccupied`, `ScanDay` and `ScheduleAssistant` are methods whose loops mirror the Python loops. Each is proved equal to a specification function.
- **`AiController`**: `FindFreeSlots` and `SelectTopic` are methods mirroring the `forEach` loops.
- **`WorkflowSubmission`**: `ProposalWizard` is a class whose methods update its fields.

The properties are proved about the specification functions.

Where the source and its description differ, the model follows the code:

- `data.subtasks || [...]` keeps an empty subtask list, because `[]` is truthy in JavaScript. Only a task without a subtask list gets the three defaults.
- "12 AM" is read as hour 12, like "12 PM" (`MlService.MidnightReadsAsNoon`).
- The backend's free slots are meant to lie between 9 AM and 5 PM, but the gap finder does not clip a gap to 5 PM. A meeting that starts after 5 PM yields a gap ending at its start (`AiController.LateMeetingGap`).

## Model

| member | source | states |
|---|---|---|
| Text.Before | ml_service/app.py:66 | `split('-')[0]`: a prefix of the text without the separator, shorter exactly when the separator occurs, and followed by it |
| Text.BeforeJoin | ml_service/app.py:66 | Splitting `a + c + b` at `c`, where `a` has no `c`, gives back `a` |
| Text.ContainsAt | ml_service/app.py:64 | `sub in s` holds exactly when `sub` starts at some index of `s` |
| Text.DecimalRoundTrip | ml_service/app.py:90 | Reading back a printed hour numeral gives the hour |
| Text.TrimIdempotent | validations/validationSchema.ts:7 | Trimming twice is trimming once |
| Keywords.FirstMatch | ml_service/app.py:124-138 | The rule picked is the first whose keywords occur; none is picked exactly when no rule matches |
| Keywords.LastMatch | backend/src/controllers/aiController.ts:203-205 | The keyword picked occurs and no later keyword does; none is picked exactly when no keyword occurs |
| MlService.DropUnderscores | ml_service/app.py:68 | Removing the underscores of a numeral leaves only digits, and leaves a plain numeral as it is |
| MlService.PyIntPlain | ml_service/app.py:68 | `int()` reads a stripped plain numeral as its decimal value |
| MlService.PyIntOfDigits | ml_service/app.py:68 | `int()` reads any non-empty string of ASCII digits (at most 4300) as its decimal value |
| MlService.PyIntDecimal | ml_service/app.py:68 | `int()` reads back every printed hour below 100 |
| MlService.BusyHourOf | ml_service/app.py:64 | A meeting yields a busy hour only when it has a `time` containing '-' |
| MlService.CollectMembers | ml_service/app.py:61-73 | An hour is collected exactly when some entry parses to it; entries that fail are skipped |
| MlService.BusyHoursFromMeetings | ml_service/app.py:61-73 | The busy hours are exactly the hours of the meetings whose time parses |
| MlService.HourTextSplit | ml_service/app.py:66 | The text before '-' of a "h:00 AM - ..." label is its start time and a space |
| MlService.HourTextStrip | ml_service/app.py:66 | Stripping that text gives the start time |
| MlService.HourTextNumber | ml_service/app.py:68 | The text before ':' of "h:00 AM" is the hour numeral |
| MlService.HourTextPM | ml_service/app.py:69 | A start time contains "PM" exactly when it is a PM time |
| MlService.ParseHourText | ml_service/app.py:66-71 | A "h:00 AM/PM - ..." label parses to h, or to h + 12 for PM when h is not 12 |
| MlService.SlotLabelRoundTrip | ml_service/app.py:90-94 | The label printed for any hour 0..23 parses back to that hour |
| MlService.MidnightReadsAsNoon | ml_service/app.py:68-70 | "12:00 AM" and "12:00 PM" both parse to hour 12 |
| MlService.FreeBefore | ml_service/app.py:80-88 | The free hours before a bound all lie in [9, bound) |
| MlService.FreeBeforeNotBusy | ml_service/app.py:83-88 | No free hour is busy |
| MlService.FreeBeforeAscending | ml_service/app.py:78-102 | The free hours come in strictly ascending order |
| MlService.FreeBeforeComplete | ml_service/app.py:80-88 | Every working hour below the bound that is not busy is listed |
| MlService.FreeBeforeMeaning | ml_service/app.py:80-102 | The free hours are exactly the non-busy hours in [9, bound), ascending |
| MlService.FreeBeforePrefix | ml_service/app.py:80-102 | Scanning to an earlier bound gives a prefix of the later scan |
| MlService.FirstFree | ml_service/app.py:99-100 | At most n picks, a prefix of the free hours, all of them when fewer than n |
| MlService.FirstFreeEarliest | ml_service/app.py:80-102 | Every free hour earlier than the last pick is picked |
| MlService.FirstFreeFree | ml_service/app.py:80-102 | Each pick is a free working hour, and the picks ascend |
| MlService.FirstFreeNone | ml_service/app.py:104 | Nothing is picked exactly when every working hour is busy |
| MlService.FirstFreeMeaning | ml_service/app.py:80-102 | The picks are the earliest free hours, ascending, at most n, none only when all are busy |
| MlService.PicksMeaning | ml_service/app.py:77-102 | The suggested hours are the earliest free hours of 9..17, at most three, ascending, none only when all are busy |
| MlService.Render | ml_service/app.py:93-97 | One suggestion per picked hour |
| MlService.RenderAppend | ml_service/app.py:93-97 | A new pick appends its suggestion, numbered by the count so far |
| MlService.RenderAt | ml_service/app.py:90-97 | The n-th suggestion has the hour's label, date "Tomorrow" and confidence 90 - 5n |
| MlService.RenderedSuggestion | ml_service/app.py:90-97 | The n-th suggestion is dated "Tomorrow", has confidence 90 - 5n, and its time parses back to its hour |
| MlService.PicksInDay | ml_service/app.py:55-56 | Every pick lies in [9, 18) |
| MlService.SuggestFallback | ml_service/app.py:104-107 | The response is the single "Day After Tomorrow" fallback exactly when every working hour is busy |
| MlService.SuggestRendered | ml_service/app.py:88-97 | With free hours, the n-th suggestion is dated "Tomorrow", has confidence 90 - 5n, and reads back to the n-th pick |
| MlService.SuggestionsMeaning | ml_service/app.py:46-109 | One to three suggestions; the fallback exactly when all hours are busy; otherwise the earliest free hours, ascending, with confidence 90 - 5n |
| MlService.FallbackReadsAsTen | ml_service/app.py:106 | The fallback's time parses as hour 10 |
| MlService.FreeBeforeStep | ml_service/app.py:80-102 | One more hour of the scan adds that hour exactly when it is not busy |
| MlService.ScanStep | ml_service/app.py:82-97 | One loop iteration keeps the picks equal to the free hours so far and the suggestions to their rendering |
| MlService.ScanComplete | ml_service/app.py:99-107 | When the scan stops, at the end of the day or at three picks, the result is the specified response |
| MlService.OccupiedSlots | ml_service/app.py:61-73 | The parsing loop collects exactly the busy hours |
| MlService.IsOccupied | ml_service/app.py:82-86 | The collision loop reports an hour occupied exactly when it is a busy hour |
| MlService.ScanDay | ml_service/app.py:77-107 | The scan loop produces the specified suggestions for the busy hours |
| MlService.ScheduleAssistant | ml_service/app.py:46-109 | The endpoint's result equals the specified suggestions for its meetings |
| MlService.PredictDurationByRules | ml_service/app.py:118-144 | The prediction is the first matching rule of report > email/mail > meeting > review > urgent, else 1 hour at 0.5; the reasoning quotes the lower-cased description |
| MlService.EmailRuleIsMail | ml_service/app.py:127 | The e-mail rule fires exactly when "mail" occurs |
| MlService.AssistantChatByRules | ml_service/app.py:170-198 | The reply is the first matching group of schedule > task > status > greeting, else unknown; confidence is always 0.95 |
| AiController.ResolveIntentByRules | backend/src/controllers/aiController.ts:37-48 | A trusted NLP intent is kept; otherwise the first matching keyword rule decides, and the NLP intent stays when none matches |
| AiController.TasksOutranksLaterRules | backend/src/controllers/aiController.ts:40-44 | On the fallback path, "tasks" fetches tasks although the query also contains "task" |
| AiController.RescheduleBeatsSchedule | backend/src/controllers/aiController.ts:42-43 | On the fallback path, "reschedule" wins although it contains "schedule" |
| AiController.FindIndex | backend/src/controllers/aiController.ts:55 | `find` returns the first element satisfying the test, none exactly when none does |
| AiController.Find | backend/src/controllers/aiController.ts:65-69 | The element found is the first that satisfies the test |
| AiController.CurrentUser | backend/src/controllers/aiController.ts:55-59 | The user with the given id, else the first user; none exactly when there are no users |
| AiController.MentionedUser | backend/src/controllers/aiController.ts:62-70 | The first user whose name contains the NLP person, else the first whose name occurs in the query; none exactly when neither exists |
| AiController.LastEnd | backend/src/controllers/aiController.ts:103-112 | `lastEnd` is at least 9, at least every end hour, and 9 or some meeting's end |
| AiController.SlotTextsAppend | backend/src/controllers/aiController.ts:109 | Pushing a slot appends its text |
| AiController.TrailingSlotText | backend/src/controllers/aiController.ts:115 | The closing slot reads "... to 5 PM" |
| AiController.FindFreeSlots | backend/src/controllers/aiController.ts:102-116 | The gap-finding loop produces the texts of the specified free slots |
| AiController.LastEndGrows | backend/src/controllers/aiController.ts:111 | `lastEnd` never decreases along the walk |
| AiController.GapsFromMeetings | backend/src/controllers/aiController.ts:108-110 | Every recorded gap runs from `lastEnd` to the start of a meeting that starts later |
| AiController.GapsRecorded | backend/src/controllers/aiController.ts:108-110 | Every meeting that starts after `lastEnd` records its gap |
| AiController.GapsMeaning | backend/src/controllers/aiController.ts:105-112 | A slot is a gap exactly when some meeting starts after the `lastEnd` before it |
| AiController.FreeSlotsShape | backend/src/controllers/aiController.ts:108-116 | Every free slot starts no earlier than 9 and ends after it starts |
| AiController.GapSound | backend/src/controllers/aiController.ts:108-111 | With meetings sorted by start, no hour of a gap is covered by a meeting |
| AiController.FreeSlotsSound | backend/src/controllers/aiController.ts:102-116 | With meetings sorted by start, no hour of a free slot is covered by a meeting |
| AiController.GapsComplete | backend/src/controllers/aiController.ts:105-112 | Every uncovered hour before the final `lastEnd` lies in a gap |
| AiController.FreeSlotsComplete | backend/src/controllers/aiController.ts:102-116 | Every uncovered hour of 9 AM to 5 PM lies in some free slot |
| AiController.GapsBeforeLastEnd | backend/src/controllers/aiController.ts:105-111 | With every meeting ending no earlier than it starts, every gap ends by the final `lastEnd` |
| AiController.GapsOrdered | backend/src/controllers/aiController.ts:105-112 | The recorded gaps come in order: each ends no later than the next begins |
| AiController.FreeSlotsOrdered | backend/src/controllers/aiController.ts:102-116 | The free slots come in order of time, whatever the order of the meetings |
| AiController.LateMeetingGap | backend/src/controllers/aiController.ts:105-116 | A lone 6 PM meeting makes the finder report "9 AM to 6 PM" as free: gaps are not clipped to 5 PM |
| AiController.BusyAt4PM | backend/src/controllers/aiController.ts:170-173 | True exactly when some meeting of today starts at hour 16 |
| AiController.MeetingTextConflict | backend/src/controllers/aiController.ts:175-179 | The conflict reply is given exactly when 4 PM is taken |
| AiController.LastKeywordStep | backend/src/controllers/aiController.ts:203-205 | Each loop step overwrites the topic exactly when its keyword occurs |
| AiController.Topic | backend/src/controllers/aiController.ts:199-206 | The NLP topic when non-empty; else the last topic keyword found; "" exactly when none occurs |
| AiController.SelectTopic | backend/src/controllers/aiController.ts:199-206 | The overwrite loop yields the specified topic |
| AiController.MeetingReply | backend/src/controllers/aiController.ts:154-184 | A meeting request asks for the calendar; confidence becomes 0.98 exactly when a user is mentioned |
| AiController.IntentReply | backend/src/controllers/aiController.ts:86-245 | The reply carries the resolved intent |
| AiController.ResolveNoUser | backend/src/controllers/aiController.ts:55-59 | There is no current user exactly when there are no users |
| AiController.AnswerNoProfile | backend/src/controllers/aiController.ts:75-82 | Without a current user, the profile error with confidence 1; otherwise the resolved intent, with 0.98 only for a meeting request about a known user |
| AiController.AnswerMeetingRequest | backend/src/controllers/aiController.ts:158-180 | A meeting request about a known user gets confidence 0.98, the calendar action, and the conflict text exactly when a meeting starts at 4 PM |
| AiController.AnswerAvailability | backend/src/controllers/aiController.ts:87-121 | An availability check gives the free-day text with no meetings, else the list of free slots, and asks for the calendar |
| AiController.AnswerDocument | backend/src/controllers/aiController.ts:196-240 | A document query opens the first document found by the topic, person and week filter, and offers no action when none is found |
| ValidationSchema.JsLength | validations/validationSchema.ts:8-9 | The JavaScript length lies between the character count and twice it |
| ValidationSchema.JsLengthBasic | validations/validationSchema.ts:8-9 | Text without astral characters has as many code units as characters |
| ValidationSchema.Failures | validations/validationSchema.ts:4-38 | No message exactly when every test passes; each message is some test's message |
| ValidationSchema.ValidateAccepts | validations/validationSchema.ts:4-52 | A present value is accepted exactly when its transformed value is non-empty and passes every test |
| ValidationSchema.RequiredReported | validations/validationSchema.ts:11 | The required message is reported exactly when the value is absent or transforms to "" |
| ValidationSchema.EveryFieldRequired | validations/validationSchema.ts:4-52 | Every field of both schemas reports its required message when absent or empty |
| ValidationSchema.SignupNameAccepted | validations/validationSchema.ts:5-11 | A name is accepted exactly when, trimmed, it has 3 to 100 characters, all ASCII letters or whitespace |
| ValidationSchema.SignupEmailAccepted | validations/validationSchema.ts:13-19 | An e-mail is accepted exactly when, trimmed and lower-cased, it is a non-empty address of at most 255 code units |
| ValidationSchema.SignupMobileAccepted | validations/validationSchema.ts:21-24 | A mobile number is accepted exactly when it is ten ASCII digits, the first 6 to 9 |
| ValidationSchema.SignupPasswordAccepted | validations/validationSchema.ts:26-37 | A password is accepted exactly when it has 6 to 100 code units, an uppercase letter, a lowercase letter, a digit and a special character |
| ValidationSchema.SigninEmailAccepted | validations/validationSchema.ts:41-46 | A sign-in e-mail is accepted exactly when it is a non-empty address, with no length cap |
| ValidationSchema.SigninPasswordAccepted | validations/validationSchema.ts:48-51 | A sign-in password is accepted exactly when it has at least 6 code units |
| ValidationSchema.NotReported | validations/validationSchema.ts:26-37 | A message that no test carries is never reported |
| ValidationSchema.FailureReported | validations/validationSchema.ts:26-37 | With distinct messages, a test's message is reported exactly when that test fails |
| ValidationSchema.PasswordTests | validations/validationSchema.ts:26-37 | The six password tests, their distinct messages, and what each checks |
| ValidationSchema.PasswordFailures | validations/validationSchema.ts:26-37 | Each password message is reported exactly when its rule fails |
| ValidationSchema.SignupPasswordMessages | validations/validationSchema.ts:26-37 | A password reports every rule it breaks, and "required" exactly when it is empty |
| ValidationSchema.BlankName | validations/validationSchema.ts:5-11 | A whitespace-only name reports too short, not letters, and required, in that order |
| ValidationSchema.SignupImpliesSignin | validations/validationSchema.ts:13-51 | An e-mail and password accepted at sign-up are accepted at sign-in |
| ValidationSchema.LowerKeepsTrimmed | validations/validationSchema.ts:15-16 | Lower-casing keeps trimmed text trimmed |
| ValidationSchema.EmailCastIdempotent | validations/validationSchema.ts:15-16 | Normalising an e-mail twice is normalising it once |
| WorkflowSubmission.Next | app/workflow-submission.tsx:20-27 | Next stays in [0, 3], moves up one below Review, and stays on Review |
| WorkflowSubmission.Back | app/workflow-submission.tsx:155-158 | Back moves back exactly one step |
| WorkflowSubmission.NextThenBack | app/workflow-submission.tsx:21-22 | Before Review, Back after Next returns to the same step |
| WorkflowSubmission.BackThenNext | app/workflow-submission.tsx:155-158 | Next after Back returns to the same step |
| WorkflowSubmission.NextTimesFromStart | app/workflow-submission.tsx:11-22 | n presses of Next from the start reach step n, capped at Review |
| WorkflowSubmission.Set | app/workflow-submission.tsx:61-89 | Editing a field sets it and leaves every other field unchanged |
| WorkflowSubmission.SetCommutes | app/workflow-submission.tsx:61-89 | Edits of two different fields commute |
| WorkflowSubmission.ReviewValue | app/workflow-submission.tsx:126-132 | Review never shows an empty value; it shows "N/A" exactly for an empty (or "N/A") field, and any other value as it is |
| WorkflowSubmission.Indicator | app/workflow-submission.tsx:32-43 | One indicator entry per step |
| WorkflowSubmission.IndicatorProgress | app/workflow-submission.tsx:34-41 | For a step in range, it is the number of completed steps and of active connectors, one more are highlighted, and exactly one is current |
| WorkflowSubmission.SubmitLabel | app/workflow-submission.tsx:165-167 | The button reads "Submit Proposal" exactly on Review, which is exactly when the chevron is hidden |
| WorkflowSubmission.ProposalWizard.constructor | app/workflow-submission.tsx:11-18 | The wizard opens on step 0 with an empty form |
| WorkflowSubmission.ProposalWizard.HandleNext | app/workflow-submission.tsx:20-27 | The step becomes `Next` of the old step; it submits exactly on Review; the form is unchanged |
| WorkflowSubmission.ProposalWizard.HandleBack | app/workflow-submission.tsx:155-158 | Offered only after step 0; moves back one step; the form is unchanged |
| WorkflowSubmission.ProposalWizard.EditField | app/workflow-submission.tsx:61-89 | Only a field shown on the current step is edited; that field is replaced and the step is unchanged |
| TaskDetail.LoadSubtasks | app/task-detail.tsx:21-30 | The task's own list, even an empty one; without one, three entries with distinct ids, only the first completed |
| TaskDetail.ToggleSubtask | app/task-detail.tsx:39-43 | Toggling keeps the list's length |
| TaskDetail.ToggleKeepsEntries | app/task-detail.tsx:39-43 | Toggling keeps order, ids and titles |
| TaskDetail.ToggleFlipsMatching | app/task-detail.tsx:40-41 | An entry's completed flag changes exactly when its id is the toggled one |
| TaskDetail.ToggleAbsent | app/task-detail.tsx:41 | Toggling an id that is not present changes nothing |
| TaskDetail.ToggleTwice | app/task-detail.tsx:39-43 | Toggling the same id twice restores the list |
| TaskDetail.ToggleCommutes | app/task-detail.tsx:39-43 | Toggles of two ids commute |
| TaskDetail.ToggleUniqueCount | app/task-detail.tsx:39-43 | Toggling a unique id moves the number of completed entries by exactly one |
| TaskDetail.Approve | app/task-detail.tsx:45-52 | On success the status becomes "Completed" and every other field and the subtasks stay; on failure the task is untouched |
| TaskDetail.ApproveIdempotent | app/task-detail.tsx:45-52 | Approving an approved task changes nothing |

## Left out

- HTTP plumbing is not modelled:
  - Flask routing, `request.json`, `jsonify`, `time.sleep`;
  - Express `req`/`res`, the simulated delay, logging, the 500 error path.
  - Each endpoint is a function from its request fields to its response fields.
- The Cohere analysis (`analyzeIntent`, `cohereService.ts`) is not part of this model. Its result is the `Analysis` parameter.
- The MongoDB queries are inputs (the `Database` record): users, today's meetings, pending and low-priority tasks, and documents by filter.
  - `.limit(5)` and `.limit(3)` are modelled.
  - The regular-expression matching of the document search is not. The search is a parameter applied to the filter the code builds.
- The clock is an input:
  - `Date`, `setHours`, `getHours` and the local time zone are not modelled;
  - meetings arrive as their start and end hours;
  - a document's upload date arrives as the text `toLocaleDateString` prints.
- AiController.FreeSlotsSound: assumes today's meetings are sorted by start, as the query's `sort({ startTime: 1 })` delivers them. The free-slot loop itself is modelled for any order.
- MlService.OccupiedSlots: `occupied_slots.sort()` is not modelled. The list is only searched for membership, so the order does not change any result.
- A meeting entry whose `time` is present but not a string (JSON `null`, a number) is not modelled: `MeetingEntry.time` is an optional string. In `ml_service/app.py` the `'-' in meeting['time']` test sits outside the `try`, so such an entry raises a TypeError and the endpoint fails, instead of skipping the entry. The model assumes well-typed requests.
- Lower-casing (`str.lower`, `toLowerCase`) is modelled on ASCII letters only.
- Python's `int()` accepts only ASCII digits in this model. Other Unicode decimal digits are not modelled.
- The e-mail grammar of the schema library is not visible, so ValidationSchema.Validate takes it as a parameter. Like the library's `email` test, it is skipped on the empty string.
- The library's own checks that trimmed and lower-cased values are already trimmed and lower-case are not modelled. They always pass after the transforms.
- The order in which the sign-in screen joins the messages of different fields is not modelled. Each field's messages are kept in declaration order.
- The user-interface rendering is not modelled: styles, icons, alerts, navigation (`router.back`), the loading spinner and the "Task not found" screen.
  - The Review alert appears as the `submitted` result of `HandleNext`.
  - The upload boxes of step 2 have no behaviour to model.
- The update request of `handleApprove` (`taskAPI.update`) is a parameter: whether it succeeded.
- Loading a task (`taskAPI.getById`) is an input. Its `subtasks` field is either absent or a list; other truthy values are not modelled.
- WorkflowSubmission.Indicator: its own contract states only the length. What each entry shows is stated by `IndicatorProgress` and by the definition of `StepViewAt`.
