# PythonMeetup bot: conversation flows and notification fan-out

This project models the conversational core of a Telegram bot for a Python meetup, together with its notification service. It proves properties of the model in Dafny.

A Telegram user talks to the bot through a reply keyboard. Every text message goes to `menu_router` (tg_bot/common.py). The router offers it to three flows in a fixed order:

- the question flow, which sends a question to the speaker currently on stage;
- the networking flow, a three-question profile form followed by browsing candidates;
- the donation flow, which asks for an amount in rubles.

Only if no flow takes the message is it read as one of the five menu labels. Each flow keeps its state in the per-user session (`context.user_data`). The three flows are mutually exclusive: a flow opens only on the label route, which the router reaches only when every flow is idle, so at most one flow is open at any time (`Session.AtMostOneFlow`, kept by `Menu.MenuRouter`).

The notification service (tg_bot/notifications.py) broadcasts three kinds of message: program changes, new events and reminders. Each broadcast picks its recipients, creates one Notification, and sends once per recipient. A send that fails is isolated from the others. A delivery receipt is written after each successful send. The Notification is then marked sent, and the number of receipts is returned.

Modules, one per file:

- `Text` (text.dfy): the Python string operations used: `strip`, `lower`, `startswith`, `isdigit`, and `int` of a digit string.
- `Records` (records.dfy): the stored records and the shapes built from them.
- `Session` (session.dfy): the per-user session as a `UserData` class with one field per key, and a `Chat` that collects replies.
- `Store` (store.dfy): the tables as sequences, with the ORM operations the core uses (`get_or_create` and friends).
- `Talks` (talks.dfy) and `StubTalks` (stub_talks.dfy): the store-backed question flow and schedule, and the early stub version.
- `Amounts` (amounts.dfy): how the donation flows read an amount.
- `Donations` (donations.dfy) and `StubDonations` (stub_donations.dfy): the two donation flows.
- `Networking` (networking.dfy): the networking flow.
- `Menu` (menu.dfy): the keyboard, the speaker check and the router.
- `Fanout` (fanout.dfy), `NewEvents` (new_events.dfy) and `Notifications` (notifications.dfy): the broadcasts.

Each handler that changes the session is a method on `UserData`, `Chat` and `Store`. Its contract gives the new session, the replies sent and the new tables. Where a handler's effect is a whole step of a flow, its contract ties the new state to a function of the old state. The flow's properties are then proved about that function: the networking flow's `After…` functions, `FanOut` and `NewEventLoop`.

Three behaviours of the code are worth stating outright, because a reader might expect otherwise:

- A donation is cancelled by exactly five phrases: "в другой раз", "не сейчас", "нет", "потом" and "отмена". Any casing and surrounding whitespace are accepted; no other word is.
- No donation record is written. An accepted amount only makes sure the sender exists as a Participant.
- An existing Participant's username and full name are never updated. `get_or_create` uses its defaults only when it creates the row.

The store keeps three facts as the invariant `Store.Valid`: `telegram_id` is unique, (participant, event) is unique, and notification ids follow the row order. Every handler that writes to the store requires and keeps it.

## Model

| member | source | states |
|---|---|---|
| Text.Strip | tg_bot/donations.py:30 | `strip()` removes exactly the leading and trailing whitespace: the result is the middle of the input, and it neither starts nor ends with whitespace |
| Text.StripKeeps | tg_bot/donations.py:30 | every non-whitespace character survives `strip()`, at its position shifted by the leading whitespace |
| Text.LowerKeepsDigit | tg_bot/donations.py:30 | `lower()` keeps length and leaves digits in place |
| Text.Digits | tg_bot/donations.py:43 | the digit filter keeps only digits, and is empty exactly when the text has no digit |
| Text.DigitsAppend | tg_bot/donations.py:43 | the digit filter distributes over concatenation |
| Text.DigitsOfDigits | tg_bot/donations.py:43 | a string of digits is its own digit filter |
| Text.ValueZeroIffAllZeros | tg_bot/donations.py:52-53 | `int(digits)` is 0 exactly when every digit is '0', the only way to fail the positivity check |
| Amounts.ReadAmount | tg_bot/donations.py:29-58 | reading a message: cancel iff the stripped, lowercased text is one of the five phrases; otherwise no digits, or all zeros (not positive), or the positive value of the digits |
| Amounts.DigitMeansNoCancellation | tg_bot/donations.py:32-43 | a message with a digit is never a cancellation, so checking the phrases first never hides an amount |
| Amounts.ReadDigits | tg_bot/donations.py:43-58 | a message holding digits is read only through its digit string |
| Amounts.NonDigitIgnored | tg_bot/donations.py:43-52 | any non-digit character, such as a decimal point or a minus sign, is dropped: "12.50" reads as 1250 and "-5" as 5 |
| Amounts.ZerosNotPositive | tg_bot/donations.py:52-58 | a text of only zeros re-prompts for a positive amount |
| Text.StripPadded | tg_bot/donations.py:30 | `strip()` removes any whitespace padding, and only that, from a text that neither starts nor ends with whitespace |
| Text.LowerKeepsSpace | tg_bot/donations.py:30 | `lower()` keeps length and leaves whitespace in place |
| Amounts.PhrasesAreTrimmed | tg_bot/donations.py:32 | no cancellation phrase is blank or starts or ends with whitespace |
| Amounts.CaseAndSpacesIgnored | tg_bot/donations.py:30-32 | any text that `lower()` maps onto one of the phrases cancels, whatever whitespace surrounds it |
| Amounts.CapitalisedPhraseCancels | tg_bot/donations.py:30-32 | " В Другой Раз " cancels |
| Amounts.DigitFreeTextIgnored | tg_bot/donations.py:43 | text without digits added around a message does not change its digits |
| Store.FindParticipant | tg_bot/donations.py:66-72 | lookup by `telegram_id`: a found index holds that id, and None means no row does |
| Store.WithParticipantSpec | tg_bot/donations.py:66-72 | participant get-or-create keeps every existing row, adds a row only when the id is new (an existing id leaves the table unchanged), and leaves exactly one row with the id, so `telegram_id` stays unique |
| Store.WithParticipantIdempotent | tg_bot/donations.py:66-72 | a repeated get-or-create by the same user, whatever its defaults, creates no second Participant |
| Store.FindSubscription | tg_bot/notifications.py:97-105 | lookup by (participant, event) |
| Store.WithSubscriptionSpec | tg_bot/notifications.py:97-105 | subscription get-or-create keeps existing rows unchanged and (participant, event) unique; afterwards the pair has a row; an existing pair leaves the table unchanged, and a new pair adds one row with all three toggles on |
| Store.Store.GetOrCreateParticipant | tg_bot/talks.py:45-51 | the participant table afterwards is the get-or-create result, and the store invariant holds |
| Store.Store.GetOrCreateSubscription | tg_bot/notifications.py:97-105 | the subscription table afterwards is the get-or-create result, and the store invariant holds |
| Store.Store.CreateQuestion | tg_bot/talks.py:53-57 | appends one question row |
| Store.Store.CreateNotification | tg_bot/notifications.py:26-31 | appends one not-yet-sent notification with the next id, keeping ids in row order |
| Store.Store.CreateReceipt | tg_bot/notifications.py:49-52 | appends one unread receipt |
| Store.Store.MarkSent | tg_bot/notifications.py:58-59 | sets `is_sent` on one notification and changes nothing else |
| Talks.FirstActive | tg_bot/talks.py:119-123 | the first speech, in store order, whose inclusive window contains `now`; None iff there is none |
| Talks.GetActiveSpeech | tg_bot/talks.py:116-126 | the speech found is active at `now` (inclusive at both ends) and one is found whenever one exists; a failing query gives None |
| Talks.StatusCases | tg_bot/talks.py:98-104 | the status is "now" iff `start <= now <= end`, "upcoming" iff `now < start`, "finished" otherwise |
| Talks.SpeechesOf | tg_bot/talks.py:87 | the speeches of the event, and only those |
| Talks.InsertByStart | tg_bot/talks.py:87 | inserting into a start-ordered list keeps it ordered and adds exactly that speech |
| Talks.SortByStart | tg_bot/talks.py:87 | `order_by("start_time")` gives an ordered permutation |
| Talks.FirstActiveEventAt | tg_bot/talks.py:82 | the position of the first active event in store order; None iff no event is active |
| Talks.FirstActiveEvent | tg_bot/talks.py:82 | the event at the first active position in store order, so no earlier event is active; None iff no event is active |
| Talks.ScheduleSpec | tg_bot/talks.py:80-109 | a schedule is for the first active event; its lines are the speeches of that event, rearranged (each as often as the store holds it), in start order; it marks "now" exactly the lines whose window contains `now` |
| Talks.LinesOfProgram | tg_bot/talks.py:97-107 | the lines of a start-ordered program keep its order and say "now" exactly inside each speech's window |
| Talks.NowAgreesWithActiveSpeech | tg_bot/talks.py:98-104 | a line marked "now" means the question flow finds an active speech whose own status is "now"; it may be another speech, of any event |
| Talks.StartAskQuestion | tg_bot/talks.py:8-25 | with no active speech nothing changes; otherwise it awaits a question and binds that speech's id |
| Talks.HandleQuestionIfWaiting | tg_bot/talks.py:28-77 | not awaiting: False and no effect. Otherwise True, with one of: no bound id (flag cleared, nothing stored); participant write fails (flag kept); speech gone (flag cleared, id kept); question write fails (flag kept); or exactly one Question with the raw text (flag cleared, id removed) |
| Talks.ShowSchedule | tg_bot/talks.py:80-113 | one reply, the schedule, and no session change |
| StubTalks.StartAskQuestion | bot/handlers/talks.py:5-11 | sets the flag unconditionally |
| StubTalks.HandleQuestionIfWaiting | bot/handlers/talks.py:14-35 | handled iff awaiting; any text is accepted and the flag is cleared |
| StubTalks.ShowSchedule | bot/handlers/talks.py:38-49 | always the same sample schedule, and no state change |
| Donations.StartDonation | tg_bot/donations.py:11-21 | always enters the flow; the stored amount is untouched |
| Donations.HandleDonationMessageIfActive | tg_bot/donations.py:24-85 | handled iff an amount is awaited, otherwise no effect. Cancel: state and amount cleared, no participant write. No digits or only zeros: re-prompt and stay. A positive amount: stored and the flow left before the participant get-or-create, which either succeeds (thanks with the amount) or fails (error reply) |
| StubDonations.StartDonation | bot/handlers/donations.py:8-18 | always enters the flow |
| StubDonations.HandleDonationMessageIfActive | bot/handlers/donations.py:21-71 | the same reading and session updates without the store; every path returns True once active |
| Networking.CardOf | bot/handlers/networking.py:184-209 | no card field is blank; a present non-empty value is shown as is; a contact is offered iff the username is non-empty |
| Networking.MissingFieldsShowPlaceholder | bot/handlers/networking.py:185-189 | a missing or empty name, role, experience or "looking for" field shows "Не указано"; a missing or empty username gives no contact |
| Networking.FirstUnseen | bot/handlers/networking.py:229-248 | the fetch picks the lowest index not yet seen; None iff every index was seen |
| Networking.ShownAreFresh | bot/handlers/networking.py:235-248 | fetches in a row never return an index twice or one seen before, and only indices of the list |
| Networking.ExhaustedStaysExhausted | bot/handlers/networking.py:241-248 | once every index is seen, every later fetch returns None |
| Networking.TwoCandidatesThenNobody | bot/handlers/networking.py:229-248 | a new user is shown candidate 0, then 1, then nobody, however many times they ask |
| Networking.FetchKeepsSeenInRange | bot/handlers/networking.py:241-246 | the seen set stays within the list's indices and holds at most two |
| Networking.MatchingShowsUnseen | bot/handlers/networking.py:138-156 | matching shows an unseen candidate, adds exactly its index, makes it current and browses; with every candidate seen it says there are none yet, does not browse, and leaves the seen set and current candidate unchanged |
| Networking.NextShowsUnseen | bot/handlers/networking.py:212-226 | the same for "next", which with nobody left also drops the current candidate |
| Networking.ThreeAnswersFillTheForm | bot/handlers/networking.py:99-103 | three answers from an empty form store the stripped answers under role, experience and looking_for |
| Networking.RecordAnswerKeys | bot/handlers/networking.py:99-103 | an answer moves to the next step, adds exactly its question's key with the stripped answer, and keeps every earlier answer |
| Networking.ReadBrowseCommand | bot/handlers/networking.py:160-166 | on the stripped, lowercased text: "next" iff it starts with "след"; otherwise "stop" iff it starts with "стоп" or is "хватит" or "stop" |
| Networking.MatchingIsConsistent | bot/handlers/networking.py:138-156 | after matching the session is consistent: browsing always has a current candidate |
| Networking.StartKeepsConsistent | bot/handlers/networking.py:39-68 | `start_networking` leaves a consistent session from any state |
| Networking.MessageKeepsConsistent | bot/handlers/networking.py:82-110 | a message in the flow keeps the session consistent: while filling, the form holds exactly the answered keys |
| Networking.ProfileRun | bot/handlers/networking.py:94-135 | a new user answering three questions gets questions 0, 1, 2, then a saved profile with the three stripped answers and step reset to 0, followed at once by matching: the final state and second reply are those of `AfterMatching`, and a user who has seen nobody is shown candidate 0 and starts browsing |
| Networking.FetchNextCandidate | bot/handlers/networking.py:229-248 | the loop returns the first unseen candidate and adds its index, or returns None with the seen set unchanged |
| Networking.StartMatching | bot/handlers/networking.py:138-156 | session and reply as `AfterMatching` says |
| Networking.FinishProfile | bot/handlers/networking.py:113-135 | profile flagged, step reset, form kept, "saved" reply, then matching |
| Networking.AskCurrentProfileQuestion | bot/handlers/networking.py:71-79 | asks the question of the current step, or finishes past the last one |
| Networking.StartProfileForm | bot/handlers/networking.py:63-68 | filling, step 0, empty form, first question asked |
| Networking.StartNetworking | bot/handlers/networking.py:39-60 | without a profile it starts the form; with one it goes straight to matching |
| Networking.HandleProfileAnswer | bot/handlers/networking.py:94-110 | stores the stripped answer, advances the step, then asks the next question or finishes |
| Networking.ShowNextCandidate | bot/handlers/networking.py:212-226 | session and reply as `AfterNext` says |
| Networking.HandleCandidateFlow | bot/handlers/networking.py:159-181 | "next" fetches, "stop" leaves the flow and drops the current candidate, anything else gets help and changes nothing |
| Networking.HandleNetworkingMessageIfActive | bot/handlers/networking.py:82-91 | handled iff filling the profile or browsing; otherwise nothing changes |
| Menu.LabelAction | tg_bot/common.py:97-116 | exact label match; anything other than the five labels is not understood |
| Menu.LabelsAreDistinct | tg_bot/common.py:97-110 | the five labels name five different actions |
| Menu.KeyboardLayout | tg_bot/common.py:25-37 | speakers get 3 rows of 5 buttons including "Мои вопросы"; others get 2 rows of 4 without it; every button is a label the router understands |
| Menu.SpeakerSeesQuestions | tg_bot/common.py:18-30 | a speaker with a non-zero telegram id gets the three-row keyboard with "Мои вопросы" when the lookup succeeds |
| Menu.OnlySpeakersSeeQuestions | tg_bot/common.py:18-37 | nobody gets "Мои вопросы" while the lookup fails, without an id or with id 0, or with an id no speaker has |
| Menu.KeyboardFor | tg_bot/common.py:25-26 | the speaker layout iff the id is present and non-zero and belongs to a speaker |
| Menu.RouteFor | tg_bot/common.py:85-116 | the message goes to the question flow iff a question is awaited, else to networking iff that flow is open, else to donation iff an amount is awaited, else to the label table |
| Menu.AwaitedQuestionSwallowsLabels | tg_bot/common.py:88-89 | while a question is awaited, even "Программа" is taken as the question |
| Menu.LabelOnlyStartsItsFlow | tg_bot/common.py:97-116 | a label changes only the keys of the flow it starts: a question is awaited only for an active speech, networking restarts consistently, a donation waits for an amount and keeps the stored one; only "Мои вопросы" sends nothing |
| Menu.DispatchLabel | tg_bot/common.py:97-116 | the action is the label's; the session and replies afterwards are those `AfterLabel` gives for the session before |
| Menu.LabelKeepsOneFlow | tg_bot/common.py:97-116 | with every flow idle, as the label route requires, a label leaves at most one flow open |
| Menu.MenuRouter | tg_bot/common.py:85-116 | the route is decided by the session before the message; the flows that did not take it keep their state; on the label route the effect is that of the label's action, started from the session as it was; a session with at most one open flow keeps at most one |
| Session.UserData.constructor | tg_bot/talks.py:32-37 | a fresh session reads every key at its `.get` default, so no flow is open |
| Fanout.Recipients | tg_bot/notifications.py:17-20 | the recipients are exactly the subscribers of the event with the toggle on |
| Fanout.RecipientsDistinct | tg_bot/notifications.py:17-20 | with (participant, event) unique, no chat is listed twice |
| Fanout.DuplicateRowSendsTwice | tg_bot/notifications.py:17-20 | two rows for the same participant and event list that chat twice |
| Fanout.FanOutSpec | tg_bot/notifications.py:33-53 | the count equals the number of receipts and is at most the number of recipients; receipts only for delivered recipients; sends only to reachable ones |
| Fanout.FanOutAppend | tg_bot/notifications.py:34-56 | the loop over a concatenation is the loop over each part in turn |
| Fanout.FailedSendIsolated | tg_bot/notifications.py:34-56 | a recipient whose send fails changes nothing for the others |
| Fanout.AllDelivered | tg_bot/notifications.py:33-53 | when every send succeeds, each recipient gets one message and one receipt, and all are counted |
| Fanout.OneFailureCostsOne | tg_bot/notifications.py:33-62 | five subscribers with the third failing count four, with receipts for the other four |
| NewEvents.NewEventTargets | tg_bot/notifications.py:86-95 | a participant is notified iff some subscription of theirs wants new events or they have none at all |
| NewEvents.EnabledIgnoresOthers | tg_bot/notifications.py:86-105 | rows created for other participants do not change a participant's eligibility |
| NewEvents.LoopAppendsOnly | tg_bot/notifications.py:84-105 | the loop only appends subscription rows, and only for participants it has visited |
| NewEvents.NewEventsAreFor | tg_bot/notifications.py:84-126 | with unique telegram ids, re-reading the table during the loop decides exactly as the table before the loop would |
| NewEvents.TargetsAreSubscribed | tg_bot/notifications.py:97-119 | every eligible participant ends with a subscription to the event, even when the send then fails; existing rows are unchanged and pairs stay unique |
| Notifications.Bot.SendMessage | tg_bot/notifications.py:43-47 | a send succeeds iff the chat is reachable, and only a successful send reaches the outbox |
| Notifications.NotificationService.FanOutLoop | tg_bot/notifications.py:33-56 | the loop does what `FanOut` says |
| Notifications.NotificationService.SendProgramChangeNotification | tg_bot/notifications.py:15-66 | no subscriber or an early fault: 0 and no Notification. A fault when the loop evaluates the query: an unsent Notification, no sends, no receipts, 0. Otherwise one Notification (sent iff the save succeeds), the fan-out's sends and receipts, and the receipt count (0 if the save fails) |
| Notifications.NotificationService.VisitParticipants | tg_bot/notifications.py:84-126 | the participant loop does what `NewEventLoop` says and keeps the store invariant |
| Notifications.NotificationService.SendNewEventNotification | tg_bot/notifications.py:69-140 | a fault before the create leaves everything unchanged; a fault when the loop evaluates the lazy participant query leaves an unsent Notification and nothing else, and returns 0; otherwise the Notification is created even with nobody eligible; subscriptions, sends and receipts follow `NewEventLoop`; the result is the receipt count; sends and receipts are the fan-out over the participants eligible before the loop, and each of them ends with a subscription to the event |
| Notifications.NotificationService.SendReminderNotification | tg_bot/notifications.py:143-187 | a fault when the loop evaluates the lazy subscription query leaves an unsent Notification, no sends and no receipts, and returns 0; otherwise the Notification is created even with no subscriber; its title and message are about the speech when one is given, else about the event |

## Left out

- Telegram I/O. A reply is a `Reply` value appended to the chat, and a send is an entry in the bot's outbox. Wording, Markdown, keyboards as objects and `strftime` formatting are not modelled.
- Logging and `print` output. This includes the "no subscribers" log line of the new-event broadcast, which is never reached: `participants.exists` is not called (tg_bot/notifications.py:73).
- `start`, `help_command`, `update_menu` and the handler registration in tg_bot/common.py are Telegram glue.
- `show_speaker_questions`, `subscribe_to_next_events`, `unsubscribe_from_events`, `notification_settings` and `handle_settings_callback` are imported by tg_bot/common.py but are not part of this model. The "Мои вопросы" label is routed, but its action has no effect here.
- The `tg_bot.networking` module imported by tg_bot/common.py is not part of this model. The router uses the networking flow of bot/handlers/networking.py.
- Text operations:
  - `isdigit()` is ASCII '0'..'9' only. Python also accepts characters such as '²', which `int()` then rejects with an uncaught exception.
  - `lower()` covers ASCII, Latin-1 and basic Cyrillic.
  - `strip()` uses Python's whitespace set for the Latin-1 range and the common Unicode spaces.
- Talks.ShowSchedule: `show_schedule` reads the clock once per speech; the model uses one `now` for the whole schedule.
- Talks.HandleQuestionIfWaiting: an exception other than a missing speech is a single `QuestionWriteFails` fault. It is raised after the participant write, as the question create or the speech lookup would.
- Wall-clock time is an integer `now`. Store queries that raise are boolean parameters. Failing sends are a fixed set of unreachable chat ids for the duration of a broadcast.
- Menu.MenuRouter: when the question or donation flow takes the message, the router's contract states only the route and the untouched state of the other flows. The handler's own effect is in the contract of Talks.HandleQuestionIfWaiting or Donations.HandleDonationMessageIfActive. The networking and label routes state their full effect.
- NewEvents.NewEventsAreFor: requires unique telegram ids, which the participant table's unique constraint guarantees.
- Store.Store.GetOrCreateParticipant: the success path for a new telegram id assumes the row can be inserted. As declared at datacenter/models.py:60, `registered_at` has no default, no `auto_now_add` and no `null=True`, and neither `get_or_create` (tg_bot/talks.py:45-51, tg_bot/donations.py:66-72) supplies it; `username` (datacenter/models.py:55) is likewise not nullable while a Telegram user may have none. On the schema as written the create would raise, so a first-time user would always take the participant-write-fault branch: the question is not saved and stays awaited, and the donation gets the error reply. The model keeps that branch as the `ParticipantWriteFails` / `participantWriteFails` parameter and assumes a value for these columns comes from something not shown (a migration or a database default); a Telegram username is modelled as a string, never absent.
- Store.Valid: (participant, event) uniqueness is not declared by the Subscription table (datacenter/models.py:87-95). The model assumes it of the table a handler starts from; every get-or-create keeps it. With duplicate rows, `get_or_create` would raise in the source, and Store.WithSubscription would instead pick one row. Store.WithSubscriptionSpec, NewEvents.TargetsAreSubscribed and the broadcasts rely on it.
- Subscription's three `notify_*` toggles are the fields tg_bot/notifications.py filters on; datacenter/models.py:87-95 declares none of them, and Notification and UserNotification are not declared there either. The model follows tg_bot/notifications.py.
- Table order: each sequence stands for a table in the store's default order (the models' `Meta.ordering`). The model does not sort by those keys.
- Records:
  - A Participant has only the telegram id, username and full name; `registered_at` and other columns are left out.
  - Timestamps such as `created_at` are not modelled.
  - Notification ids are assigned by position.
  - Field-length and null validation are not modelled.
- Session keys that are only read with `.get` are plain fields, and an absent key is their default. Keys that are popped are `Option` fields.
- Networking: a message without text would make `text.strip()` raise in the profile form. The model takes the message text as a string.
