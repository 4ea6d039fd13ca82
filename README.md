# Conversation manager: a Dafny model

This project models a small customer-conversation manager and proves properties of the model. It has two sides.

- **Backend (Django).** A webhook endpoint receives three kinds of events: `NEW_CONVERSATION`, `NEW_MESSAGE` and `CLOSE_CONVERSATION`. It stores conversations (OPEN or CLOSED) and their messages (SENT or RECEIVED) and answers with a status code. A REST endpoint also closes conversations, and a stats query counts them.
- **Frontend (React).** It has four pieces:
  - a conversation list that filters, sorts, groups by date and previews the last message;
  - a chat view with a send guard and a manual-reply hand-off;
  - a two-step "new conversation" form with a phone mask and validation;
  - a page controller that turns clicks into webhook events, updates the open conversation optimistically and shows dashboard figures.

## Modules

| file | module | models |
|---|---|---|
| text.dfy | `Text` | the JavaScript string operations the components rely on: `trim` (ECMAScript white space), ASCII/Latin-1 `toLowerCase`, `includes`, and removing non-digits (`\D`) |
| models.dfy | `Choices`, `Models` | the OPEN/CLOSED and SENT/RECEIVED choices; the Conversation and Message rows; how a UUIDField reads an id |
| views.dfy | `Webhook` | the webhook handlers, the REST close, the stats query and the cascade delete; pure handler functions plus `class Store`, whose methods update the tables in place; the lifecycle lemmas |
| arraysort.dfy | `ArraySort` | `Array.prototype.sort` with a comparator, as an in-place stable insertion sort on an array |
| chat.dfy | `Chat` | the records the components exchange; the `window._tempSimulatedMessage` slot |
| list_engine.dfy | `ListEngine` | ConversationList.tsx |
| phone_form.dfy | `PhoneForm` | NewConversationModal.tsx |
| chat_view.dfy | `ChatView` | ConversationView.tsx |
| home_page.dfy | `HomePage` | page.tsx |

## How the model stands in for the program

The backend tables are maps keyed by canonical UUID, as in the `Db` datatype and the fields of `Webhook.Store`.

- A log of message keys records insertion order.
- The clock advances by an `elapsed` amount at every insertion. `auto_now_add` takes its timestamp from this clock.
- This is what makes `Meta.ordering = ['created_at']` coincide with insertion order.
- Every handler is a function from the tables before to a status code and the tables after. The corresponding `Store` method runs the same checks step by step and promises the function's result.

A few backend details follow from how the views are written.

- An id a UUIDField cannot read raises `ValidationError`. The webhook's `except` turns that into 400.
- For the same reason, a malformed `conversation_id` in a new message gives 400, not 404.
- The REST close endpoint calls `get_object_or_404` inside `try/except Exception`, so an unknown id also gives 400 there.
- `direction` is stored as delivered: `objects.create` does not check choices.

On the frontend, network calls are not made. A method that starts a call returns the request it would send: a webhook `Event`, or an id to fetch. The outcome of the call is a parameter of the method that continues after it. Fresh UUIDs, "now", the local time-zone offset and the random pick of a canned reply are parameters too. Dates are integer milliseconds.

`Array.prototype.sort` is modelled as a stable insertion sort.

- The ECMAScript standard fixes the result only for a consistent comparator.
- The list's comparator is not consistent once a conversation has no date: `new Date('')` gives NaN, and NaN compares as "equal". `ListEngine.UndatedBreaksOrder` exhibits this.
- For such inputs the model promises only what any sort gives here: a permutation, with OPEN before CLOSED.

Two behaviours of the code are worth knowing.

- `handleCreateConversation` catches every error itself. The promise the modal awaits therefore never rejects, so the modal's "try again" branch is unreachable from this page: the modal reports success even when creation failed. See `HomePage.Home.FinishCreate` and `HomePage.SubmitFromModal`.
- `getLastMessage` sorts the conversation's own `messages` array in place. The array is shared with the page's state, so rendering the list reorders the stored messages newest first. See `ListEngine.LastMessage`, which modifies the array it is given.

## Model

| member | source | states |
|---|---|---|
| Text.TrimEmptyIffAllSpace | frontend/src/components/ConversationView.tsx:90 | a string trims to empty exactly when every character is ECMAScript white space |
| Text.ContainsIffOccurs | frontend/src/components/ConversationList.tsx:47 | `includes` holds exactly when the term occurs at some position |
| Text.DigitsAppend | frontend/src/components/NewConversationModal.tsx:53 | removing non-digits distributes over concatenation |
| Text.DigitsOfDigits | frontend/src/components/NewConversationModal.tsx:53 | removing non-digits leaves a string of digits unchanged |
| Choices.ParseDirection | conversations/models.py:18-21 | a label parses only to the choice whose label it is |
| Choices.DirectionLabelRoundTrip | conversations/models.py:18-21 | every direction's label parses back to that direction |
| Models.ParseCanonical | conversations/models.py:10 | a canonical key and its dashed browser form both read back as that key, so the ids the frontend invents are accepted |
| Models.ParseIgnoresCase | conversations/models.py:10 | an id in upper-case hex names the same row as its lower-case form |
| Webhook.NewConversation | conversations/views.py:43-58 | 201 exactly when the id is present, readable and new; every 400 leaves the tables unchanged |
| Webhook.NewMessage | conversations/views.py:60-91 | the status is 201, 400 or 404; only 201 changes the tables; a missing or empty field gives 400; a fresh, readable message id aimed at a stored OPEN conversation gives 201 |
| Webhook.CloseConversation | conversations/views.py:93-108 | 200 exactly when the id is present, readable and stored, whatever the state; otherwise the tables are unchanged |
| Webhook.PostEvent | conversations/views.py:17-41 | every outcome is 200, 201, 400 or 404, never 500; a body without a type or data is 400 with no change |
| Webhook.RestClose | conversations/views.py:134-144 | the REST close answers 200 or 400, and 400 changes nothing |
| Webhook.DeleteConversation | conversations/models.py:24 | deleting a conversation removes it and exactly the messages whose foreign key names it |
| Webhook.StatsOf | conversations/views.py:146-163 | open + closed = total, and conversations with messages ≤ total |
| Webhook.StatePartition | conversations/views.py:149-151 | the OPEN and CLOSED key sets partition the conversation table |
| Webhook.Store.constructor | conversations/models.py:4-30 | the store starts empty and consistent |
| Webhook.Store.HandleNewConversation | conversations/views.py:43-58 | the step-by-step handler yields the status and tables `NewConversation` gives, and keeps the tables consistent |
| Webhook.Store.HandleNewMessage | conversations/views.py:60-91 | the same for `NewMessage`, in the source's check order |
| Webhook.Store.HandleCloseConversation | conversations/views.py:93-108 | the same for `CloseConversation` |
| Webhook.Store.Post | conversations/views.py:17-41 | dispatch on the event type yields what `PostEvent` gives |
| Webhook.Store.RestCloseConversation | conversations/views.py:134-144 | the REST close yields what `RestClose` gives |
| Webhook.Store.GetStats | conversations/views.py:146-163 | the counts are `StatsOf` the current tables, and open + closed = total |
| Webhook.Store.Delete | conversations/models.py:24 | the cascade delete yields `DeleteConversation` and keeps the tables consistent |
| Webhook.NewConversationKeepsConsistent | conversations/views.py:43-58 | creating a conversation keeps keys canonical, foreign keys valid and the message order |
| Webhook.NewMessageKeepsConsistent | conversations/views.py:79-84 | inserting a message keeps every message pointing at a stored conversation and the log ordered by created_at |
| Webhook.CloseKeepsConsistent | conversations/views.py:99-102 | closing keeps the tables consistent |
| Webhook.RestCloseKeepsConsistent | conversations/views.py:137-141 | the REST close keeps the tables consistent |
| Webhook.PostKeepsConsistent | conversations/views.py:17-41 | every webhook delivery keeps the tables consistent |
| Webhook.KeepKeysOrdered | conversations/models.py:29-30 | filtering the message log keeps it duplicate-free and ordered by created_at |
| Webhook.DeleteKeepsConsistent | conversations/models.py:24 | the cascade leaves no dangling foreign key |
| Webhook.ThreadFacts | conversations/models.py:29-30 | a thread holds exactly the messages of its conversation, each once, oldest first |
| Webhook.ThreadOrdered | conversations/models.py:24-30 | a conversation's messages are exactly those whose foreign key names it, listed once each in ascending created_at |
| Webhook.ThreadFrame | conversations/models.py:24 | a thread depends only on the rows it lists |
| Webhook.UnknownTypeRejected | conversations/views.py:33-34 | an unrecognised event type is 400 with no change |
| Webhook.NewConversationAddsOne | conversations/views.py:53-58 | a 201 adds exactly one new OPEN conversation with no messages and changes nothing else |
| Webhook.ExistingConversationRejected | conversations/views.py:49-51 | an existing id is 400 with no change |
| Webhook.DuplicateMessageBeforeLookup | conversations/views.py:70-75 | a repeated message id is 400 before the conversation is looked up, even for an unknown conversation |
| Webhook.UnknownConversationNotFound | conversations/views.py:90-91 | a new message for a readable but unknown conversation id is 404 with no change |
| Webhook.ClosedConversationRefusesMessages | conversations/views.py:76-77 | a CLOSED conversation never receives a message: 400, no change |
| Webhook.NewMessageStoresOne | conversations/views.py:79-88 | a 201 adds exactly one message, with the payload's key, conversation, direction and content, to a conversation that was OPEN; conversations are unchanged |
| Webhook.NewMessageAppendsToThread | conversations/views.py:79-84 | the new message goes at the end of its conversation's thread, and every other thread is unchanged |
| Webhook.WebhookCloseIdempotent | conversations/views.py:99-106 | the webhook close succeeds on a CLOSED conversation too, and closing twice equals closing once |
| Webhook.RestCloseOnlyOpen | conversations/views.py:137-142 | the REST close refuses a CLOSED conversation with no change, and closes an OPEN one touching nothing else |
| Webhook.EvolvesTransitive | conversations/views.py:17-108 | the allowed-change relation composes |
| Webhook.PostEvolves | conversations/views.py:17-108 | a delivery never removes rows, rewrites a message, reopens a conversation or adds a message to a CLOSED one |
| Webhook.RestCloseEvolves | conversations/views.py:134-144 | the REST close changes the tables only in the allowed ways |
| Webhook.ReplayEvolves | conversations/views.py:17-108 | any sequence of deliveries changes the tables only in the allowed ways |
| Webhook.ClosedIsTerminal | conversations/views.py:50-54 | once CLOSED, no sequence of deliveries reopens a conversation or adds a message to it |
| Webhook.CascadeLeavesNoOrphans | conversations/models.py:24 | after a delete no message points at the conversation, and other threads are unchanged |
| ArraySort.Insert | frontend/src/components/ConversationList.tsx:62 | inserting adds exactly one element |
| ArraySort.InsertionSort | frontend/src/components/ConversationList.tsx:62 | the sort keeps the length |
| ArraySort.InsertPermutes | frontend/src/components/ConversationList.tsx:97 | inserting adds the element to the multiset |
| ArraySort.SortPermutes | frontend/src/components/ConversationList.tsx:62 | the sort is a permutation |
| ArraySort.SortSorted | frontend/src/components/ConversationList.tsx:62 | with a comparator consistent on the elements, no element is placed after one it must precede |
| ArraySort.SortRankOrdered | frontend/src/components/ConversationList.tsx:64-65 | a ranking the comparator always respects is honoured, consistent or not |
| ArraySort.SortFirstIsLeast | frontend/src/components/ConversationList.tsx:97-99 | with a consistent comparator the first element is an input element that may precede every other |
| ArraySort.SortInPlace | frontend/src/components/ConversationList.tsx:97 | sorting the array in place leaves in it exactly `InsertionSort` of its old contents |
| ArraySort.InsertInPlace | frontend/src/components/ConversationList.tsx:97 | one pass of adjacent swaps inserts `a[i]` into the sorted prefix and leaves the rest alone |
| Chat.CountState | frontend/src/components/ConversationList.tsx:372-373 | a state count never exceeds the list length |
| Chat.CountStatesPartition | frontend/src/components/ConversationList.tsx:370-373 | the OPEN and CLOSED counts add up to the total |
| ListEngine.SelectMembership | frontend/src/components/ConversationList.tsx:39 | filter keeps exactly the elements that pass |
| ListEngine.SelectSubsequence | frontend/src/components/ConversationList.tsx:39 | filter keeps the input's order |
| ListEngine.FilterKeepsMatches | frontend/src/components/ConversationList.tsx:39-59 | the filtered list is exactly the matching conversations, as an order-preserving subsequence |
| ListEngine.FilterByState | frontend/src/components/ConversationList.tsx:41-42 | 'open' keeps only OPEN, 'closed' only CLOSED, and 'all' with no term keeps everything |
| ListEngine.EmptyTermFiltersByStateOnly | frontend/src/components/ConversationList.tsx:45-58 | with an empty term the result is exactly the state-filtered list |
| ListEngine.SearchWithoutMessages | frontend/src/components/ConversationList.tsx:50-55 | a conversation without messages matches a term only through its id |
| ListEngine.SortConversations | frontend/src/components/ConversationList.tsx:62-71 | sorting a copy gives `InsertionSort` of the filtered list, which itself is untouched |
| ListEngine.OpenFirst | frontend/src/components/ConversationList.tsx:62-65 | the sorted list is a permutation with every OPEN conversation before every CLOSED one |
| ListEngine.NewestFirstWhenDated | frontend/src/components/ConversationList.tsx:68-70 | when every conversation has a date, each state's conversations come newest first |
| ListEngine.UndatedBreaksOrder | frontend/src/components/ConversationList.tsx:68-70 | an undated conversation makes the comparator inconsistent |
| ListEngine.Group | frontend/src/components/ConversationList.tsx:74-92 | the loop's groups are the conversations of each bucket in sorted order, keyed in order of first appearance, with no empty group |
| ListEngine.GroupsPartition | frontend/src/components/ConversationList.tsx:74-92 | the four group sizes add up to the list length: each conversation is in exactly one group |
| ListEngine.GroupKeepsOrder | frontend/src/components/ConversationList.tsx:87-91 | a group holds exactly its bucket's conversations, in sorted order |
| ListEngine.FirstAppearancesDistinct | frontend/src/components/ConversationList.tsx:87-89 | each group key appears once, and exactly the non-empty groups appear |
| ListEngine.UndatedIsToday | frontend/src/components/ConversationList.tsx:76 | a missing created_at is grouped under Today |
| ListEngine.FutureIsThisWeek | frontend/src/components/ConversationList.tsx:79-85 | a created_at on a later day than now falls into This Week |
| ListEngine.OlderIsAWeekAgo | frontend/src/components/ConversationList.tsx:77-85 | Older means dated, before yesterday and at least seven days ago |
| ListEngine.LastMessage | frontend/src/components/ConversationList.tsx:95-100 | none for a missing or empty list; otherwise the array is sorted newest first in place and its first message returned |
| ListEngine.LastIsNewest | frontend/src/components/ConversationList.tsx:97-99 | the chosen message is one of the conversation's and no message is newer |
| ListEngine.StatusBar | frontend/src/components/ConversationList.tsx:370-373 | open + closed = total = list length |
| PhoneForm.DigitsOfPunctuation | frontend/src/components/NewConversationModal.tsx:53 | a string of non-digits has no digits |
| PhoneForm.MaskKeepsDigits | frontend/src/components/NewConversationModal.tsx:56-64 | the mask's digits are the first min(n, 11) digits, in order |
| PhoneForm.FormatKeepsDigits | frontend/src/components/NewConversationModal.tsx:51-65 | formatting keeps exactly the first min(n, 11) digits of the input |
| PhoneForm.FormatIdempotent | frontend/src/components/NewConversationModal.tsx:67-69 | formatting a formatted value changes nothing |
| PhoneForm.DropIf | frontend/src/components/NewConversationModal.tsx:40 | an optional token never lengthens the string |
| PhoneForm.PhoneValidAccepts | frontend/src/components/NewConversationModal.tsx:40 | the validation accepts every string the expression describes: optional parentheses and separators around 2 + 5 + 4 digits |
| PhoneForm.PhoneValidOnlyRegex | frontend/src/components/NewConversationModal.tsx:40 | conversely, every string the validation accepts is spelled out by the expression from such pieces |
| PhoneForm.ValidHasElevenDigits | frontend/src/components/NewConversationModal.tsx:40 | a number that passes holds exactly eleven digits |
| PhoneForm.MaskCompleteIsValid | frontend/src/components/NewConversationModal.tsx:72 | a completed mask passes the validation |
| PhoneForm.FormatCompleteIffEleven | frontend/src/components/NewConversationModal.tsx:51-72 | the mask is complete exactly when the input has at least eleven digits; such a value passes; a valid number formats to a complete mask |
| PhoneForm.FieldErrors | frontend/src/components/NewConversationModal.tsx:31-48 | the name error is set exactly when the name is blank, the phone error exactly when the phone fails, each independently |
| PhoneForm.ValidIffNoErrors | frontend/src/components/NewConversationModal.tsx:31-48 | the fields pass exactly when no error is recorded |
| PhoneForm.Modal.constructor | frontend/src/components/NewConversationModal.tsx:13-18 | an empty form on step 1 |
| PhoneForm.Modal.ValidateFields | frontend/src/components/NewConversationModal.tsx:31-48 | valid exactly when the name is not blank and the phone passes; errors are `FieldErrors`; nothing else changes |
| PhoneForm.Modal.HandlePhoneChange | frontend/src/components/NewConversationModal.tsx:67-75 | stores the formatted value and clears a phone error once the mask is complete |
| PhoneForm.Modal.HandleNameChange | frontend/src/components/NewConversationModal.tsx:77-84 | stores the name and clears a name error once it is not blank |
| PhoneForm.Modal.HandleSubmit | frontend/src/components/NewConversationModal.tsx:103-106 | ignored while loading; otherwise marks loading and starts the creation |
| PhoneForm.Modal.FinishSubmit | frontend/src/components/NewConversationModal.tsx:117-137 | success sets the success flag; failure returns to step 1 with the name error; loading ends either way |
| PhoneForm.Modal.HandleContinue | frontend/src/components/NewConversationModal.tsx:86-94 | moves 1→2 only with valid fields, submits from step 2 only with valid fields, otherwise only records errors |
| PhoneForm.Modal.HandleKeyDown | frontend/src/components/NewConversationModal.tsx:96-101 | Enter does what `HandleContinue` does (errors recorded, step 1→2 or a submit only with valid fields); any other key does nothing |
| PhoneForm.Modal.GoBack | frontend/src/components/NewConversationModal.tsx:344 | back returns to step 1 keeping the fields |
| ChatView.SendGuardMatchesButton | frontend/src/components/ConversationView.tsx:524-547 | the send guard passes exactly when the input is shown and the send button is enabled |
| ChatView.WhiteSpaceNeverSent | frontend/src/components/ConversationView.tsx:90 | an all-white-space draft is never sent |
| ChatView.PanelFollowsLastDirection | frontend/src/components/ConversationView.tsx:458-460 | after a new message the simulate panel shows exactly when that message was SENT |
| ChatView.View.constructor | frontend/src/components/ConversationView.tsx:46-48 | an empty draft, following the bottom |
| ChatView.View.Type | frontend/src/components/ConversationView.tsx:537 | typing replaces the draft |
| ChatView.View.HandleSend | frontend/src/components/ConversationView.tsx:89-95 | forwards the untrimmed draft, clears it and follows the bottom exactly when the guard passes; otherwise nothing changes |
| ChatView.View.HandleKeyDown | frontend/src/components/ConversationView.tsx:118-123 | Enter without Shift is intercepted and attempts a send; Shift+Enter and other keys change nothing |
| ChatView.View.HandleScroll | frontend/src/components/ConversationView.tsx:76-82 | scrolled up exactly when at least 10 px from the bottom; the button shows exactly when scrolled up with more than 5 messages |
| ChatView.HandleManualResponse | frontend/src/components/ConversationView.tsx:98-115 | with a conversation, a callback and non-blank text, the text is left in the shared slot and the callback invoked; otherwise nothing |
| HomePage.SimulatedContent | frontend/src/app/page.tsx:1008-1030 | a pending manual reply is used and cleared; otherwise one of the six canned phrases, with the slot kept |
| HomePage.ManualReplyDelivered | frontend/src/app/page.tsx:1010-1015 | a non-blank manual reply is the text posted, and the next reply is canned |
| HomePage.StatsOf | frontend/src/app/page.tsx:540-551 | total is the list length and open + closed = total |
| HomePage.ShareBounds | frontend/src/app/page.tsx:553-556 | a share of a positive total lies between 0 and 100 percent |
| HomePage.SharesSum | frontend/src/app/page.tsx:553-556 | two shares that make up the total add to 100 percent |
| HomePage.PercentagesSplit | frontend/src/app/page.tsx:553-556 | both percentages are 0 for an empty list; otherwise each lies in [0, 100] and they add to 100 |
| HomePage.CeilDiv | frontend/src/app/page.tsx:750-752 | the least whole number of units covering the distance |
| HomePage.TimeAgoUnits | frontend/src/app/page.tsx:746-762 | days beyond one day, hours (2 to 24) beyond one hour, else minutes (at most 60); with the clock read twice, a missing date reads 0 minutes when the readings agree and 1 minute when they are less than a minute apart |
| HomePage.RecentAndViewAll | frontend/src/app/page.tsx:745 | the recent list is a prefix of at most eight, and "view all" shows exactly when it leaves conversations out |
| HomePage.Home.constructor | frontend/src/app/page.tsx:846-851 | no conversations, none open, dashboard screen |
| HomePage.Home.SelectConversation | frontend/src/app/page.tsx:872-878 | 'new' only opens the modal and fetches nothing; any other id starts loading and is fetched; the active conversation is untouched |
| HomePage.Home.FinishSelect | frontend/src/app/page.tsx:879-888 | a fetched conversation becomes active on the chat screen; loading ends either way |
| HomePage.CreateEventAccepted | frontend/src/app/page.tsx:975-981 | the creation event for a fresh browser-generated key is answered 201 and adds exactly that conversation, OPEN, with nothing else changed |
| HomePage.CreateEventCollides | frontend/src/app/page.tsx:975-981 | the creation event for a key the store already holds is answered 400 and changes nothing; the page then reports the failure and leaves its list alone, while the modal still shows success (see `SubmitFromModal`) |
| HomePage.CloseEventAccepted | frontend/src/app/page.tsx:950-952 | the close event for a stored conversation is answered 200 and leaves it CLOSED, nothing else changed |
| HomePage.SentEventAccepted | frontend/src/app/page.tsx:914-919 | the event of an accepted send, for a fresh message key and a conversation stored OPEN, is answered 201 and stores the message with its content and a direction that reads back as SENT |
| HomePage.Home.SendMessage | frontend/src/app/page.tsx:892-919 | no change and no event without an OPEN active conversation and non-blank content; otherwise exactly one SENT message with the untrimmed content is appended, and the event carries the same id |
| HomePage.Home.FinishCreate | frontend/src/app/page.tsx:982-997 | never rejects; a fetched conversation is prepended, made active and shown, with the rest of the list unchanged |
| HomePage.Home.FinishClose | frontend/src/app/page.tsx:955-967 | when the webhook and the conversation fetch succeed, the refetched conversation becomes active and the refetched list replaces the list, which is empty when the list fetch failed; a failure before that changes nothing |
| HomePage.Home.SimulateResponse | frontend/src/app/page.tsx:1000-1036 | a RECEIVED message with the content `SimulatedContent` chooses; the slot is cleared exactly when it was used |
| HomePage.ManualReplyFromView | frontend/src/app/page.tsx:1134-1137 | a manual reply typed in the chat view is posted as exactly that RECEIVED text on the active conversation, and the slot is empty afterwards |
| HomePage.SubmitFromModal | frontend/src/app/page.tsx:971-998 | with this page as the handler, a started submit sends the creation event and always ends in the modal's success state, and a fetched conversation is prepended and opened while a failed fetch leaves the list and the active conversation alone; a submit made while one is in flight changes neither the page nor the modal, which stays loading |

## Left out

- The animations and canvas effects, the analytics dashboard, the theme table and the message bubble: geometry, timers and rendering with no statable contract.
- frontend/src/services/api.js is not part of this model. The outcome of `fetchConversation` and `sendWebhook`, which throw on failure, is an `Option` parameter (None for the failure) of the method that continues after them. `fetchConversations` catches every error and answers an empty list, so its outcome is a plain list parameter, with a failure passed as the empty list.
- Three groups of fetches are left out: the delayed re-fetches (`setTimeout`), the immediate re-fetch that rolls back the optimistic message after a failed send (frontend/src/app/page.tsx:930-941), and the `onRefreshConversation` handler (frontend/src/app/page.tsx:1123-1131). Also left out are toasts, console logging and the interleaving of requests in flight. What is modelled are the guard and update steps, and, for selecting, creating and closing, the state update once the awaited calls have settled.
- JSON parsing and HTTP. A body is modelled as an already decoded `Envelope`, whose payload maps field names to strings; a payload value that is not a string is not modelled.
- URL routing, the admin site, migrations and the serializers. The detail and list views only read.
- The ORM is modelled as in-memory maps and a message log. The database's own timestamps are replaced by a clock that advances by a parameter.
- Models.ParseUuid: the integer and other exotic forms that `uuid.UUID` also accepts are not modelled. An id is read only from 32 hex digits, optionally braced, prefixed or hyphenated.
- Text.LowerChar: lower-casing covers ASCII and Latin-1 only, not the full Unicode case mapping of `toLowerCase`.
- ListEngine.LocalDay: time zones are a fixed offset. Daylight-saving changes and date strings that do not parse are not modelled. The grouping reads the clock once (`now`), while the code reads it separately for a missing date, inside `isToday`/`isYesterday` and in `Date.now()`. So near midnight an undated conversation can land in Yesterday in the browser, which the model does not show.
- ListEngine.SortConversations: for a comparator that is not consistent, the order between conversations with and without dates is that of one stable insertion sort. A JavaScript engine may order them differently; only the permutation and OPEN-first properties are promised in general.
- ListEngine.LastMessage: the order among equally new messages is that of a stable sort, as ECMAScript requires: they keep their array order. This is stated through `ArraySort.InsertionSort`, not as a separate clause.
- ChatView.View.HandleScroll: scroll offsets are integers rather than floating-point pixels.
- HomePage.SharesSum: the percentages are exact real numbers, not IEEE doubles. In doubles the two shares need not add up to exactly 100 (1/3·100 + 2/3·100 is not 100). The [0, 100] bounds hold in doubles too.
- HomePage.PercentagesSplit: its clause that the two percentages add up to 100 holds for the exact reals of the model, not for the doubles of the page, for the same reason.
- HomePage.Home.SendMessage: when the active conversation has no message array, spreading it throws in the browser. The model appends to an empty list instead.
- PhoneForm.Modal.FinishSubmit: the error record it writes is the one current when the submit began. A stale copy of `errors` captured by the submit closure is not modelled.
- The modal's 2-second auto-close after success is left out. The canned reply's random choice is a parameter `pick` in [0, 6).
