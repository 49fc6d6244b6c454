# LINE counselling bot: message pipeline

This project is a Dafny model of the message pipeline of a LINE chatbot, `main.py`.
Each text message from a LINE user is validated. The reset phrase "スタート" closes the
user's current conversation. Any other message from a user whose subscription lookup
succeeds is logged and goes through a usage gate:
the owner and active subscribers always pass, and other users pass while they have had
fewer than five replies in the last 24 hours. A message that passes is answered by a chat
backend. The backend is sent the system prompt, the last ten turns of the user's active
conversation, and the new message. The reply is logged and sent back to LINE.

Modules:

- `Validation`: `validate_message`. Its four rejections are an invalid format,
  more than 2000 characters, whitespace only, and a dangerous pattern. The patterns are
  a script element, `javascript:`, `vbscript:` and `data:text/html`, checked without
  regard to case. An accepted message is returned stripped of Python whitespace.
- `ConversationStore`: the `line_bot_logs` table, as the class `LogStore` over a sequence
  of rows. It has four operations:
  - insert a row (`log_to_database`);
  - deactivate a user's rows (`deactivate_conversation_history`);
  - read the ten newest active rows of a user, oldest first (`get_conversation_history`);
  - count the user's system replies newer than 24 hours
    (`get_system_responses_in_last_24_hours`).

  Each operation takes a `fault` flag. It stands for a database error, which the source
  catches and logs.
- `Billing`: `get_subscription_details_for_user`. It scans the first 100 listed
  subscriptions for the plan's price id and the user's `line_user` metadata.
- `Backend`: the message list built by `generate_gpt4_response`, and what the function
  makes of the backend's answer.
- `Handler`: `handle_line_message`, including its exception paths.
  - `HandlerOutcome` is a function of the inputs and the table before the event. It
    returns the reply, the message list sent to the backend, and the table afterwards.
  - The method `HandleLineMessage` is proved to produce exactly that.
  - The lemmas state what the handler guarantees.

Environment inputs are parameters:

- the clock (`now`, in seconds, one reading per event);
- the subscription listing (`None` when the provider call raises);
- the backend, as a function from message lists to `BackendReply`;
- database failures, as one flag per store call in `Faults`;
- the plan id, owner id and system prompt, in `Config`.

Consequences of the code as written that the model keeps:

- A backend response without `choices[0].message.content` raises `KeyError`,
  `IndexError` or `TypeError`, and `generate_gpt4_response` catches only
  `RequestException`. The handler therefore replies with the temporary-error text. It
  does not reply with the "Sorry, I couldn't understand that." fallback. The user's row
  stays logged and no system row is written.
- A message without a user id never gets "エラーが発生しました。". After that reply is
  chosen, the system-row log reads `stripe_id`, which is assigned only on the user-id
  branch. The resulting `UnboundLocalError` is caught by the generic handler, so the reply
  is the temporary-error text and nothing is logged.
- The subscription lookup runs before the owner check. A lookup that raises gives the
  owner the temporary-error text too.
- The history is read after the user's row is logged. With a clock that does not run
  backwards, the current text therefore appears twice at the end of the message list:
  as the newest history turn and as the final user turn.
- A user row written while no system row follows (a malformed backend response) still
  counts as history. The quota counts system rows whether or not they are active, so a
  reset does not restore the quota.

## Model

| member | source | states |
|---|---|---|
| Validation.Strip | main.py:108 | the result occurs contiguously in the input with only whitespace before and after it, so only leading and trailing whitespace is removed; it is no longer than the input, has no whitespace at either end, and is empty exactly when the input is all whitespace |
| Validation.StripPieces | main.py:108 | a whitespace prefix and a whitespace suffix removed around a text without whitespace at its ends leave exactly the stripped text |
| Validation.Lower | main.py:119 | the lower-cased text, character by character; it has the input's length (its character-level behaviour is in LowerCharwise) |
| Validation.LowerCharwise | main.py:119 | lower-casing leaves no ASCII upper-case letter and changes no character that is not one |
| Validation.IsDangerous | main.py:112-122 | a text is dangerous exactly when it contains a script element or one of `javascript:`, `vbscript:`, `data:text/html`; this is the definition the DangerousInfix, WithoutMarkupSafe and PlainTextSafe rows describe |
| Validation.ValidateMessage | main.py:99-124 | each of the four rejections happens exactly when its condition holds and the earlier checks passed (absent or empty input; over 2000 characters; whitespace only; a dangerous pattern in the lower-cased text); on acceptance the text is the stripped input, 1 to 2000 characters, with no whitespace at either end |
| Validation.ValidateIdempotent | main.py:99-124 | validating an accepted text again accepts it unchanged |
| Validation.AcceptedTextPasses | main.py:104-124 | the stripped text of an accepted message is within the length limit, not blank, already stripped, and free of dangerous patterns |
| Validation.DangerousInfix | main.py:112-122 | a dangerous pattern inside a piece of a text is a dangerous pattern of the whole text |
| Validation.WithoutMarkupSafe | main.py:112-122 | text without '<' or ':' never matches a dangerous pattern |
| Validation.ScriptElementRejected | main.py:113 | an upper-case script element with any content, within the length limit, is rejected as dangerous (the match ignores case) |
| Validation.SchemeExample | main.py:114 | a `javascript:` scheme in the middle of a message is rejected as dangerous |
| Validation.LengthExamples | main.py:104-105 | the length limit applies before stripping: 2001 characters, or one letter followed by 2000 spaces, are too long |
| Validation.BlankExample | main.py:108-109 | a message of spaces is rejected as empty |
| Validation.PlainTextSafe | main.py:119-122 | lower-case text with no '<' or ':' is not dangerous |
| Validation.StripOneEach | main.py:124 | one whitespace character removed from each end of a trimmed text gives that text |
| Validation.SurroundedTextAccepted | main.py:99-124 | a text of at most 1998 characters with no whitespace at either end and no upper-case letter, '<' or ':', between two whitespace characters (an ideographic space, say), is accepted as the inner text |
| ConversationStore.Candidates | main.py:313-316 | the user's active rows, with their row positions, in table order: every member is an active row of the user, every such row is a member, and positions increase |
| ConversationStore.InsertPermutes | main.py:316 | inserting an entry into the ordering adds exactly that entry |
| ConversationStore.InsertChronological | main.py:316 | inserting into a time-ordered sequence keeps it time-ordered |
| ConversationStore.SortChronoCorrect | main.py:316 | the sort is a time-ordered permutation of its input (ties broken by table position) |
| ConversationStore.Window | main.py:313-316 | the definition of the query window (the user's active rows in time order, the latest ten kept); WindowSpec states its properties |
| ConversationStore.History | main.py:306-335 | the definition of the history (the window as chat messages); HistorySpec and the rows after it state its properties |
| ConversationStore.WindowSpec | main.py:313-316 | the window holds min(10, session size) entries, oldest first, each an active row of the user, and every active row of the user that is left out is older than all rows kept |
| ConversationStore.HistorySpec | main.py:306-335 | the history has at most ten entries, oldest first; entry k holds the message of the k-th window row, with role "user" exactly when its sender is 'user' and "assistant" otherwise |
| ConversationStore.ReversedQueryIsHistory | main.py:321-335 | the newest-first rows, as chat messages, reversed, are the history |
| ConversationStore.HistoryIgnoresOtherUsers | main.py:315 | a row of another user does not change a user's history |
| ConversationStore.NewestRowEndsHistory | main.py:316 | an active row of the user stamped no earlier than every other row is the last history entry |
| ConversationStore.Deactivated | main.py:193-197 | every row of the user becomes inactive and every other row is unchanged; the length is kept |
| ConversationStore.DeactivateClearsHistory | main.py:187-198 | after deactivation the user's history is empty |
| ConversationStore.DeactivateKeepsOtherSessions | main.py:194-195 | deactivating one user leaves every other user's session and history unchanged |
| ConversationStore.DeactivateIdempotent | main.py:194-195 | deactivating twice is the same as once |
| ConversationStore.CountRecentSystem | main.py:168-174 | the definition of the 24-hour count, never more than the number of rows; CountIsNumberOfMatchingRows and the rows after it state its properties |
| ConversationStore.CountIsNumberOfMatchingRows | main.py:168-174 | the count is the number of rows that are system rows of the user newer than the cut-off |
| ConversationStore.CountAppend | main.py:168-174 | appending a row adds one to the count exactly when that row is a recent system row of the user |
| ConversationStore.CountIgnoresDeactivation | main.py:169-170 | the count ignores the active flag, so deactivation does not change it |
| ConversationStore.CountExpires | main.py:170 | moving the cut-off later never raises the count, and lowers it once a counted row falls at or before the new cut-off |
| ConversationStore.LogStore.LogToDatabase | main.py:280-303 | the row is appended with the given fields; on a database fault the table is unchanged |
| ConversationStore.LogStore.DeactivateConversationHistory | main.py:187-210 | the table becomes the deactivated table; unchanged on a fault |
| ConversationStore.LogStore.GetConversationHistory | main.py:306-335 | the returned list is the history; empty on a fault |
| ConversationStore.LogStore.GetSystemResponsesInLast24Hours | main.py:161-185 | the returned count is the count of recent system rows with a 24-hour cut-off; zero on a fault |
| Billing.ScanFrom | main.py:267-273 | no subscription exactly when no remaining subscription stops the scan; a found result comes from the first stopping subscription, which matches; an error comes from the first stopping subscription, which has no items |
| Billing.FirstPage | main.py:266 | the page is exactly the first min(100, n) subscriptions of a listing of n |
| Billing.GetSubscriptionDetailsForUser | main.py:265-273 | a failing listing gives an error; otherwise the result is the first-stop result of the scan over the first page |
| Billing.FirstMatchFound | main.py:267-272 | a match within the first 100, with nothing before it that stops the scan, is the result whatever follows |
| Billing.BeyondFirstPageNotFound | main.py:266 | a match listed after the first 100 subscriptions is never found |
| Backend.Prompt | main.py:134-138 | the message list is the system message, then the history, then the user's text, and has two more entries than the history |
| Backend.Interpret | main.py:155-158 | what the function makes of the backend's answer: it escapes exactly when the response is malformed, and a failed request gives the fallback text (that a completed reply is returned stripped is stated by GenerateGpt4Response) |
| Backend.GenerateGpt4Response | main.py:128-158 | the list sent is the prompt over the stored history (empty on a fault); a completed reply is returned stripped, a failed request gives the fallback text, a malformed response escapes |
| Handler.HandlerOutcome | main.py:214-262 | the definition of one event's outcome (reply, message list sent, new table); HandleLineMessage is proved to produce it and the Handler lemma rows state its properties |
| Handler.Exchange | main.py:228-251 | the definition of the exchange step after a successful lookup: log the user's row, gate, generate or take the limit text, log the system row |
| Handler.Gate | main.py:236-246 | the definition of the usage gate over the table after the user's row, with a failing count read as zero; GateDecidesBackendCall states what it decides |
| Handler.UsageGate | main.py:236-243 | the gate's decision: the owner, then an active subscription, then fewer than five recent system replies (zero on a count fault) |
| Handler.Respond | main.py:236-246 | when the gate allows it, the message list sent is the prompt over the current table's history and the answer is the backend's interpreted reply; otherwise nothing is sent and the answer is the usage-limit text |
| Handler.ExchangePath | main.py:228-251 | on a valid, non-reset message with a user id and a successful lookup, the event is the exchange step |
| Handler.ExchangeMessages | main.py:229-251 | logging, gating, generation and the system-row log produce exactly the exchange outcome |
| Handler.HandleLineMessage | main.py:214-262 | the reply, the message list sent and the new table are exactly the handler outcome for the event |
| Handler.RejectedMessageWritesNothing | main.py:253-256 | an invalid message gets the format apology; nothing is written or sent |
| Handler.ResetClosesSession | main.py:221-223 | the reset phrase from a user gets the welcome text and sends nothing; the new table is exactly the deactivated table, or the old table on a fault; so its size is kept and, without a fault, all the user's rows are inactive and the history is empty |
| Handler.MissingUserWritesNothing | main.py:247-251 | without a user id every valid message gets the temporary-error text; nothing is written or sent |
| Handler.LookupErrorWritesNothing | main.py:229 | a failing subscription lookup gets the temporary-error text before anything is written |
| Handler.UserRowNotCounted | main.py:233-242 | logging the user's row does not change the user's recent system-reply count |
| Handler.GateDecidesBackendCall | main.py:236-246 | the backend is called exactly when the user is the owner, or the subscription is active, or fewer than five system replies are recent (a failing count reads as zero); otherwise the usage-limit text is replied and logged |
| Handler.OwnerAlwaysGenerates | main.py:236-237 | the owner always gets a backend call |
| Handler.CountFaultFailsOpen | main.py:175-182 | a failing count query lets the backend be called |
| Handler.QuotaExhaustedDenies | main.py:240-246 | five recent system replies without an active subscription, for a user who is not the owner, give the usage-limit text and no backend call |
| Handler.QuotaRecovers | main.py:170 | a user at exactly five recent replies is under the quota again once one of them is 24 hours old |
| Handler.ExchangeAppendsTwoRows | main.py:233-251 | a handled exchange without faults or a malformed reply appends exactly two active rows stamped with the event time: the user's text, then the reply |
| Handler.RequestFailureFallsBack | main.py:156-158 | a failed backend request gives the fallback text, which is also logged as the system row |
| Handler.MalformedResponseLeavesUserRow | main.py:155-158 | a malformed backend response gives the temporary-error text, keeps the user's row, and writes no system row |
| Handler.CurrentTextSentTwice | main.py:134-138 | with a clock that does not run backwards, the last two entries of the message list are both the user's current text |

## Left out

- The Flask route, the LINE signature check and the webhook dispatch (main.py:83-96) are I/O around the core.
- The database connection pool (main.py:40-81) is not modelled. Each store call either succeeds or fails as a whole, through its fault flag.
- The HTTP call to the chat backend is a parameter function, and so are JSON parsing, the model name, the temperature and the API key.
- An unparseable JSON body is counted as a failed request (`RequestFailed`). `requests` 2.27 and later raise a `RequestException` subclass for it.
- The Stripe listing is an input and the LINE `reply_message` call is an output.
- Errors in the `reply_message` call itself are not modelled.
- The system prompt's text is a configuration parameter.
- `check_subscription_status` (main.py:276-277) is a one-line alias of the lookup.
- test_openai.py is a separate script and is not part of this model.
- There is no concurrency: each event is handled to completion before the next.
- Validation.Lower: lower-cases ASCII letters only, because Unicode case mapping and the regex's IGNORECASE folding are not modelled.
- Validation.IsDangerous: decides the patterns over the lower-cased text as stated; regex backtracking is not modelled, because it does not change whether a pattern matches.
- Handler.HandlerOutcome: uses one clock reading for the row timestamps and for the count's cut-off, as if the application clock (`datetime.now()`) and the database clock (`NOW()`) agreed.
- Handler.HandlerOutcome: time is whole seconds. A 24-hour interval is 86400 seconds and sub-second ordering is not modelled.
- ConversationStore.History: breaks timestamp ties by insertion order. SQL leaves the order of equal timestamps unspecified.
