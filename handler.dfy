/**
 * The message handler (`handle_line_message` in main.py). In order: validate
 * the text; on the reset phrase, deactivate the user's conversation; otherwise
 * look up the subscription, log the user's row, decide between a generated
 * reply and the usage-limit text (owner, then active subscription, then fewer
 * than five system replies in 24 hours), log the system row, and reply.
 *
 * Exceptions that reach the handler's generic `except` give the
 * temporary-error text. That happens when there is no user id (the system-row
 * log reads `stripe_id`, which is bound only on the user-id path), when the
 * subscription lookup raises, and when the backend's response is malformed.
 */
module Handler {
  import opened Wrappers
  import opened Validation
  import opened ConversationStore
  import opened Billing
  import opened Backend

  const ResetPhrase := "スタート"
  const WelcomeText := "頼りにしてくださりありがとうございます。今日はどんなお話をうかがいましょうか？"
  const LimitText := "利用回数の上限に達しました。24時間後に再度お試しください。こちらから回数無制限の有料プランに申し込むこともできます：https://line-login-3fbeac7c6978.herokuapp.com/"
  const FormatErrorText := "申し訳ございませんが、メッセージの形式に問題があります。もう一度お試しください。"
  const TemporaryErrorText := "申し訳ございません。一時的なエラーが発生しました。しばらくしてから再度お試しください。"

  /** Replies a user without an active subscription gets per 24 hours. */
  const FreeDailyReplies: nat := 5
  const ActiveStatus := "active"

  /** The environment: plan price id, owner's user id (may be unset), system prompt. */
  datatype Config = Config(planId: string, ownerId: Option<string>, sysPrompt: string)

  /** Which store calls of this event fail; each failure is caught inside the store operation. */
  datatype Faults = Faults(deactivate: bool, logUser: bool, history: bool, count: bool, logSystem: bool)

  /** The reply, the message list sent to the backend if any, and the table afterwards. */
  datatype Outcome = Outcome(reply: string, sent: Option<seq<ChatMessage>>, rows: seq<Row>)

  /** Python truthiness of the user id: present and non-empty. */
  predicate HasUser(userId: Option<string>) {
    userId.Some? && userId.value != ""
  }

  /** The gate of lines 236-246. */
  predicate MayGenerate(isOwner: bool, status: Option<string>, count: nat) {
    isOwner || status == Some(ActiveStatus) || count < FreeDailyReplies
  }

  function Appended(rows: seq<Row>, fault: bool, r: Row): seq<Row> {
    if fault then rows else rows + [r]
  }

  function StripeId(lookup: Lookup): Option<string> {
    if lookup.Found? then Some(lookup.details.stripeId) else None
  }

  function Status(lookup: Lookup): Option<string> {
    if lookup.Found? then Some(lookup.details.status) else None
  }

  function UserRow(cfg: Config, u: string, now: int, lookup: Lookup, message: string): Row {
    Row(now, UserSender, u, StripeId(lookup), message, true, cfg.sysPrompt)
  }

  function SystemRow(cfg: Config, u: string, now: int, lookup: Lookup, reply: string): Row {
    Row(now, SystemSender, u, StripeId(lookup), reply, true, cfg.sysPrompt)
  }

  /** The message is valid, is not a reset, and comes with a user id: the exchange path. */
  predicate IsExchange(userId: Option<string>, text: Option<string>) {
    && ValidateMessage(text).Accepted?
    && ValidateMessage(text).text != ResetPhrase
    && HasUser(userId)
  }

  /**
   * The exchange path once the subscription lookup has succeeded: log the
   * user's row, decide the gate on the table as it is after that row, then
   * either call the backend with the prompt built from the user's history or
   * answer with the usage-limit text, and log the reply as the system row.
   */
  ghost function Exchange(
    cfg: Config, u: string, message: string, now: int, lookup: Lookup,
    backend: seq<ChatMessage> -> BackendReply, faults: Faults, rows: seq<Row>): Outcome
  {
    var logged := Logged(cfg, u, message, now, lookup, faults, rows);
    if Gate(cfg, u, now, lookup, faults, logged) then
      var sent := Sent(cfg, u, message, faults, logged);
      match Interpret(backend(sent))
      case Uncaught => Outcome(TemporaryErrorText, Some(sent), logged)
      case Generated(reply) =>
        Outcome(reply, Some(sent), Appended(logged, faults.logSystem, SystemRow(cfg, u, now, lookup, reply)))
    else
      Outcome(LimitText, None, Appended(logged, faults.logSystem, SystemRow(cfg, u, now, lookup, LimitText)))
  }

  /** The table after the user's row is logged (line 231). */
  function Logged(cfg: Config, u: string, message: string, now: int, lookup: Lookup, faults: Faults, rows: seq<Row>): seq<Row> {
    Appended(rows, faults.logUser, UserRow(cfg, u, now, lookup, message))
  }

  /** The gate, with the count read from the table after the user's row; a count fault reads 0. */
  predicate Gate(cfg: Config, u: string, now: int, lookup: Lookup, faults: Faults, logged: seq<Row>) {
    MayGenerate(cfg.ownerId == Some(u), Status(lookup),
                if faults.count then 0 else CountRecentSystem(logged, u, now - Day))
  }

  /** The message list `generate_gpt4_response` sends, with the history read after the user's row. */
  function Sent(cfg: Config, u: string, message: string, faults: Faults, logged: seq<Row>): seq<ChatMessage> {
    Prompt(cfg.sysPrompt, if faults.history then [] else History(logged, u), message)
  }

  /** What one event does, as a function of the inputs and the table before it. */
  ghost function HandlerOutcome(
    cfg: Config, userId: Option<string>, text: Option<string>, now: int,
    stripe: Option<seq<Subscription>>, backend: seq<ChatMessage> -> BackendReply,
    faults: Faults, rows: seq<Row>): Outcome
  {
    match ValidateMessage(text)
    case Rejected(_) => Outcome(FormatErrorText, None, rows)
    case Accepted(message) =>
      if message == ResetPhrase && HasUser(userId) then
        Outcome(WelcomeText, None, if faults.deactivate then rows else Deactivated(rows, userId.value))
      else if !HasUser(userId) then
        Outcome(TemporaryErrorText, None, rows)
      else
        var lookup := GetSubscriptionDetailsForUser(stripe, userId.value, cfg.planId);
        if lookup == ListingError then Outcome(TemporaryErrorText, None, rows)
        else Exchange(cfg, userId.value, message, now, lookup, backend, faults, rows)
  }

  /** On the exchange path with a successful lookup, the event is `Exchange`. */
  lemma ExchangePath(
    cfg: Config, userId: Option<string>, text: Option<string>, now: int,
    stripe: Option<seq<Subscription>>, backend: seq<ChatMessage> -> BackendReply,
    faults: Faults, rows: seq<Row>)
    requires IsExchange(userId, text)
    requires GetSubscriptionDetailsForUser(stripe, userId.value, cfg.planId) != ListingError
    ensures HandlerOutcome(cfg, userId, text, now, stripe, backend, faults, rows) ==
      Exchange(cfg, userId.value, ValidateMessage(text).text, now,
               GetSubscriptionDetailsForUser(stripe, userId.value, cfg.planId), backend, faults, rows)
  {
  }

  /**
   * Lines 236-243: the owner first, then an active subscription; the count of
   * recent system rows is read only when both fail.
   */
  method UsageGate(store: LogStore, cfg: Config, u: string, now: int, status: Option<string>, countFault: bool)
    returns (allowed: bool)
    ensures allowed == MayGenerate(cfg.ownerId == Some(u), status,
                                   if countFault then 0 else CountRecentSystem(store.rows, u, now - Day))
  {
    allowed := cfg.ownerId == Some(u) || status == Some(ActiveStatus);
    if !allowed {
      var count := store.GetSystemResponsesInLast24Hours(u, now, countFault);
      allowed := count < FreeDailyReplies;
    }
  }

  /**
   * Lines 236-246: when the gate allows it, the backend's interpreted answer to
   * the prompt built from the current table; otherwise the usage-limit text.
   */
  method Respond(
    store: LogStore, cfg: Config, u: string, message: string, allowed: bool,
    backend: seq<ChatMessage> -> BackendReply, historyFault: bool)
    returns (generation: Generation, sent: Option<seq<ChatMessage>>)
    ensures allowed ==> sent == Some(Prompt(cfg.sysPrompt, if historyFault then [] else History(store.rows, u), message))
    ensures allowed ==> generation == Interpret(backend(sent.value))
    ensures !allowed ==> sent == None && generation == Generated(LimitText)
  {
    if allowed {
      var s;
      generation, s := GenerateGpt4Response(store, message, u, cfg.sysPrompt, historyFault, backend);
      sent := Some(s);
    } else {
      generation := Generated(LimitText);
      sent := None;
    }
  }

  /** Lines 231-262 after a successful lookup: logs, gates, generates and replies. */
  method ExchangeMessages(
    store: LogStore, cfg: Config, u: string, message: string, now: int, lookup: Lookup,
    backend: seq<ChatMessage> -> BackendReply, faults: Faults)
    returns (reply: string, sent: Option<seq<ChatMessage>>)
    modifies store
    ensures Outcome(reply, sent, store.rows) ==
      Exchange(cfg, u, message, now, lookup, backend, faults, old(store.rows))
  {
    var stripeId := StripeId(lookup);
    var status := Status(lookup);
    store.LogToDatabase(now, UserSender, u, stripeId, message, true, cfg.sysPrompt, faults.logUser);
    ghost var logged := store.rows;
    assert logged == Logged(cfg, u, message, now, lookup, faults, old(store.rows));
    var allowed := UsageGate(store, cfg, u, now, status, faults.count);
    var generation;
    generation, sent := Respond(store, cfg, u, message, allowed, backend, faults.history);
    match generation
    case Uncaught =>
      reply := TemporaryErrorText;
    case Generated(t) =>
      reply := t;
      store.LogToDatabase(now, SystemSender, u, stripeId, reply, true, cfg.sysPrompt, faults.logSystem);
      assert store.rows == Appended(logged, faults.logSystem, SystemRow(cfg, u, now, lookup, reply));
  }

  /**
   * `handle_line_message`: returns the text passed to `reply_message` and the
   * message list sent to the backend, if one was sent.
   */
  method HandleLineMessage(
    store: LogStore, cfg: Config, userId: Option<string>, text: Option<string>, now: int,
    stripe: Option<seq<Subscription>>, backend: seq<ChatMessage> -> BackendReply, faults: Faults)
    returns (reply: string, sent: Option<seq<ChatMessage>>)
    modifies store
    ensures Outcome(reply, sent, store.rows) ==
      HandlerOutcome(cfg, userId, text, now, stripe, backend, faults, old(store.rows))
  {
    sent := None;
    var validation := ValidateMessage(text);
    if validation.Rejected? {
      reply := FormatErrorText;
      return;
    }
    var message := validation.text;
    if message == ResetPhrase && HasUser(userId) {
      store.DeactivateConversationHistory(userId.value, faults.deactivate);
      reply := WelcomeText;
      return;
    }
    if !HasUser(userId) {
      // The system-row log reads stripe_id, unbound on this path.
      reply := TemporaryErrorText;
      return;
    }
    var lookup := GetSubscriptionDetailsForUser(stripe, userId.value, cfg.planId);
    if lookup == ListingError {
      reply := TemporaryErrorText;
      return;
    }
    reply, sent := ExchangeMessages(store, cfg, userId.value, message, now, lookup, backend, faults);
  }

  /** A message that fails validation gets the format apology; nothing is written or sent. */
  lemma RejectedMessageWritesNothing(
    cfg: Config, userId: Option<string>, text: Option<string>, now: int,
    stripe: Option<seq<Subscription>>, backend: seq<ChatMessage> -> BackendReply,
    faults: Faults, rows: seq<Row>)
    requires ValidateMessage(text).Rejected?
    ensures HandlerOutcome(cfg, userId, text, now, stripe, backend, faults, rows) ==
      Outcome(FormatErrorText, None, rows)
  {
  }

  /**
   * The reset phrase from a user appends nothing, sends nothing, replies with
   * the welcome text, and (barring a store fault) closes the user's session.
   */
  lemma ResetClosesSession(
    cfg: Config, userId: Option<string>, text: Option<string>, now: int,
    stripe: Option<seq<Subscription>>, backend: seq<ChatMessage> -> BackendReply,
    faults: Faults, rows: seq<Row>)
    requires ValidateMessage(text) == Accepted(ResetPhrase) && HasUser(userId)
    ensures var o := HandlerOutcome(cfg, userId, text, now, stripe, backend, faults, rows);
      && o.reply == WelcomeText && o.sent == None
      && o.rows == (if faults.deactivate then rows else Deactivated(rows, userId.value))
      && |o.rows| == |rows|
      && (!faults.deactivate ==>
            && History(o.rows, userId.value) == []
            && forall i :: 0 <= i < |rows| && rows[i].lineId == userId.value ==> !o.rows[i].active)
  {
    if !faults.deactivate {
      DeactivateClearsHistory(rows, userId.value);
    }
  }

  /**
   * Without a user id every valid message, the reset phrase included, gets the
   * temporary-error text and nothing is written or sent.
   */
  lemma MissingUserWritesNothing(
    cfg: Config, userId: Option<string>, text: Option<string>, now: int,
    stripe: Option<seq<Subscription>>, backend: seq<ChatMessage> -> BackendReply,
    faults: Faults, rows: seq<Row>)
    requires ValidateMessage(text).Accepted? && !HasUser(userId)
    ensures HandlerOutcome(cfg, userId, text, now, stripe, backend, faults, rows) ==
      Outcome(TemporaryErrorText, None, rows)
  {
  }

  /** A failing subscription lookup gets the temporary-error text before anything is written. */
  lemma LookupErrorWritesNothing(
    cfg: Config, userId: Option<string>, text: Option<string>, now: int,
    stripe: Option<seq<Subscription>>, backend: seq<ChatMessage> -> BackendReply,
    faults: Faults, rows: seq<Row>)
    requires IsExchange(userId, text)
    requires GetSubscriptionDetailsForUser(stripe, userId.value, cfg.planId) == ListingError
    ensures HandlerOutcome(cfg, userId, text, now, stripe, backend, faults, rows) ==
      Outcome(TemporaryErrorText, None, rows)
  {
  }

  /** Logging the user's row does not change the count of the user's system replies. */
  lemma UserRowNotCounted(cfg: Config, u: string, message: string, now: int, lookup: Lookup, faults: Faults, rows: seq<Row>)
    ensures CountRecentSystem(Logged(cfg, u, message, now, lookup, faults, rows), u, now - Day) ==
      CountRecentSystem(rows, u, now - Day)
  {
    if !faults.logUser {
      CountAppend(rows, UserRow(cfg, u, now, lookup, message), u, now - Day);
    }
  }

  /**
   * The backend is called exactly when the user is the owner, or the
   * subscription is active, or fewer than five system replies of the user are
   * newer than 24 hours (a failing count reads as none). Otherwise the reply is
   * the usage-limit text, and it is logged as the system row.
   */
  lemma GateDecidesBackendCall(
    cfg: Config, u: string, message: string, now: int, lookup: Lookup,
    backend: seq<ChatMessage> -> BackendReply, faults: Faults, rows: seq<Row>)
    ensures var o := Exchange(cfg, u, message, now, lookup, backend, faults, rows);
      var count := if faults.count then 0 else CountRecentSystem(rows, u, now - Day);
      && (o.sent.Some? <==> MayGenerate(cfg.ownerId == Some(u), Status(lookup), count))
      && (o.sent == None ==>
            && o.reply == LimitText
            && o.rows == Appended(Logged(cfg, u, message, now, lookup, faults, rows), faults.logSystem,
                                  SystemRow(cfg, u, now, lookup, LimitText)))
  {
    UserRowNotCounted(cfg, u, message, now, lookup, faults, rows);
  }

  /** The owner always gets a backend call, whatever the subscription and the usage. */
  lemma OwnerAlwaysGenerates(
    cfg: Config, u: string, message: string, now: int, lookup: Lookup,
    backend: seq<ChatMessage> -> BackendReply, faults: Faults, rows: seq<Row>)
    requires cfg.ownerId == Some(u)
    ensures Exchange(cfg, u, message, now, lookup, backend, faults, rows).sent.Some?
  {
    GateDecidesBackendCall(cfg, u, message, now, lookup, backend, faults, rows);
  }

  /** A failing count query fails open: the backend is called. */
  lemma CountFaultFailsOpen(
    cfg: Config, u: string, message: string, now: int, lookup: Lookup,
    backend: seq<ChatMessage> -> BackendReply, faults: Faults, rows: seq<Row>)
    requires faults.count
    ensures Exchange(cfg, u, message, now, lookup, backend, faults, rows).sent.Some?
  {
    GateDecidesBackendCall(cfg, u, message, now, lookup, backend, faults, rows);
  }

  /**
   * Five or more system replies newer than 24 hours, no active subscription
   * and not the owner: the usage-limit text is replied and no backend call is made.
   */
  lemma QuotaExhaustedDenies(
    cfg: Config, u: string, message: string, now: int, lookup: Lookup,
    backend: seq<ChatMessage> -> BackendReply, faults: Faults, rows: seq<Row>)
    requires cfg.ownerId != Some(u) && Status(lookup) != Some(ActiveStatus) && !faults.count
    requires CountRecentSystem(rows, u, now - Day) >= FreeDailyReplies
    ensures var o := Exchange(cfg, u, message, now, lookup, backend, faults, rows);
      o.reply == LimitText && o.sent == None
  {
    GateDecidesBackendCall(cfg, u, message, now, lookup, backend, faults, rows);
  }

  /**
   * Once the oldest of the counted replies is 24 hours old (the boundary is
   * excluded), a user who had used up the quota with exactly five replies
   * may be answered again.
   */
  lemma QuotaRecovers(rows: seq<Row>, u: string, now: int, later: int, i: nat)
    requires now <= later
    requires CountRecentSystem(rows, u, now - Day) == FreeDailyReplies
    requires i < |rows| && RecentSystem(rows[i], u, now - Day) && rows[i].timestamp + Day <= later
    ensures CountRecentSystem(rows, u, later - Day) < FreeDailyReplies
  {
    CountExpires(rows, u, now - Day, later - Day, i);
  }

  /**
   * An exchange without store faults whose backend reply is not malformed
   * appends exactly two active rows with the event's timestamp: the user's
   * text, then the reply.
   */
  lemma ExchangeAppendsTwoRows(
    cfg: Config, u: string, message: string, now: int, lookup: Lookup,
    backend: seq<ChatMessage> -> BackendReply, faults: Faults, rows: seq<Row>)
    requires !faults.logUser && !faults.logSystem
    requires var o := Exchange(cfg, u, message, now, lookup, backend, faults, rows);
      o.sent.Some? ==> backend(o.sent.value) != MalformedResponse
    ensures var o := Exchange(cfg, u, message, now, lookup, backend, faults, rows);
      && |o.rows| == |rows| + 2 && o.rows[..|rows|] == rows
      && o.rows[|rows|].sender == UserSender && o.rows[|rows| + 1].sender == SystemSender
      && o.rows[|rows|].message == message && o.rows[|rows| + 1].message == o.reply
      && o.rows[|rows|].timestamp == o.rows[|rows| + 1].timestamp == now
      && o.rows[|rows|].lineId == o.rows[|rows| + 1].lineId == u
      && o.rows[|rows|].active && o.rows[|rows| + 1].active
  {
    var o := Exchange(cfg, u, message, now, lookup, backend, faults, rows);
    var logged := Logged(cfg, u, message, now, lookup, faults, rows);
    var sys := SystemRow(cfg, u, now, lookup, o.reply);
    assert o.rows == logged + [sys];
    assert o.rows == rows + [UserRow(cfg, u, now, lookup, message), sys];
  }

  /**
   * When the request to the backend fails the reply is the fixed fallback
   * text, and that text is still logged as the system row.
   */
  lemma RequestFailureFallsBack(
    cfg: Config, u: string, message: string, now: int, lookup: Lookup,
    backend: seq<ChatMessage> -> BackendReply, faults: Faults, rows: seq<Row>)
    requires var o := Exchange(cfg, u, message, now, lookup, backend, faults, rows);
      o.sent.Some? && backend(o.sent.value) == RequestFailed
    ensures var o := Exchange(cfg, u, message, now, lookup, backend, faults, rows);
      && o.reply == FallbackText
      && (!faults.logSystem ==> |o.rows| > 0 && o.rows[|o.rows| - 1] == SystemRow(cfg, u, now, lookup, FallbackText))
  {
  }

  /**
   * A malformed backend response escapes to the generic handler: the user's
   * row stays logged, no system row follows, and the reply is the
   * temporary-error text.
   */
  lemma MalformedResponseLeavesUserRow(
    cfg: Config, u: string, message: string, now: int, lookup: Lookup,
    backend: seq<ChatMessage> -> BackendReply, faults: Faults, rows: seq<Row>)
    requires var o := Exchange(cfg, u, message, now, lookup, backend, faults, rows);
      o.sent.Some? && backend(o.sent.value) == MalformedResponse
    ensures var o := Exchange(cfg, u, message, now, lookup, backend, faults, rows);
      && o.reply == TemporaryErrorText
      && o.rows == (if faults.logUser then rows else rows + [UserRow(cfg, u, now, lookup, message)])
  {
  }

  /**
   * The user's row is logged before the history is read, so with a clock that
   * does not run backwards the message list ends with the current text twice:
   * as the newest history entry and as the final user turn.
   */
  lemma CurrentTextSentTwice(
    cfg: Config, u: string, message: string, now: int, lookup: Lookup,
    backend: seq<ChatMessage> -> BackendReply, faults: Faults, rows: seq<Row>)
    requires !faults.logUser && !faults.history
    requires forall i :: 0 <= i < |rows| ==> rows[i].timestamp <= now
    requires Exchange(cfg, u, message, now, lookup, backend, faults, rows).sent.Some?
    ensures var m := Exchange(cfg, u, message, now, lookup, backend, faults, rows).sent.value;
      && |m| >= 3
      && m[|m| - 2] == ChatMessage("user", message)
      && m[|m| - 1] == ChatMessage("user", message)
  {
    var r := UserRow(cfg, u, now, lookup, message);
    var logged := Logged(cfg, u, message, now, lookup, faults, rows);
    assert logged == rows + [r];
    NewestRowEndsHistory(rows, r, u);
    var h := History(logged, u);
    var m := Sent(cfg, u, message, faults, logged);
    assert m == Prompt(cfg.sysPrompt, h, message);
    assert m[|m| - 2] == m[1..|m| - 1][|h| - 1];
    assert Exchange(cfg, u, message, now, lookup, backend, faults, rows).sent.value == m;
  }
}
