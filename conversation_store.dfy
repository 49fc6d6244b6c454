/**
 * The conversation log (`line_bot_logs`) and the four operations main.py runs
 * against it: appending a row, deactivating a user's rows, reading the recent
 * conversation window, and counting the system replies of the last 24 hours.
 *
 * The table is a sequence of rows in insertion order. `ORDER BY timestamp` is
 * made total by breaking timestamp ties by insertion index (the two rows of one
 * exchange share a timestamp), so the window is well defined even when the
 * clock does not increase.
 */
module ConversationStore {
  import opened Wrappers

  const UserSender := "user"
  const SystemSender := "system"

  /** `LIMIT 10` of the history query. */
  const HistoryLimit: nat := 10

  /** 24 hours in the model's time unit (seconds). */
  const Day: int := 86400

  /** One row of `line_bot_logs`. */
  datatype Row = Row(
    timestamp: int,
    sender: string,
    lineId: string,
    stripeId: Option<string>,
    message: string,
    active: bool,
    sysPrompt: string)

  /** One `{"role": ..., "content": ...}` entry of the message list sent to the backend. */
  datatype ChatMessage = ChatMessage(role: string, content: string)

  /** A row together with its insertion index, the tie-breaker of the time order. */
  datatype Entry = Entry(index: nat, row: Row)

  /** The role a stored row takes in the conversation sent to the backend. */
  function Role(sender: string): string {
    if sender == UserSender then "user" else "assistant"
  }

  function ToChat(r: Row): ChatMessage {
    ChatMessage(Role(r.sender), r.message)
  }

  /** The row belongs to the open session of user `u`. */
  predicate InSession(r: Row, u: string) {
    r.lineId == u && r.active
  }

  /** Strict time order: by timestamp, ties broken by insertion index. */
  predicate Earlier(a: Entry, b: Entry) {
    a.row.timestamp < b.row.timestamp || (a.row.timestamp == b.row.timestamp && a.index < b.index)
  }

  predicate Chronological(s: seq<Entry>) {
    forall p, q :: 0 <= p < q < |s| ==> Earlier(s[p], s[q])
  }

  /** `WHERE lineId = u AND is_active = TRUE`, in insertion order. */
  function Candidates(rows: seq<Row>, u: string): (c: seq<Entry>)
    ensures forall e :: e in c ==> e.index < |rows| && rows[e.index] == e.row && InSession(e.row, u)
    ensures forall i :: 0 <= i < |rows| && InSession(rows[i], u) ==> Entry(i, rows[i]) in c
    ensures forall p, q :: 0 <= p < q < |c| ==> c[p].index < c[q].index
  {
    if rows == [] then []
    else
      var n := |rows| - 1;
      var init := Candidates(rows[..n], u);
      if InSession(rows[n], u) then init + [Entry(n, rows[n])] else init
  }

  /** Inserts `e` into a time-ordered sequence before the first later entry. */
  function Insert(e: Entry, s: seq<Entry>): seq<Entry> {
    if s == [] then [e]
    else if Earlier(e, s[0]) then [e] + s
    else [s[0]] + Insert(e, s[1..])
  }

  /** Sorts entries into time order (insertion sort). */
  function SortChrono(c: seq<Entry>): seq<Entry> {
    if c == [] then [] else Insert(c[|c| - 1], SortChrono(c[..|c| - 1]))
  }

  lemma {:induction false} InsertPermutes(e: Entry, s: seq<Entry>)
    ensures multiset(Insert(e, s)) == multiset(s) + multiset{e}
  {
    if s != [] && !Earlier(e, s[0]) {
      InsertPermutes(e, s[1..]);
      assert s == [s[0]] + s[1..];
    }
  }

  lemma {:induction false} InsertChronological(e: Entry, s: seq<Entry>)
    requires Chronological(s)
    requires forall x :: x in s ==> x.index != e.index
    ensures Chronological(Insert(e, s))
  {
    if s != [] && !Earlier(e, s[0]) {
      var t := s[1..];
      InsertChronological(e, t);
      InsertPermutes(e, t);
      var r := Insert(e, t);
      forall x | x in r ensures Earlier(s[0], x) {
        assert x in multiset(r);
        if x != e {
          assert x in t;
          var q :| 0 <= q < |t| && t[q] == x;
          assert s[q + 1] == x;
        }
      }
      assert Insert(e, s) == [s[0]] + r;
    }
  }

  /** Sorting entries with distinct indices yields a strictly time-ordered permutation. */
  lemma {:induction false} SortChronoCorrect(c: seq<Entry>)
    requires forall p, q :: 0 <= p < q < |c| ==> c[p].index != c[q].index
    ensures Chronological(SortChrono(c))
    ensures multiset(SortChrono(c)) == multiset(c)
  {
    if c != [] {
      var n := |c| - 1;
      var init, last := c[..n], c[n];
      var s := SortChrono(init);
      assert SortChrono(c) == Insert(last, s);
      SortChronoCorrect(init);
      assert forall x :: x in s ==> x.index != last.index by {
        forall x | x in s ensures x.index != last.index {
          assert x in multiset(init);
          var p :| 0 <= p < n && init[p] == x;
          assert c[p] == x;
        }
      }
      InsertChronological(last, s);
      InsertPermutes(last, s);
      assert multiset(c) == multiset(init) + multiset{last} by {
        assert c == init + [last];
      }
    }
  }

  /**
   * `ORDER BY timestamp DESC LIMIT 10`, reversed to oldest first: the latest
   * ten entries of the user's open session, in time order.
   */
  function Window(rows: seq<Row>, u: string): (w: seq<Entry>)
  {
    var s := SortChrono(Candidates(rows, u));
    s[|s| - (if |s| < HistoryLimit then |s| else HistoryLimit)..]
  }

  /** The conversation history handed to the backend: the window as chat messages. */
  function History(rows: seq<Row>, u: string): (h: seq<ChatMessage>)
  {
    var w := Window(rows, u);
    seq(|w|, k requires 0 <= k < |w| => ToChat(w[k].row))
  }

  /** The rows the history query returns, newest first. */
  function QueryNewestFirst(rows: seq<Row>, u: string): seq<Row> {
    var w := Window(rows, u);
    seq(|w|, k requires 0 <= k < |w| => w[|w| - 1 - k].row)
  }

  /** Reading the newest-first rows as chat messages and reversing them gives the history. */
  lemma ReversedQueryIsHistory(rows: seq<Row>, u: string, conv: seq<ChatMessage>)
    requires |conv| == |QueryNewestFirst(rows, u)|
    requires forall k :: 0 <= k < |conv| ==> conv[k] == ToChat(QueryNewestFirst(rows, u)[k])
    ensures seq(|conv|, k requires 0 <= k < |conv| => conv[|conv| - 1 - k]) == History(rows, u)
  {
    var w := Window(rows, u);
    var r := seq(|conv|, k requires 0 <= k < |conv| => conv[|conv| - 1 - k]);
    forall k | 0 <= k < |w| ensures r[k] == History(rows, u)[k] {
      assert QueryNewestFirst(rows, u)[|w| - 1 - k] == w[k].row;
    }
  }

  /**
   * The window holds min(10, session size) entries, each one an active row of
   * the user, strictly oldest first; every session row left out is older than
   * every row kept.
   */
  lemma WindowSpec(rows: seq<Row>, u: string)
    ensures var w := Window(rows, u);
      var n := |Candidates(rows, u)|;
      && |w| == (if n < HistoryLimit then n else HistoryLimit)
      && Chronological(w)
      && (forall e :: e in w ==> e.index < |rows| && rows[e.index] == e.row && InSession(e.row, u))
      && (forall i :: 0 <= i < |rows| && InSession(rows[i], u) && Entry(i, rows[i]) !in w ==>
            forall e :: e in w ==> Earlier(Entry(i, rows[i]), e))
  {
    var c := Candidates(rows, u);
    var s := SortChrono(c);
    SortedSession(rows, u);
    var m := |s| - (if |s| < HistoryLimit then |s| else HistoryLimit);
    SuffixOfSorted(c, s, m);
    assert Window(rows, u) == s[m..];
  }

  /**
   * A suffix of a time-ordered permutation of c is time-ordered, draws its
   * entries from c, and every entry of c outside it is earlier than all of it.
   */
  lemma SuffixOfSorted(c: seq<Entry>, s: seq<Entry>, m: nat)
    requires Chronological(s) && multiset(s) == multiset(c) && m <= |s|
    ensures Chronological(s[m..])
    ensures forall e :: e in s[m..] ==> e in c
    ensures forall x :: x in c && x !in s[m..] ==> forall e :: e in s[m..] ==> Earlier(x, e)
  {
    forall e | e in s[m..] ensures e in c {
      assert e in multiset(s);
    }
    forall x | x in c && x !in s[m..] ensures forall e :: e in s[m..] ==> Earlier(x, e) {
      assert x in multiset(c);
      SuffixLater(s, m, x);
    }
  }

  /** The session's entries, sorted: a time-ordered permutation of the session. */
  lemma SortedSession(rows: seq<Row>, u: string)
    ensures var c := Candidates(rows, u);
      && Chronological(SortChrono(c))
      && multiset(SortChrono(c)) == multiset(c)
      && |SortChrono(c)| == |c|
  {
    var c := Candidates(rows, u);
    SortChronoCorrect(c);
    assert |multiset(SortChrono(c))| == |multiset(c)|;
  }

  /** In a time-ordered sequence, an entry outside the suffix from m is earlier than every entry in it. */
  lemma SuffixLater(s: seq<Entry>, m: nat, x: Entry)
    requires Chronological(s) && m <= |s|
    requires x in s && x !in s[m..]
    ensures forall e :: e in s[m..] ==> Earlier(x, e)
  {
    var p :| 0 <= p < |s| && s[p] == x;
    forall e | e in s[m..] ensures Earlier(x, e) {
      var q :| 0 <= q < |s| - m && s[m..][q] == e;
      assert s[m + q] == e;
    }
  }

  /**
   * The history has at most ten entries, oldest first; entry k carries the text
   * of the k-th window row and the role "user" exactly when that row's sender
   * is 'user', "assistant" otherwise.
   */
  lemma HistorySpec(rows: seq<Row>, u: string)
    ensures var h := History(rows, u);
      var w := Window(rows, u);
      && |h| == |w| <= HistoryLimit
      && (forall k :: 0 <= k < |h| ==>
            && w[k].index < |rows|
            && InSession(rows[w[k].index], u)
            && h[k].content == rows[w[k].index].message
            && (h[k].role == "user" <==> rows[w[k].index].sender == UserSender)
            && (h[k].role == "assistant" <==> rows[w[k].index].sender != UserSender))
      && (forall k, l :: 0 <= k < l < |h| ==> Earlier(w[k], w[l]))
  {
    WindowSpec(rows, u);
    var w := Window(rows, u);
    forall k | 0 <= k < |w| ensures w[k].index < |rows| && rows[w[k].index] == w[k].row && InSession(w[k].row, u) {
      assert w[k] in w;
    }
  }

  /** A row appended for another user leaves this user's history as it was. */
  lemma HistoryIgnoresOtherUsers(rows: seq<Row>, r: Row, u: string)
    requires r.lineId != u
    ensures History(rows + [r], u) == History(rows, u)
  {
    assert (rows + [r])[..|rows|] == rows;
  }

  /**
   * A row appended to the user's session that is not older than any stored row
   * becomes the last entry of the user's history.
   */
  lemma NewestRowEndsHistory(rows: seq<Row>, r: Row, u: string)
    requires InSession(r, u)
    requires forall i :: 0 <= i < |rows| ==> rows[i].timestamp <= r.timestamp
    ensures var h := History(rows + [r], u);
      |h| > 0 && h[|h| - 1] == ToChat(r)
  {
    NewestRowEndsWindow(rows, r, u);
  }

  lemma NewestRowEndsWindow(rows: seq<Row>, r: Row, u: string)
    requires InSession(r, u)
    requires forall i :: 0 <= i < |rows| ==> rows[i].timestamp <= r.timestamp
    ensures var w := Window(rows + [r], u);
      |w| > 0 && w[|w| - 1] == Entry(|rows|, r)
  {
    var all := rows + [r];
    var n := |rows|;
    var x := Entry(n, r);
    var w := Window(all, u);
    assert x in Candidates(all, u) by {
      assert all[n] == r;
    }
    WindowSpec(all, u);
    assert forall e :: e in w && e != x ==> Earlier(e, x) by {
      forall e | e in w && e != x ensures Earlier(e, x) {
        assert e.index < n;
        assert all[e.index] == rows[e.index];
      }
    }
    assert |w| > 0;
    LatestLast(w, x);
  }

  lemma LastIsMember(w: seq<Entry>)
    requires |w| > 0
    ensures w[|w| - 1] in w
  {
  }

  /** An entry later than all others of a time-ordered sequence, and not left out of it, is its last. */
  lemma LatestLast(w: seq<Entry>, x: Entry)
    requires Chronological(w) && |w| > 0
    requires forall e :: e in w && e != x ==> Earlier(e, x)
    requires x !in w ==> forall e :: e in w ==> Earlier(x, e)
    ensures w[|w| - 1] == x
  {
    if x !in w {
      LastIsMember(w);
      assert false;
    }
    var p :| 0 <= p < |w| && w[p] == x;
    if p < |w| - 1 {
      LastIsMember(w);
      assert false;
    }
  }

  /** `UPDATE ... SET is_active = FALSE WHERE lineId = u`. */
  function Deactivated(rows: seq<Row>, u: string): (r: seq<Row>)
    ensures |r| == |rows|
    ensures forall i :: 0 <= i < |rows| ==>
      r[i] == if rows[i].lineId == u then rows[i].(active := false) else rows[i]
  {
    if rows == [] then []
    else
      var n := |rows| - 1;
      Deactivated(rows[..n], u) + [if rows[n].lineId == u then rows[n].(active := false) else rows[n]]
  }

  /** After a reset the user's session is empty, so the history is too. */
  lemma DeactivateClearsHistory(rows: seq<Row>, u: string)
    ensures Window(Deactivated(rows, u), u) == []
    ensures History(Deactivated(rows, u), u) == []
  {
    var c := Candidates(Deactivated(rows, u), u);
    if c != [] {
      assert false;
    }
  }

  /** A reset of one user leaves every other user's session and history unchanged. */
  lemma DeactivateKeepsOtherSessions(rows: seq<Row>, u: string, v: string)
    requires u != v
    ensures Candidates(Deactivated(rows, u), v) == Candidates(rows, v)
    ensures History(Deactivated(rows, u), v) == History(rows, v)
  {
    OtherSessionUnchanged(rows, u, v);
  }

  lemma {:induction false} OtherSessionUnchanged(rows: seq<Row>, u: string, v: string)
    requires u != v
    ensures Candidates(Deactivated(rows, u), v) == Candidates(rows, v)
  {
    if rows != [] {
      var n := |rows| - 1;
      var d := Deactivated(rows, u);
      OtherSessionUnchanged(rows[..n], u, v);
      assert d[..n] == Deactivated(rows[..n], u);
      assert InSession(d[n], v) == InSession(rows[n], v);
      assert Candidates(d, v) ==
        if InSession(d[n], v) then Candidates(d[..n], v) + [Entry(n, d[n])] else Candidates(d[..n], v);
    }
  }

  /** Resetting twice is resetting once. */
  lemma DeactivateIdempotent(rows: seq<Row>, u: string)
    ensures Deactivated(Deactivated(rows, u), u) == Deactivated(rows, u)
  {
  }

  /** `sender = 'system' AND lineId = u AND timestamp > since`. */
  predicate RecentSystem(r: Row, u: string, since: int) {
    r.sender == SystemSender && r.lineId == u && r.timestamp > since
  }

  /** `SELECT COUNT(*)` of the rows satisfying RecentSystem. */
  function CountRecentSystem(rows: seq<Row>, u: string, since: int): (n: nat)
    ensures n <= |rows|
  {
    if rows == [] then 0
    else
      var last := |rows| - 1;
      CountRecentSystem(rows[..last], u, since) + (if RecentSystem(rows[last], u, since) then 1 else 0)
  }

  /** The count is the number of row positions that satisfy the query's condition. */
  lemma {:induction false} CountIsNumberOfMatchingRows(rows: seq<Row>, u: string, since: int)
    ensures CountRecentSystem(rows, u, since) == |set i | 0 <= i < |rows| && RecentSystem(rows[i], u, since)|
  {
    if rows != [] {
      var n := |rows| - 1;
      var init := rows[..n];
      CountIsNumberOfMatchingRows(init, u, since);
      var before := set i | 0 <= i < |init| && RecentSystem(init[i], u, since);
      var after := set i | 0 <= i < |rows| && RecentSystem(rows[i], u, since);
      if RecentSystem(rows[n], u, since) {
        assert after == before + {n};
      } else {
        assert after == before;
      }
    }
  }

  /** Appending a row adds one to the count exactly when the row is a recent system reply. */
  lemma CountAppend(rows: seq<Row>, r: Row, u: string, since: int)
    ensures CountRecentSystem(rows + [r], u, since) ==
      CountRecentSystem(rows, u, since) + (if RecentSystem(r, u, since) then 1 else 0)
  {
    assert (rows + [r])[..|rows|] == rows;
  }

  /** A reset does not change the 24-hour count: the query ignores `is_active`. */
  lemma {:induction false} CountIgnoresDeactivation(rows: seq<Row>, v: string, u: string, since: int)
    ensures CountRecentSystem(Deactivated(rows, v), u, since) == CountRecentSystem(rows, u, since)
  {
    if rows != [] {
      var n := |rows| - 1;
      CountIgnoresDeactivation(rows[..n], v, u, since);
      assert Deactivated(rows, v)[..n] == Deactivated(rows[..n], v);
    }
  }

  /**
   * Moving the window start later never raises the count, and lowers it when a
   * counted reply falls at or before the new start (the boundary is excluded).
   */
  lemma {:induction false} CountExpires(rows: seq<Row>, u: string, since1: int, since2: int, i: nat)
    requires since1 <= since2
    requires i < |rows| && RecentSystem(rows[i], u, since1)
    ensures CountRecentSystem(rows, u, since2) <= CountRecentSystem(rows, u, since1)
    ensures rows[i].timestamp <= since2 ==>
      CountRecentSystem(rows, u, since2) < CountRecentSystem(rows, u, since1)
  {
    var n := |rows| - 1;
    if i < n {
      assert rows[..n][i] == rows[i];
      CountExpires(rows[..n], u, since1, since2, i);
    } else {
      CountAntitone(rows[..n], u, since1, since2);
    }
  }

  lemma {:induction false} CountAntitone(rows: seq<Row>, u: string, since1: int, since2: int)
    requires since1 <= since2
    ensures CountRecentSystem(rows, u, since2) <= CountRecentSystem(rows, u, since1)
  {
    if rows != [] {
      CountAntitone(rows[..|rows| - 1], u, since1, since2);
    }
  }

  /** The conversation log table, held in memory. */
  class LogStore {
    var rows: seq<Row>

    constructor (initial: seq<Row>)
      ensures rows == initial
    {
      rows := initial;
    }

    /** `log_to_database`: one INSERT; on a store fault the insert is rolled back. */
    method LogToDatabase(
      timestamp: int, sender: string, lineId: string, stripeId: Option<string>,
      message: string, isActive: bool, sysPrompt: string, fault: bool)
      modifies this
      ensures rows == if fault then old(rows)
                      else old(rows) + [Row(timestamp, sender, lineId, stripeId, message, isActive, sysPrompt)]
    {
      if !fault {
        rows := rows + [Row(timestamp, sender, lineId, stripeId, message, isActive, sysPrompt)];
      }
    }

    /** `deactivate_conversation_history`: one bulk UPDATE; a fault leaves the table as it was. */
    method DeactivateConversationHistory(lineId: string, fault: bool)
      modifies this
      ensures rows == if fault then old(rows) else Deactivated(old(rows), lineId)
    {
      if !fault {
        rows := Deactivated(rows, lineId);
      }
    }

    /**
     * `get_conversation_history`: the query result (newest first) is turned into
     * chat messages one by one and the list is reversed; a fault yields no history.
     */
    method GetConversationHistory(lineId: string, fault: bool) returns (history: seq<ChatMessage>)
      ensures history == if fault then [] else History(rows, lineId)
    {
      var conversations: seq<ChatMessage> := [];
      var results: seq<Row> := [];
      if !fault {
        results := QueryNewestFirst(rows, lineId);
        var i := 0;
        while i < |results|
          invariant 0 <= i <= |results|
          invariant |conversations| == i
          invariant forall k :: 0 <= k < i ==> conversations[k] == ToChat(results[k])
        {
          var role := if results[i].sender == UserSender then "user" else "assistant";
          conversations := conversations + [ChatMessage(role, results[i].message)];
          i := i + 1;
        }
      }
      history := seq(|conversations|, k requires 0 <= k < |conversations| => conversations[|conversations| - 1 - k]);
      if !fault {
        ReversedQueryIsHistory(rows, lineId, conversations);
      }
    }

    /** `get_system_responses_in_last_24_hours`: a fault counts as zero (fail open). */
    method GetSystemResponsesInLast24Hours(lineId: string, now: int, fault: bool) returns (count: nat)
      ensures count == if fault then 0 else CountRecentSystem(rows, lineId, now - Day)
    {
      count := if fault then 0 else CountRecentSystem(rows, lineId, now - Day);
    }
  }
}
