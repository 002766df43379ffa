/**
The event log (internal/store/eventlog.go): rows numbered by seq (here num, since that name is
reserved), read per chat and visibility from a cursor, and pruned by the retention queries.
 */
module EventLog {

  import opened Wrappers

  datatype Visibility = User | Operator | Audit

  datatype Event = Event(id: string, chat: string, visibility: Visibility, num: int)

  /** What one live connection is bound to. */
  datatype Query = Query(chat: string, stream: string)

  function VisibilitiesForStream(stream: string): set<Visibility> {
    if stream == "operator" then {User, Operator}
    else if stream == "audit" then {User, Operator, Audit}
    else {User}
  }

  predicate Matches(q: Query, e: Event) {
    e.chat == q.chat && e.visibility in VisibilitiesForStream(q.stream)
  }

  /** SELECT COALESCE(MAX(seq), 0). */
  function MaxSeq(log: seq<Event>): int {
    if log == [] then 0
    else
      var m := MaxSeq(log[..|log| - 1]);
      if log[|log| - 1].num > m then log[|log| - 1].num else m
  }

  predicate HasId(log: seq<Event>, id: string) {
    exists i :: 0 <= i < |log| && log[i].id == id
  }

  /** AppendEvent: an id already stored is a success that changes nothing. */
  function Append(log: seq<Event>, id: string, chat: string, visibility: Visibility): seq<Event> {
    if HasId(log, id) then log else log + [Event(id, chat, visibility, MaxSeq(log) + 1)]
  }

  /** The rows of a query after a cursor, ORDER BY seq: rows are stored in seq order. */
  function Select(log: seq<Event>, q: Query, after: int): seq<Event> {
    if log == [] then []
    else
      var e := log[|log| - 1];
      Select(log[..|log| - 1], q, after) + if Matches(q, e) && e.num > after then [e] else []
  }

  const BATCH: nat := 200

  /** SessionEventsSince with limit 200. */
  function Batch(log: seq<Event>, q: Query, after: int): seq<Event> {
    var all := Select(log, q, after);
    if |all| <= BATCH then all else all[..BATCH]
  }

  /** A retention DELETE: every row but those of the given seqs. */
  function Prune(log: seq<Event>, gone: set<int>): seq<Event> {
    if log == [] then []
    else Prune(log[..|log| - 1], gone) + if log[|log| - 1].num in gone then [] else [log[|log| - 1]]
  }

  predicate Ascending(s: seq<Event>) {
    forall i, j :: 0 <= i < j < |s| ==> s[i].num < s[j].num
  }

  // ---------------------------------------------------------------- facts

  /** Who sees what: everyone the user events of the chat, the operator and audit streams its
      operator events too, and only the audit stream its audit events. */
  predicate Shown(stream: string, visibility: Visibility) {
    visibility == User
    || (visibility == Operator && (stream == "operator" || stream == "audit"))
    || (visibility == Audit && stream == "audit")
  }

  lemma MatchesIff(q: Query, e: Event)
    ensures Matches(q, e) <==> e.chat == q.chat && Shown(q.stream, e.visibility)
  {
  }

  lemma {:induction false} MaxSeqBounds(log: seq<Event>)
    ensures forall e :: e in log ==> e.num <= MaxSeq(log)
    ensures MaxSeq(log) >= 0 && (MaxSeq(log) > 0 ==> exists e :: e in log && e.num == MaxSeq(log))
  {
    if log != [] {
      var g, last := log[..|log| - 1], log[|log| - 1];
      MaxSeqBounds(g);
      assert log == g + [last];
    }
  }

  /** A new row is numbered above every stored one. */
  lemma AppendAscends(log: seq<Event>, id: string, chat: string, visibility: Visibility)
    requires Ascending(log)
    ensures Ascending(Append(log, id, chat, visibility))
    ensures HasId(Append(log, id, chat, visibility), id)
    ensures Append(Append(log, id, chat, visibility), id, chat, visibility) == Append(log, id, chat, visibility)
  {
    MaxSeqBounds(log);
    if !HasId(log, id) {
      assert Append(log, id, chat, visibility)[|log|].id == id;
    }
  }

  /** A read returns exactly the rows of the chat that its stream shows, after the cursor. */
  lemma SelectShows(log: seq<Event>, q: Query, after: int)
    requires Ascending(log)
    ensures forall e :: e in Select(log, q, after) <==>
                          e in log && e.chat == q.chat && Shown(q.stream, e.visibility) && e.num > after
  {
    SelectIsExact(log, q, after);
    forall e: Event ensures Matches(q, e) <==> e.chat == q.chat && Shown(q.stream, e.visibility) {
      MatchesIff(q, e);
    }
  }

  /** A batch is the first 200 of them, or all while there are fewer. */
  lemma BatchIsFirst200(log: seq<Event>, q: Query, after: int)
    ensures Batch(log, q, after) <= Select(log, q, after)
    ensures |Batch(log, q, after)| == if |Select(log, q, after)| < 200 then |Select(log, q, after)| else 200
  {
  }

  /** A read returns exactly the matching rows after the cursor, in order, each once. */
  lemma {:induction false} SelectIsExact(log: seq<Event>, q: Query, after: int)
    requires Ascending(log)
    ensures Ascending(Select(log, q, after))
    ensures forall e :: e in Select(log, q, after) <==> e in log && Matches(q, e) && e.num > after
  {
    if log != [] {
      var g, last := log[..|log| - 1], log[|log| - 1];
      SelectIsExact(g, q, after);
      assert log == g + [last];
      assert forall e :: e in g ==> e.num < last.num;
    }
  }

  /** Pruning removes exactly the chosen rows and keeps the order of the others. */
  lemma {:induction false} PruneIsExact(log: seq<Event>, gone: set<int>)
    requires Ascending(log)
    ensures Ascending(Prune(log, gone))
    ensures forall e :: e in Prune(log, gone) <==> e in log && e.num !in gone
  {
    if log != [] {
      var g, last := log[..|log| - 1], log[|log| - 1];
      PruneIsExact(g, gone);
      assert log == g + [last];
      assert forall e :: e in g ==> e.num < last.num;
    }
  }

  lemma EmptyTogether(a: seq<Event>, b: seq<Event>)
    requires forall e :: e in a <==> e in b
    ensures a == [] <==> b == []
  {
    if a != [] { assert a[0] in b; }
    if b != [] { assert b[0] in a; }
  }

  /** Two ascending sequences with the same events are the same sequence. */
  lemma {:induction false} AscendingUnique(a: seq<Event>, b: seq<Event>)
    requires Ascending(a) && Ascending(b) && forall e :: e in a <==> e in b
    ensures a == b
  {
    EmptyTogether(a, b);
    if a != [] {
      assert b[|b| - 1] in a && a[|a| - 1] in b;
      var n, m := |a| - 1, |b| - 1;
      assert a[n] == b[m];
      forall e ensures e in a[..n] <==> e in b[..m] {
        if e in a[..n] { assert e in b && e.num < a[n].num; }
        if e in b[..m] { assert e in a && e.num < b[m].num; }
      }
      AscendingUnique(a[..n], b[..m]);
      assert a == a[..n] + [a[n]] && b == b[..m] + [b[m]];
    }
  }

  /** The next row's seq is new for good exactly when the newest row was left in place: a
      retention run that removes it gives its number out again. */
  lemma PruneKeepsNumberingIff(log: seq<Event>, gone: set<int>)
    requires Ascending(log) && log != [] && log[0].num > 0
    ensures MaxSeq(Prune(log, gone)) == MaxSeq(log) <==> log[|log| - 1].num !in gone
    ensures MaxSeq(Prune(log, gone)) <= MaxSeq(log)
  {
    PruneIsExact(log, gone);
    MaxSeqBounds(log);
    MaxSeqBounds(Prune(log, gone));
    var last := log[|log| - 1];
    assert last in log && MaxSeq(log) == last.num;
    assert last.num !in gone ==> last in Prune(log, gone);
  }
}
