/**
 The transactional outbox: gateways insert an event together with its outbox record, any number
 of relays claim pending records, publish them to the raw-events log and commit.  Appends to the
 log survive a rollback; row changes do not.
 */
module Outbox {
  const BATCH_SIZE: nat := 10
  const MAX_ATTEMPTS: nat := 10

  type EventId = nat
  type RelayId = nat

  datatype Status = Pending | Completed | Failed

  datatype Record = Record(eventId: EventId, status: Status, attempts: nat)

  datatype EventStatus = Received | Queued

  /** What sending one message came to: an error may or may not have left a copy in the log. */
  datatype Publish = Acked | ErrorAppended | ErrorLost

  /**
   A relay's open transaction: the locked rows, those still to be handled in order, the uncommitted
   new values of the others, the rows whose copy reached the log, and those among them whose send
   raised.  Rows are named by their position in creation order.
   */
  datatype Txn = Txn(locked: set<nat>, todo: seq<nat>, dirty: map<nat, Record>, appended: set<nat>, unacked: set<nat>)

  /**
   Committed rows, the log, the open transactions, and two accounts of past appends by row: those
   made inside rolled-back transactions, and committed ones whose acknowledgement was an error.
   */
  datatype State = State(
    records: seq<Record>, events: map<EventId, EventStatus>, log: seq<EventId>,
    open: map<RelayId, Txn>, rolledBack: multiset<nat>, ackLost: multiset<nat>)

  const EMPTY := State([], map[], [], map[], multiset{}, multiset{})

  datatype Step =
    | Accept(event: EventId)
    | Claim(relay: RelayId, batch: seq<nat>)
    | Send(relay: RelayId, result: Publish)
    | Commit(relay: RelayId)
    | Crash(relay: RelayId)

  ghost predicate Unlocked(open: map<RelayId, Txn>, i: nat) {
    forall r :: r in open ==> i !in open[r].locked
  }

  /** FOR UPDATE SKIP LOCKED over pending rows; which of them come first is left open here. */
  ghost predicate Claimable(s: State, batch: seq<nat>) {
    && 0 < |batch| <= BATCH_SIZE
    && (forall k :: 0 <= k < |batch| ==>
          batch[k] < |s.records| && s.records[batch[k]].status == Pending && Unlocked(s.open, batch[k]))
    && (forall j, k :: 0 <= j < k < |batch| ==> batch[j] != batch[k])
  }

  /** A commit may come before the whole batch is handled: the stop signal breaks the loop. */
  ghost predicate Enabled(s: State, step: Step) {
    match step
    case Accept(e) => e !in s.events
    case Claim(r, batch) => r !in s.open && Claimable(s, batch)
    case Send(r, _) => CanSend(s, r)
    case Commit(r) => r in s.open
    case Crash(r) => r in s.open
  }

  predicate CanSend(s: State, r: RelayId) {
    r in s.open && s.open[r].todo != [] && s.open[r].todo[0] < |s.records|
  }

  /** The gateway's transaction: one event and one outbox record. */
  function Accepted(s: State, e: EventId): State {
    s.(records := s.records + [Record(e, Pending, 0)], events := s.events[e := Received])
  }

  function Claimed(s: State, r: RelayId, batch: seq<nat>): State {
    s.(open := s.open[r := Txn((set i | i in batch), batch, map[], {}, {})])
  }

  /** The relay's treatment of one record, by the outcome of its send. */
  function Settle(rec: Record, result: Publish): Record {
    if result == Acked then rec.(status := Completed)
    else rec.(attempts := rec.attempts + 1, status := if rec.attempts + 1 >= MAX_ATTEMPTS then Failed else rec.status)
  }

  function SentTxn(t: Txn, rec: Record, result: Publish): Txn
    requires t.todo != []
  {
    var i := t.todo[0];
    Txn(t.locked, t.todo[1..], t.dirty[i := Settle(rec, result)],
        if result == ErrorLost then t.appended else t.appended + {i},
        if result == ErrorAppended then t.unacked + {i} else t.unacked)
  }

  function Sent(s: State, r: RelayId, result: Publish): State
    requires CanSend(s, r)
  {
    var rec := s.records[s.open[r].todo[0]];
    s.(open := s.open[r := SentTxn(s.open[r], rec, result)],
       log := if result == ErrorLost then s.log else s.log + [rec.eventId])
  }

  function WriteBack(records: seq<Record>, dirty: map<nat, Record>): (r: seq<Record>)
    ensures |r| == |records|
    ensures forall i :: 0 <= i < |r| ==> r[i] == if i in dirty then dirty[i] else records[i]
  {
    seq(|records|, i requires 0 <= i < |records| => if i in dirty then dirty[i] else records[i])
  }

  /** The events whose record the transaction completed. */
  function CompletedIn(dirty: map<nat, Record>): set<EventId> {
    set i | i in dirty && dirty[i].status == Completed :: dirty[i].eventId
  }

  function Requeue(events: map<EventId, EventStatus>, done: set<EventId>): map<EventId, EventStatus> {
    map e | e in events :: if e in done then Queued else events[e]
  }

  function Committed(s: State, r: RelayId): State
    requires r in s.open
  {
    var t := s.open[r];
    s.(records := WriteBack(s.records, t.dirty), events := Requeue(s.events, CompletedIn(t.dirty)),
       open := s.open - {r}, ackLost := s.ackLost + multiset(t.unacked))
  }

  function Crashed(s: State, r: RelayId): State
    requires r in s.open
  {
    s.(open := s.open - {r}, rolledBack := s.rolledBack + multiset(s.open[r].appended))
  }

  ghost function Apply(s: State, step: Step): State
    requires Enabled(s, step)
  {
    match step
    case Accept(e) => Accepted(s, e)
    case Claim(r, batch) => Claimed(s, r, batch)
    case Send(r, result) => Sent(s, r, result)
    case Commit(r) => Committed(s, r)
    case Crash(r) => Crashed(s, r)
  }

  // ---------------------------------------------------------------- runs

  ghost predicate Possible(s: State, steps: seq<Step>)
    decreases |steps|
  {
    steps == [] || (Enabled(s, steps[0]) && Possible(Apply(s, steps[0]), steps[1..]))
  }

  ghost function After(s: State, steps: seq<Step>): State
    requires Possible(s, steps)
    decreases |steps|
  {
    if steps == [] then s else After(Apply(s, steps[0]), steps[1..])
  }

  // ---------------------------------------------------------------- the invariant

  ghost predicate RecordOk(s: State, i: nat)
    requires i < |s.records|
  {
    var rec := s.records[i];
    && rec.eventId in s.events
    && (s.events[rec.eventId] == Queued <==> rec.status == Completed)
    && rec.attempts <= MAX_ATTEMPTS
    && (rec.status == Failed <==> rec.attempts == MAX_ATTEMPTS)
    && s.ackLost[i] <= rec.attempts
  }

  ghost predicate OneEach(s: State) {
    && (forall i, j :: 0 <= i < j < |s.records| ==> s.records[i].eventId != s.records[j].eventId)
    && (forall e :: e in s.events ==> exists i :: 0 <= i < |s.records| && s.records[i].eventId == e)
    && (forall e :: e in s.log ==> e in s.events)
    && (forall i :: i in s.rolledBack || i in s.ackLost ==> i < |s.records|)
  }

  /** An uncommitted row, against the committed one it will replace. */
  ghost predicate DirtyOk(t: Txn, i: nat, was: Record) {
    i in t.dirty &&
    (|| (t.dirty[i] == was.(status := Completed) && i in t.appended && i !in t.unacked)
     || (&& t.dirty[i] == was.(attempts := was.attempts + 1,
                               status := if was.attempts + 1 >= MAX_ATTEMPTS then Failed else Pending)
         && (i in t.appended <==> i in t.unacked)))
  }

  ghost predicate TxnOk(s: State, t: Txn) {
    && (forall i :: i in t.locked ==> i < |s.records| && s.records[i].status == Pending)
    && (forall k :: 0 <= k < |t.todo| ==> t.todo[k] in t.locked && t.todo[k] !in t.dirty)
    && (forall j, k :: 0 <= j < k < |t.todo| ==> t.todo[j] != t.todo[k])
    && t.dirty.Keys <= t.locked
    && (forall i :: i in t.dirty ==> i < |s.records| && DirtyOk(t, i, s.records[i]))
    && t.unacked <= t.appended <= t.dirty.Keys
  }

  ghost predicate Disjoint(s: State) {
    forall p, q :: p in s.open && q in s.open && p != q ==> s.open[p].locked !! s.open[q].locked
  }

  ghost predicate InOpen(s: State, i: nat) {
    exists r :: r in s.open && i in s.open[r].appended
  }

  /** Copies of record `i`'s event, by where they came from. */
  ghost function Accounted(s: State, i: nat): nat
    requires i < |s.records|
  {
    s.rolledBack[i] + s.ackLost[i] + (if InOpen(s, i) then 1 else 0)
      + (if s.records[i].status == Completed then 1 else 0)
  }

  ghost predicate Conserved(s: State) {
    forall i :: 0 <= i < |s.records| ==> multiset(s.log)[s.records[i].eventId] == Accounted(s, i)
  }

  ghost predicate RowsOk(s: State) {
    forall i :: 0 <= i < |s.records| ==> RecordOk(s, i)
  }

  ghost predicate TxnsOk(s: State) {
    forall r :: r in s.open ==> TxnOk(s, s.open[r])
  }

  ghost predicate Inv(s: State) {
    OneEach(s) && RowsOk(s) && TxnsOk(s) && Disjoint(s) && Conserved(s)
  }

  // ---------------------------------------------------------------- every step keeps it

  lemma AcceptOneEach(s: State, e: EventId)
    requires Inv(s) && e !in s.events
    ensures OneEach(Accepted(s, e))
  {
    var s' := Accepted(s, e);
    var n := |s.records|;
    assert s'.records[n] == Record(e, Pending, 0);
    forall x | x in s'.events
      ensures exists i :: 0 <= i < |s'.records| && s'.records[i].eventId == x
    {
      if x != e {
        var i :| 0 <= i < n && s.records[i].eventId == x;
        assert s'.records[i].eventId == x;
      }
    }
    forall i | 0 <= i < n
      ensures s.records[i].eventId != e
    {
      assert RecordOk(s, i);
    }
  }

  lemma AcceptedRow(s: State, e: EventId, i: nat)
    requires Inv(s) && e !in s.events && i <= |s.records|
    ensures RecordOk(Accepted(s, e), i)
    ensures multiset(s.log)[Accepted(s, e).records[i].eventId] == Accounted(Accepted(s, e), i)
  {
    if i < |s.records| {
      assert RecordOk(s, i);
      assert InOpen(s, i) <==> InOpen(Accepted(s, e), i);
    } else {
      assert e !in s.log;
      forall r | r in s.open
        ensures i !in s.open[r].appended
      {
        assert TxnOk(s, s.open[r]);
      }
    }
  }

  lemma AcceptKeeps(s: State, e: EventId)
    requires Inv(s) && e !in s.events
    ensures Inv(Accepted(s, e))
  {
    var s' := Accepted(s, e);
    AcceptOneEach(s, e);
    forall i | 0 <= i < |s'.records|
      ensures RecordOk(s', i) && multiset(s'.log)[s'.records[i].eventId] == Accounted(s', i)
    {
      AcceptedRow(s, e, i);
    }
    forall r | r in s'.open
      ensures TxnOk(s', s'.open[r])
    {
      assert TxnOk(s, s.open[r]);
      assert forall i :: 0 <= i < |s.records| ==> s'.records[i] == s.records[i];
    }
  }

  lemma ClaimTxns(s: State, r: RelayId, batch: seq<nat>)
    requires Inv(s) && r !in s.open && Claimable(s, batch)
    ensures TxnsOk(Claimed(s, r, batch))
  {
    var s' := Claimed(s, r, batch);
    forall q | q in s'.open
      ensures TxnOk(s', s'.open[q])
    {
      if q != r { assert TxnOk(s, s.open[q]); }
    }
  }

  lemma ClaimDisjoint(s: State, r: RelayId, batch: seq<nat>)
    requires Inv(s) && r !in s.open && Claimable(s, batch)
    ensures Disjoint(Claimed(s, r, batch))
  {
    var s' := Claimed(s, r, batch);
    forall q | q in s.open
      ensures s.open[q].locked !! s'.open[r].locked
    {
      forall i | i in s'.open[r].locked
        ensures i !in s.open[q].locked
      {
        var k :| 0 <= k < |batch| && batch[k] == i;
        assert Unlocked(s.open, batch[k]);
      }
    }
  }

  lemma ClaimKeeps(s: State, r: RelayId, batch: seq<nat>)
    requires Inv(s) && r !in s.open && Claimable(s, batch)
    ensures Inv(Claimed(s, r, batch))
  {
    var s' := Claimed(s, r, batch);
    ClaimTxns(s, r, batch);
    ClaimDisjoint(s, r, batch);
    forall i | 0 <= i < |s'.records|
      ensures RecordOk(s', i) && Accounted(s', i) == Accounted(s, i)
    {
      assert RecordOk(s, i);
      assert InOpen(s', i) <==> InOpen(s, i) by {
        if InOpen(s, i) {
          var q :| q in s.open && i in s.open[q].appended;
          assert q in s'.open && i in s'.open[q].appended;
        }
      }
    }
  }

  lemma SentTxnOk(s: State, r: RelayId, result: Publish)
    requires Inv(s) && CanSend(s, r)
    ensures TxnOk(Sent(s, r, result), Sent(s, r, result).open[r])
  {
    var t := s.open[r];
    var i := t.todo[0];
    var u := SentTxn(t, s.records[i], result);
    assert TxnOk(s, t) && RecordOk(s, i);
    forall x | x in u.dirty
      ensures x < |s.records| && DirtyOk(u, x, s.records[x])
    {
      if x != i { assert DirtyOk(t, x, s.records[x]); }
    }
  }

  /** Among open transactions only the owner of a row's lock can have appended its event. */
  lemma OnlyOwner(s: State, r: RelayId, i: nat)
    requires Inv(s) && r in s.open && i in s.open[r].locked
    ensures InOpen(s, i) <==> i in s.open[r].appended
  {
    assert TxnOk(s, s.open[r]);
    forall q | q in s.open && i in s.open[q].appended
      ensures q == r
    {
      assert TxnOk(s, s.open[q]);
    }
  }

  lemma SendAccountsSent(s: State, r: RelayId, result: Publish)
    requires Inv(s) && CanSend(s, r)
    ensures var i := s.open[r].todo[0];
            multiset(Sent(s, r, result).log)[s.records[i].eventId] == Accounted(Sent(s, r, result), i)
  {
    var s' := Sent(s, r, result);
    var i := s.open[r].todo[0];
    assert TxnOk(s, s.open[r]);
    OnlyOwner(s, r, i);
    assert i in s'.open[r].appended <==> result != ErrorLost;
    if result == ErrorLost {
      forall q | q in s'.open
        ensures i !in s'.open[q].appended
      {
        assert q != r ==> s'.open[q] == s.open[q];
      }
    }
  }

  lemma SendAccountsOther(s: State, r: RelayId, result: Publish, j: nat)
    requires OneEach(s) && Conserved(s) && CanSend(s, r) && j < |s.records| && j != s.open[r].todo[0]
    ensures multiset(Sent(s, r, result).log)[s.records[j].eventId] == Accounted(Sent(s, r, result), j)
  {
    var s' := Sent(s, r, result);
    assert s.records[s.open[r].todo[0]].eventId != s.records[j].eventId;
    assert InOpen(s', j) <==> InOpen(s, j) by {
      assert j in s'.open[r].appended <==> j in s.open[r].appended;
      if InOpen(s, j) {
        var q :| q in s.open && j in s.open[q].appended;
        assert q in s'.open && j in s'.open[q].appended;
      }
    }
  }

  lemma SendAccounts(s: State, r: RelayId, result: Publish, j: nat)
    requires Inv(s) && CanSend(s, r) && j < |s.records|
    ensures multiset(Sent(s, r, result).log)[s.records[j].eventId] == Accounted(Sent(s, r, result), j)
  {
    if j == s.open[r].todo[0] {
      SendAccountsSent(s, r, result);
    } else {
      SendAccountsOther(s, r, result, j);
    }
  }

  lemma SendTxns(s: State, r: RelayId, result: Publish)
    requires Inv(s) && CanSend(s, r)
    ensures TxnsOk(Sent(s, r, result)) && Disjoint(Sent(s, r, result))
  {
    var s' := Sent(s, r, result);
    SentTxnOk(s, r, result);
    forall q | q in s'.open
      ensures TxnOk(s', s'.open[q]) && s'.open[q].locked == s.open[q].locked
    {
      if q != r { assert TxnOk(s, s.open[q]); }
    }
  }

  lemma SendKeeps(s: State, r: RelayId, result: Publish)
    requires Inv(s) && CanSend(s, r)
    ensures Inv(Sent(s, r, result))
  {
    var s' := Sent(s, r, result);
    SendTxns(s, r, result);
    forall i | 0 <= i < |s'.records|
      ensures RecordOk(s', i) && multiset(s'.log)[s'.records[i].eventId] == Accounted(s', i)
    {
      assert RecordOk(s, i);
      SendAccounts(s, r, result, i);
    }
    assert RecordOk(s, s.open[r].todo[0]);
  }

  lemma DroppedOpen(s: State, r: RelayId, s': State, i: nat)
    requires Inv(s) && r in s.open && s'.open == s.open - {r}
    ensures (if InOpen(s, i) then 1 else 0) == (if InOpen(s', i) then 1 else 0) + multiset(s.open[r].appended)[i]
  {
    var t := s.open[r];
    assert TxnOk(s, t);
    if i in t.appended {
      OnlyOwner(s, r, i);
      forall q | q in s'.open
        ensures i !in s'.open[q].appended
      {
        assert TxnOk(s, s.open[q]);
      }
    } else if InOpen(s, i) {
      var q :| q in s.open && i in s.open[q].appended;
      assert q in s'.open;
    }
  }

  lemma CrashKeeps(s: State, r: RelayId)
    requires Inv(s) && r in s.open
    ensures Inv(Crashed(s, r))
  {
    var s' := Crashed(s, r);
    assert TxnOk(s, s.open[r]);
    forall i | 0 <= i < |s'.records|
      ensures RecordOk(s', i) && Accounted(s', i) == Accounted(s, i)
    {
      assert RecordOk(s, i);
      DroppedOpen(s, r, s', i);
    }
    forall q | q in s'.open
      ensures TxnOk(s', s'.open[q])
    {
      assert TxnOk(s, s.open[q]);
    }
  }

  /** Two rows are different rows of one event only if they are the same row. */
  lemma SameEventSameRow(s: State, i: nat, j: nat)
    requires OneEach(s) && i < |s.records| && j < |s.records| && s.records[i].eventId == s.records[j].eventId
    ensures i == j
  {
  }

  lemma DirtyKeepsEvent(s: State, t: Txn, i: nat)
    requires TxnOk(s, t) && i in t.dirty
    ensures i < |s.records| && t.dirty[i].eventId == s.records[i].eventId
  {
    assert DirtyOk(t, i, s.records[i]);
  }

  lemma CommitQueuesCompleted(s: State, t: Txn, i: nat)
    requires OneEach(s) && TxnOk(s, t) && i < |s.records| && s.records[i].eventId in CompletedIn(t.dirty)
    ensures i in t.dirty && t.dirty[i].status == Completed
  {
    var j :| j in t.dirty && t.dirty[j].status == Completed && t.dirty[j].eventId == s.records[i].eventId;
    DirtyKeepsEvent(s, t, j);
    SameEventSameRow(s, i, j);
  }

  /** A commit queues an event exactly when the transaction completed its record. */
  lemma CommitQueues(s: State, r: RelayId, i: nat)
    requires Inv(s) && r in s.open && i < |s.records|
    ensures s.records[i].eventId in CompletedIn(s.open[r].dirty) <==>
            i in s.open[r].dirty && s.open[r].dirty[i].status == Completed
  {
    var t := s.open[r];
    assert TxnOk(s, t);
    if s.records[i].eventId in CompletedIn(t.dirty) {
      CommitQueuesCompleted(s, t, i);
    } else if i in t.dirty {
      DirtyKeepsEvent(s, t, i);
    }
  }

  lemma CommittedRow(s: State, r: RelayId, i: nat)
    requires Inv(s) && r in s.open && i < |s.records|
    ensures var s' := Committed(s, r);
            s'.records[i].eventId == s.records[i].eventId && RecordOk(s', i) && Accounted(s', i) == Accounted(s, i)
  {
    var s' := Committed(s, r);
    var t := s.open[r];
    assert TxnOk(s, t) && RecordOk(s, i);
    CommitQueues(s, r, i);
    DroppedOpen(s, r, s', i);
    assert multiset(t.unacked)[i] == if i in t.unacked then 1 else 0;
    if i in t.dirty {
      assert DirtyOk(t, i, s.records[i]);
      assert s.records[i].status == Pending;
    }
  }

  lemma OthersUntouched(s: State, r: RelayId, q: RelayId)
    requires Inv(s) && r in s.open && q in s.open && q != r
    ensures TxnOk(Committed(s, r), s.open[q])
  {
    var s' := Committed(s, r);
    assert TxnOk(s, s.open[r]) && TxnOk(s, s.open[q]);
    assert s.open[r].locked !! s.open[q].locked;
    forall i | i in s.open[q].locked
      ensures s'.records[i] == s.records[i]
    {
      assert i !in s.open[r].dirty;
    }
  }

  lemma CommitKeeps(s: State, r: RelayId)
    requires Inv(s) && r in s.open
    ensures Inv(Committed(s, r))
  {
    var s' := Committed(s, r);
    assert TxnOk(s, s.open[r]);
    forall i | 0 <= i < |s'.records|
      ensures RecordOk(s', i) && Accounted(s', i) == Accounted(s, i) && s'.records[i].eventId == s.records[i].eventId
    {
      CommittedRow(s, r, i);
    }
    forall q | q in s'.open
      ensures TxnOk(s', s'.open[q])
    {
      OthersUntouched(s, r, q);
    }
    assert OneEach(s') by {
      forall e | e in s'.events
        ensures exists i :: 0 <= i < |s'.records| && s'.records[i].eventId == e
      {
        var i :| 0 <= i < |s.records| && s.records[i].eventId == e;
        assert s'.records[i].eventId == e;
      }
    }
  }

  lemma StepKeeps(s: State, step: Step)
    requires Inv(s) && Enabled(s, step)
    ensures Inv(Apply(s, step))
  {
    match step {
      case Accept(e) => AcceptKeeps(s, e);
      case Claim(r, batch) => ClaimKeeps(s, r, batch);
      case Send(r, result) => SendKeeps(s, r, result);
      case Commit(r) => CommitKeeps(s, r);
      case Crash(r) => CrashKeeps(s, r);
    }
  }

  lemma {:induction false} InvAlways(s: State, steps: seq<Step>)
    requires Inv(s) && Possible(s, steps)
    ensures Inv(After(s, steps))
    decreases |steps|
  {
    if steps != [] {
      StepKeeps(s, steps[0]);
      InvAlways(Apply(s, steps[0]), steps[1..]);
    }
  }

  // ---------------------------------------------------------------- the promises

  lemma {:induction false} AcceptedStays(s: State, steps: seq<Step>, e: EventId)
    requires Possible(s, steps)
    ensures e in After(s, steps).events <==> e in s.events || Accept(e) in steps
    decreases |steps|
  {
    if steps != [] {
      AcceptedStays(Apply(s, steps[0]), steps[1..], e);
      assert steps == [steps[0]] + steps[1..];
    }
  }

  /** Row `i` is the only outbox record of event `e`. */
  ghost predicate SoleRecord(s: State, e: EventId, i: nat) {
    i < |s.records| && forall j :: 0 <= j < |s.records| ==> (s.records[j].eventId == e <==> j == i)
  }

  /**
   No loss: after any interleaving of gateways, relays, send errors, early stops and crashes,
   every accepted event has exactly one record, which is pending with attempts left, failed with
   none left, or completed with the event in the log; and a queued event is in the log.
   */
  lemma NoLoss(steps: seq<Step>, e: EventId) returns (i: nat)
    requires Possible(EMPTY, steps) && Accept(e) in steps
    ensures var s := After(EMPTY, steps);
            && SoleRecord(s, e, i) && e in s.events
            && (match s.records[i].status
                case Pending => s.records[i].attempts < 10
                case Failed => s.records[i].attempts == 10
                case Completed => e in s.log)
            && (s.events[e] == Queued <==> s.records[i].status == Completed)
  {
    var s := After(EMPTY, steps);
    InvAlways(EMPTY, steps);
    AcceptedStays(EMPTY, steps, e);
    i :| 0 <= i < |s.records| && s.records[i].eventId == e;
    assert RecordOk(s, i);
    if s.records[i].status == Completed {
      assert multiset(s.log)[e] >= 1;
    }
  }

  /**
   Conservation: the copies of an event in the log are those of rolled-back transactions, the
   committed ones whose acknowledgement was lost, one if an open transaction appended it, and one
   if it was committed as completed.
   */
  lemma Conservation(steps: seq<Step>, e: EventId, i: nat)
    requires Possible(EMPTY, steps) && SoleRecord(After(EMPTY, steps), e, i)
    ensures var s := After(EMPTY, steps);
            multiset(s.log)[e] == s.rolledBack[i] + s.ackLost[i] + (if InOpen(s, i) then 1 else 0)
                                  + (if s.records[i].status == Completed then 1 else 0)
  {
    InvAlways(EMPTY, steps);
  }

  /** Beyond copies left by rolled-back transactions, an event is appended at most ten times. */
  lemma DuplicateBound(steps: seq<Step>, e: EventId, i: nat)
    requires Possible(EMPTY, steps) && SoleRecord(After(EMPTY, steps), e, i)
    ensures var s := After(EMPTY, steps);
            multiset(s.log)[e] <= s.rolledBack[i] + 10
  {
    var s := After(EMPTY, steps);
    InvAlways(EMPTY, steps);
    assert RecordOk(s, i) && s.records[i].eventId == e;
    if InOpen(s, i) {
      var r :| r in s.open && i in s.open[r].appended;
      assert TxnOk(s, s.open[r]);
    }
  }

  /** How many transactions that committed during the run had tried row `i` and seen its send raise. */
  ghost function ErrorsOf(s: State, steps: seq<Step>, i: nat): nat
    requires Possible(s, steps)
    decreases |steps|
  {
    if steps == [] then 0
    else
      ErrorsOf(Apply(s, steps[0]), steps[1..], i)
      + (if steps[0].Commit? && i in s.open[steps[0].relay].dirty
            && s.open[steps[0].relay].dirty[i].status != Completed then 1 else 0)
  }

  lemma AttemptsStep(s: State, step: Step, i: nat)
    requires Inv(s) && Enabled(s, step) && i < |Apply(s, step).records|
    ensures Apply(s, step).records[i].attempts
         == (if i < |s.records| then s.records[i].attempts else 0)
            + (if step.Commit? && i in s.open[step.relay].dirty && s.open[step.relay].dirty[i].status != Completed
               then 1 else 0)
    ensures |s.records| <= |Apply(s, step).records|
  {
    if step.Commit? {
      var t := s.open[step.relay];
      assert TxnOk(s, t);
      assert i in t.dirty ==> DirtyOk(t, i, s.records[i]);
    } else if step.Accept? {
      assert i < |s.records| ==> Accepted(s, step.event).records[i] == s.records[i];
    }
  }

  /** A record's attempts are the committed errors of its sends, and nothing else changes them. */
  lemma {:induction false} AttemptsAreErrors(s: State, steps: seq<Step>, i: nat)
    requires Inv(s) && Possible(s, steps) && i < |After(s, steps).records|
    ensures After(s, steps).records[i].attempts
            == (if i < |s.records| then s.records[i].attempts else 0) + ErrorsOf(s, steps, i)
    decreases |steps|
  {
    if steps != [] {
      var s' := Apply(s, steps[0]);
      StepKeeps(s, steps[0]);
      AttemptsAreErrors(s', steps[1..], i);
      if i < |s'.records| {
        AttemptsStep(s, steps[0], i);
      } else if steps[0].Commit? {
        assert TxnOk(s, s.open[steps[0].relay]);
      }
    }
  }

  /** Two relays never hold the same row. */
  lemma ClaimsAreDisjoint(steps: seq<Step>, p: RelayId, q: RelayId)
    requires Possible(EMPTY, steps) && p != q
    requires p in After(EMPTY, steps).open && q in After(EMPTY, steps).open
    ensures After(EMPTY, steps).open[p].locked !! After(EMPTY, steps).open[q].locked
  {
    InvAlways(EMPTY, steps);
  }

  /** Nothing was rolled back and no acknowledgement was lost. */
  ghost predicate Clean(s: State) {
    && s.rolledBack == multiset{} && s.ackLost == multiset{}
    && forall r :: r in s.open ==> s.open[r].unacked == {}
  }

  ghost predicate CleanStep(step: Step) {
    !step.Crash? && (step.Send? ==> step.result != ErrorAppended)
  }

  lemma {:induction false} CleanStays(s: State, steps: seq<Step>)
    requires Clean(s) && Possible(s, steps) && forall k :: 0 <= k < |steps| ==> CleanStep(steps[k])
    ensures Clean(After(s, steps))
    decreases |steps|
  {
    if steps != [] {
      assert CleanStep(steps[0]);
      CleanStays(Apply(s, steps[0]), steps[1..]);
    }
  }

  /** Without crashes and lost acknowledgements every event is published exactly once. */
  lemma ExactlyOnce(steps: seq<Step>, e: EventId, i: nat)
    requires Possible(EMPTY, steps) && forall k :: 0 <= k < |steps| ==> CleanStep(steps[k])
    requires SoleRecord(After(EMPTY, steps), e, i)
    ensures var s := After(EMPTY, steps);
            && multiset(s.log)[e] <= 1
            && (s.records[i].status == Completed ==> multiset(s.log)[e] == 1)
            && (s.records[i].status == Failed ==> multiset(s.log)[e] == 0)
  {
    var s := After(EMPTY, steps);
    InvAlways(EMPTY, steps);
    CleanStays(EMPTY, steps);
    assert s.records[i].eventId == e && RecordOk(s, i);
    if InOpen(s, i) {
      var r :| r in s.open && i in s.open[r].appended;
      assert TxnOk(s, s.open[r]);
    }
  }

  // ---------------------------------------------------------------- the relay loop

  /** The rows SELECT ... ORDER BY created_at LIMIT room FOR UPDATE SKIP LOCKED returns. */
  function Select(records: seq<Record>, locked: set<nat>, from: nat, room: nat): (batch: seq<nat>)
    requires from <= |records|
    ensures |batch| <= room
    ensures forall k :: 0 <= k < |batch| ==>
            from <= batch[k] < |records| && records[batch[k]].status == Pending && batch[k] !in locked
    ensures forall j, k :: 0 <= j < k < |batch| ==> batch[j] < batch[k]
    ensures |batch| < room ==> forall i :: from <= i < |records| && records[i].status == Pending && i !in locked ==>
            i in batch
    ensures forall k, i :: 0 <= k < |batch| && from <= i < batch[k] && records[i].status == Pending && i !in locked ==>
            i in batch
    decreases |records| - from
  {
    if from == |records| || room == 0 then []
    else if records[from].status == Pending && from !in locked then [from] + Select(records, locked, from + 1, room - 1)
    else Select(records, locked, from + 1, room)
  }

  /** Rows after a transaction that settled exactly the rows of `batch`. */
  function Settled(records: seq<Record>, batch: seq<nat>, results: nat -> Publish): (r: seq<Record>)
    ensures |r| == |records|
    ensures forall i :: 0 <= i < |r| ==> r[i] == if i in batch then Settle(records[i], results(i)) else records[i]
  {
    seq(|records|, i requires 0 <= i < |records| => if i in batch then Settle(records[i], results(i)) else records[i])
  }

  lemma {:induction false} Snoc(s: State, steps: seq<Step>, step: Step)
    requires Possible(s, steps) && Enabled(After(s, steps), step)
    ensures Possible(s, steps + [step]) && After(s, steps + [step]) == Apply(After(s, steps), step)
    decreases |steps|
  {
    if steps == [] {
      assert [step][1..] == [];
    } else {
      Snoc(Apply(s, steps[0]), steps[1..], step);
      assert (steps + [step])[1..] == steps[1..] + [step];
    }
  }

  /** A run from the empty system, and where it leads. */
  ghost predicate Reached(steps: seq<Step>, s: State) {
    Possible(EMPTY, steps) && s == After(EMPTY, steps)
  }

  lemma Go(steps: seq<Step>, s: State, step: Step) returns (more: seq<Step>, t: State)
    requires Reached(steps, s) && Enabled(s, step)
    ensures Reached(more, t) && t == Apply(s, step)
    ensures steps <= more && |more| == |steps| + 1 && more[|steps|] == step
  {
    Snoc(EMPTY, steps, step);
    more, t := steps + [step], Apply(s, step);
  }

  /** The protocol state while relay `me` has handled the first i rows of its batch. */
  ghost predicate Midway(s0: State, s: State, me: RelayId, batch: seq<nat>, i: nat, results: nat -> Publish) {
    && i <= |batch|
    && s.records == s0.records && s.events == s0.events
    && me in s.open && s.open - {me} == s0.open
    && s.open[me].todo == batch[i..]
    && (forall x {:trigger x in s.open[me].dirty} :: x in s.open[me].dirty <==> x in batch[..i])
    && (forall x :: x in s.open[me].dirty ==>
          x < |s.records| && s.open[me].dirty[x] == Settle(s.records[x], results(x)))
  }

  lemma MidwayStart(s0: State, me: RelayId, batch: seq<nat>, results: nat -> Publish)
    requires me !in s0.open
    ensures Midway(s0, Claimed(s0, me, batch), me, batch, 0, results)
  {
    assert Claimed(s0, me, batch).open - {me} == s0.open;
  }

  lemma MidwayReady(s0: State, steps: seq<Step>, s: State, me: RelayId, batch: seq<nat>, i: nat,
                    results: nat -> Publish)
    requires Reached(steps, s) && Midway(s0, s, me, batch, i, results) && i < |batch|
    ensures CanSend(s, me) && s.open[me].todo[0] == batch[i]
  {
    InvAlways(EMPTY, steps);
    assert TxnOk(s, s.open[me]);
    assert s.open[me].todo[0] == batch[i];
  }

  lemma MidwayStep(s0: State, s: State, me: RelayId, batch: seq<nat>, i: nat, results: nat -> Publish)
    requires Midway(s0, s, me, batch, i, results) && i < |batch| && CanSend(s, me)
    ensures var s' := Sent(s, me, results(batch[i]));
            && Midway(s0, s', me, batch, i + 1, results)
            && s'.open[me].dirty == s.open[me].dirty[batch[i] := Settle(s.records[batch[i]], results(batch[i]))]
            && s'.log == if results(batch[i]) == ErrorLost then s.log else s.log + [s.records[batch[i]].eventId]
  {
    var s' := Sent(s, me, results(batch[i]));
    assert s.open[me].todo[0] == batch[i];
    assert batch[..i + 1] == batch[..i] + [batch[i]];
    assert s'.open - {me} == s.open - {me};
  }

  /** The next send of the batch, as a step of the protocol. */
  lemma SendNext(steps: seq<Step>, s0: State, s: State, me: RelayId, batch: seq<nat>, i: nat, results: nat -> Publish)
    returns (more: seq<Step>, t: State)
    requires Reached(steps, s) && Midway(s0, s, me, batch, i, results) && i < |batch|
    ensures Reached(more, t) && Midway(s0, t, me, batch, i + 1, results)
    ensures steps <= more && |more| == |steps| + 1 && more[|steps|] == Send(me, results(batch[i]))
    ensures batch[i] < |s0.records|
    ensures t.open[me].dirty == s.open[me].dirty[batch[i] := Settle(s0.records[batch[i]], results(batch[i]))]
    ensures t.log == if results(batch[i]) == ErrorLost then s.log else s.log + [s0.records[batch[i]].eventId]
  {
    MidwayReady(s0, steps, s, me, batch, i, results);
    MidwayStep(s0, s, me, batch, i, results);
    more, t := Go(steps, s, Send(me, results(batch[i])));
  }

  lemma SelectedIsClaimable(s: State, me: RelayId, batch: seq<nat>, locked: set<nat>)
    requires batch == Select(s.records, locked, 0, BATCH_SIZE) && batch != []
    requires forall i :: i !in locked <==> Unlocked(s.open, i)
    ensures Claimable(s, batch)
  {
  }

  lemma FinishRound(s0: State, s: State, me: RelayId, batch: seq<nat>, i: nat, results: nat -> Publish)
    requires Midway(s0, s, me, batch, i, results)
    ensures var t := Committed(s, me);
            && t.open == s0.open && t.log == s.log
            && t.records == WriteBack(s0.records, s.open[me].dirty) == Settled(s0.records, batch[..i], results)
            && t.events == Requeue(s0.events, CompletedIn(s.open[me].dirty))
  {
    var settled := Settled(s0.records, batch[..i], results);
    var written := WriteBack(s0.records, s.open[me].dirty);
    assert forall k :: 0 <= k < |settled| ==> written[k] == settled[k];
  }

  class OutboxRelay {
    const me: RelayId
    var records: seq<Record>
    var events: map<EventId, EventStatus>
    var log: seq<EventId>
    /** Rows locked by other relays' transactions. */
    var locked: set<nat>
    /** Every protocol step taken so far, by this relay and by everybody else. */
    ghost var trace: seq<Step>

    ghost predicate Valid()
      reads this
    {
      Possible(EMPTY, trace) &&
      var s := After(EMPTY, trace);
      && me !in s.open && records == s.records && events == s.events && log == s.log
      && forall i :: i !in locked <==> Unlocked(s.open, i)
    }

    /** A relay joins a system that has been running for a while. */
    constructor (me: RelayId, records: seq<Record>, events: map<EventId, EventStatus>, log: seq<EventId>,
                 locked: set<nat>, ghost trace: seq<Step>)
      requires Possible(EMPTY, trace)
      requires var s := After(EMPTY, trace);
               && me !in s.open && records == s.records && events == s.events && log == s.log
               && forall i :: i !in locked <==> Unlocked(s.open, i)
      ensures Valid() && this.me == me && this.trace == trace
    {
      this.me, this.records, this.events, this.log, this.locked, this.trace := me, records, events, log, locked, trace;
    }

    /** One record of the batch: publish it, then change the session's copy of it. */
    method PublishOne(batch: seq<nat>, i: nat, results: nat -> Publish, dirty: map<nat, Record>, ghost s0: State,
                      ghost s: State)
      returns (more: map<nat, Record>, ghost t: State)
      requires i < |batch| && Reached(trace, s) && Midway(s0, s, me, batch, i, results)
      requires records == s0.records && log == s.log && dirty == s.open[me].dirty
      modifies this`log, this`trace
      ensures Reached(trace, t) && old(trace) <= trace && Midway(s0, t, me, batch, i + 1, results)
      ensures log == t.log && more == t.open[me].dirty
    {
      trace, t := SendNext(trace, s0, s, me, batch, i, results);
      var row := batch[i];
      var record := records[row];
      var result := results(row);
      if result != ErrorLost {
        log := log + [record.eventId];
      }
      if result != Acked {
        record := record.(attempts := record.attempts + 1);
        if record.attempts >= MAX_ATTEMPTS {
          record := record.(status := Failed);
        }
      } else {
        record := record.(status := Completed);
      }
      assert record == Settle(records[row], result);
      more := dirty[row := record];
    }

    /**
     The inner loop over a claimed batch: publish, then change the session's copy of the record.
     `results` answers for the sends, `stopAfter` says when the stop signal is noticed.
     */
    method PublishBatch(batch: seq<nat>, results: nat -> Publish, stopAfter: nat, ghost s0: State, ghost s1: State)
      returns (dirty: map<nat, Record>, ghost s: State)
      requires Reached(trace, s1) && records == s0.records && log == s1.log
      requires Midway(s0, s1, me, batch, 0, results) && s1.open[me].dirty == map[]
      modifies this`log, this`trace
      ensures Reached(trace, s) && log == s.log && old(trace) <= trace
      ensures Midway(s0, s, me, batch, if stopAfter < |batch| then stopAfter else |batch|, results)
      ensures dirty == s.open[me].dirty
    {
      dirty := map[];
      s := s1;
      var i := 0;
      while i < |batch| && i < stopAfter
        invariant i <= stopAfter && old(trace) <= trace
        invariant Reached(trace, s) && Midway(s0, s, me, batch, i, results)
        invariant log == s.log && dirty == s.open[me].dirty
      {
        dirty, s := PublishOne(batch, i, results, dirty, s0, s);
        i := i + 1;
      }
    }

    /** One round of the polling loop: claim, publish the batch, commit. */
    method Round(results: nat -> Publish, stopAfter: nat) returns (batch: seq<nat>)
      requires Valid()
      modifies this
      ensures Valid() && locked == old(locked) && old(trace) <= trace
      ensures batch == Select(old(records), locked, 0, 10)
      ensures var n := if stopAfter < |batch| then stopAfter else |batch|;
              records == Settled(old(records), batch[..n], results)
      ensures locked == {} && stopAfter >= BATCH_SIZE ==> records == NextRound(old(records), results)
      ensures batch == [] ==> trace == old(trace)
    {
      batch := Select(records, locked, 0, BATCH_SIZE);
      assert batch[..|batch|] == batch;
      if batch == [] {
        assert records == Settled(records, batch[..0], results);
        return;
      }
      ghost var s0 := After(EMPTY, trace);
      ghost var s;
      trace, s := ClaimBatch(trace, s0, me, batch, locked, results);
      var dirty;
      dirty, s := PublishBatch(batch, results, stopAfter, s0, s);
      trace, s := CommitBatch(trace, s0, s, me, batch, if stopAfter < |batch| then stopAfter else |batch|, results);
      records := WriteBack(records, dirty);
      events := Requeue(events, CompletedIn(dirty));
    }
  }

  // ---------------------------------------------------------------- draining

  /** Rows after n undisturbed rounds of a single relay; `oracle(k)` answers for the sends of round k. */
  function Rounds(records: seq<Record>, oracle: nat -> (nat -> Publish), n: nat): seq<Record> {
    if n == 0 then records
    else
      NextRound(Rounds(records, oracle, n - 1), oracle(n - 1))
  }

  function PendingFrom(records: seq<Record>, from: nat): nat
    requires from <= |records|
    decreases |records| - from
  {
    if from == |records| then 0
    else (if records[from].status == Pending then 1 else 0) + PendingFrom(records, from + 1)
  }

  /** Send attempts that pending records still have left, together. */
  function WorkFrom(records: seq<Record>, from: nat): int
    requires from <= |records|
    decreases |records| - from
  {
    if from == |records| then 0
    else
      (if records[from].status == Pending then MAX_ATTEMPTS - records[from].attempts else 0)
      + WorkFrom(records, from + 1)
  }

  ghost predicate Fresh(records: seq<Record>) {
    forall i :: 0 <= i < |records| && records[i].status == Pending ==> records[i].attempts < MAX_ATTEMPTS
  }

  ghost predicate LeftAtMost(records: seq<Record>, g: nat) {
    forall i :: 0 <= i < |records| && records[i].status == Pending ==> MAX_ATTEMPTS - records[i].attempts <= g
  }

  lemma {:induction false} SelectSize(records: seq<Record>, from: nat, room: nat)
    requires from <= |records|
    ensures |Select(records, {}, from, room)|
            == if PendingFrom(records, from) < room then PendingFrom(records, from) else room
    decreases |records| - from
  {
    if from < |records| && room > 0 {
      SelectSize(records, from + 1, if records[from].status == Pending then room - 1 else room);
    }
  }

  /** A round spends at least one attempt for every record of its batch. */
  lemma {:induction false} RoundSpends(records: seq<Record>, results: nat -> Publish, batch: seq<nat>, from: nat,
                                       room: nat)
    requires from <= |records| && Fresh(records)
    requires forall i :: from <= i < |records| ==> (i in batch <==> i in Select(records, {}, from, room))
    ensures WorkFrom(Settled(records, batch, results), from)
            <= WorkFrom(records, from) - |Select(records, {}, from, room)|
    ensures PendingFrom(Settled(records, batch, results), from) <= PendingFrom(records, from)
    decreases |records| - from
  {
    if from < |records| {
      var room' := if room > 0 && records[from].status == Pending then room - 1 else room;
      var sel, sel' := Select(records, {}, from, room), Select(records, {}, from + 1, room');
      if room > 0 && records[from].status == Pending {
        assert sel == [from] + sel';
      } else if room == 0 {
        assert sel == [] && sel' == [];
      } else {
        assert sel == sel';
      }
      forall i | from + 1 <= i < |records|
        ensures i in batch <==> i in sel'
      {
        assert i in sel <==> i in sel';
      }
      RoundSpends(records, results, batch, from + 1, room');
      assert from in batch ==> from in sel;
      assert from in sel <==> room > 0 && records[from].status == Pending;
    }
  }

  lemma {:induction false} WorkAtMost(records: seq<Record>, from: nat)
    requires from <= |records|
    ensures WorkFrom(records, from) <= 10 * PendingFrom(records, from)
    ensures Fresh(records) ==> WorkFrom(records, from) >= 0
    decreases |records| - from
  {
    if from < |records| {
      WorkAtMost(records, from + 1);
    }
  }

  function NextRound(now: seq<Record>, results: nat -> Publish): seq<Record> {
    Settled(now, Select(now, {}, 0, BATCH_SIZE), results)
  }

  /** When everything pending fits in one batch, a round leaves every record one attempt less. */
  lemma SmallRound(now: seq<Record>, results: nat -> Publish, g: nat)
    requires Fresh(now) && LeftAtMost(now, g) && PendingFrom(now, 0) < BATCH_SIZE
    ensures var next := NextRound(now, results);
            Fresh(next) && LeftAtMost(next, if g > 0 then g - 1 else 0) && PendingFrom(next, 0) < BATCH_SIZE
  {
    SelectSize(now, 0, BATCH_SIZE);
    RoundSpends(now, results, Select(now, {}, 0, BATCH_SIZE), 0, BATCH_SIZE);
  }

  lemma LargeRound(now: seq<Record>, results: nat -> Publish)
    requires Fresh(now) && PendingFrom(now, 0) >= BATCH_SIZE
    ensures Fresh(NextRound(now, results)) && WorkFrom(NextRound(now, results), 0) <= WorkFrom(now, 0) - 10
  {
    SelectSize(now, 0, BATCH_SIZE);
    RoundSpends(now, results, Select(now, {}, 0, BATCH_SIZE), 0, BATCH_SIZE);
  }

  ghost predicate Small(records: seq<Record>, g: nat) {
    Fresh(records) && LeftAtMost(records, g) && PendingFrom(records, 0) < BATCH_SIZE
  }

  lemma SmallStep(records: seq<Record>, oracle: nat -> (nat -> Publish), k: nat, g: nat)
    requires Small(Rounds(records, oracle, k), g)
    ensures Small(Rounds(records, oracle, k + 1), if g > 0 then g - 1 else 0)
  {
    SmallRound(Rounds(records, oracle, k), oracle(k), g);
    RoundsStep(records, oracle, k);
  }

  lemma {:induction false} SmallDrain(records: seq<Record>, oracle: nat -> (nat -> Publish), from: nat, n: nat, g: nat)
    requires from + g <= n
    requires Small(Rounds(records, oracle, from), g)
    ensures Small(Rounds(records, oracle, n), 0)
    decreases n - from
  {
    if from < n {
      SmallStep(records, oracle, from, g);
      SmallDrain(records, oracle, from + 1, n, if g > 0 then g - 1 else 0);
    }
  }

  lemma RoundsStep(records: seq<Record>, oracle: nat -> (nat -> Publish), n: nat)
    ensures Rounds(records, oracle, n + 1) == NextRound(Rounds(records, oracle, n), oracle(n))
  {
  }

  lemma {:induction false} LargeDrain(records: seq<Record>, oracle: nat -> (nat -> Publish), from: nat, n: nat)
    requires from <= n && Fresh(Rounds(records, oracle, from))
    requires 10 * (n - from) >= WorkFrom(Rounds(records, oracle, from), 0) + 100
    ensures LeftAtMost(Rounds(records, oracle, n), 0) && Fresh(Rounds(records, oracle, n))
    decreases n - from
  {
    var now := Rounds(records, oracle, from);
    WorkAtMost(now, 0);
    if PendingFrom(now, 0) < BATCH_SIZE {
      assert LeftAtMost(now, 10);
      SmallDrain(records, oracle, from, n, 10);
    } else {
      LargeRound(now, oracle(from));
      RoundsStep(records, oracle, from);
      assert WorkFrom(Rounds(records, oracle, from + 1), 0) <= WorkFrom(now, 0) - 10;
      LargeDrain(records, oracle, from + 1, n);
    }
  }

  /**
   Draining: a single undisturbed relay leaves nothing pending after R + 10 rounds, where R is the
   number of pending records it started with, whichever sends fail.
   */
  lemma DrainBound(records: seq<Record>, oracle: nat -> (nat -> Publish))
    requires Fresh(records)
    ensures var final := Rounds(records, oracle, PendingFrom(records, 0) + 10);
            forall i :: 0 <= i < |final| ==> final[i].status != Pending
  {
    var n := PendingFrom(records, 0) + 10;
    WorkAtMost(records, 0);
    assert Rounds(records, oracle, 0) == records;
    LargeDrain(records, oracle, 0, n);
  }

  lemma {:induction false} RoundsKeepSize(records: seq<Record>, oracle: nat -> (nat -> Publish), n: nat)
    ensures |Rounds(records, oracle, n)| == |records|
  {
    if n > 0 {
      RoundsKeepSize(records, oracle, n - 1);
    }
  }

  // ---------------------------------------------------------------- draining as a run of the protocol

  /** A step of relay `me` other than a crash. */
  predicate Works(step: Step, me: RelayId) {
    (step.Claim? || step.Send? || step.Commit?) && step.relay == me
  }

  ghost predicate OnlyWorks(steps: seq<Step>, from: nat, me: RelayId) {
    forall k :: from <= k < |steps| ==> Works(steps[k], me)
  }

  lemma WorksThrough(a: seq<Step>, b: seq<Step>, c: seq<Step>, me: RelayId)
    requires a <= b <= c && |b| == |a| + 1 && Works(b[|a|], me) && OnlyWorks(c, |b|, me)
    ensures a <= c && OnlyWorks(c, |a|, me)
  {
    assert c[|a|] == b[|a|];
  }

  lemma {:induction false} SendsRun(steps: seq<Step>, s0: State, s: State, me: RelayId, batch: seq<nat>, i: nat,
                                    results: nat -> Publish)
    returns (more: seq<Step>, t: State)
    requires Reached(steps, s) && Midway(s0, s, me, batch, i, results)
    ensures steps <= more && Reached(more, t) && Midway(s0, t, me, batch, |batch|, results)
    ensures OnlyWorks(more, |steps|, me)
    decreases |batch| - i
  {
    more, t := steps, s;
    if i < |batch| {
      var next, u := SendNext(steps, s0, s, me, batch, i, results);
      more, t := SendsRun(next, s0, u, me, batch, i + 1, results);
      WorksThrough(steps, next, more, me);
    }
  }

  lemma ClaimBatch(steps: seq<Step>, s: State, me: RelayId, batch: seq<nat>, locked: set<nat>, results: nat -> Publish)
    returns (more: seq<Step>, t: State)
    requires Reached(steps, s) && me !in s.open && batch != []
    requires batch == Select(s.records, locked, 0, BATCH_SIZE) && forall i :: i !in locked <==> Unlocked(s.open, i)
    ensures Reached(more, t) && Midway(s, t, me, batch, 0, results) && t.open[me].dirty == map[] && t.log == s.log
    ensures steps <= more && |more| == |steps| + 1 && more[|steps|] == Claim(me, batch)
  {
    SelectedIsClaimable(s, me, batch, locked);
    MidwayStart(s, me, batch, results);
    more, t := Go(steps, s, Claim(me, batch));
  }

  lemma CommitBatch(steps: seq<Step>, s0: State, s: State, me: RelayId, batch: seq<nat>, i: nat,
                    results: nat -> Publish)
    returns (more: seq<Step>, t: State)
    requires Reached(steps, s) && Midway(s0, s, me, batch, i, results)
    ensures Reached(more, t) && t.open == s0.open && t.log == s.log
    ensures t.records == WriteBack(s0.records, s.open[me].dirty) == Settled(s0.records, batch[..i], results)
    ensures t.events == Requeue(s0.events, CompletedIn(s.open[me].dirty))
    ensures steps <= more && |more| == |steps| + 1 && more[|steps|] == Commit(me)
  {
    FinishRound(s0, s, me, batch, i, results);
    more, t := Go(steps, s, Commit(me));
  }

  /** While no transaction is open, a modelled round is a run of the protocol. */
  lemma RoundRun(steps: seq<Step>, s: State, results: nat -> Publish, me: RelayId) returns (more: seq<Step>, t: State)
    requires Reached(steps, s) && s.open == map[]
    ensures steps <= more && Reached(more, t) && t.open == map[] && t.records == NextRound(s.records, results)
    ensures OnlyWorks(more, |steps|, me)
  {
    var batch := Select(s.records, {}, 0, BATCH_SIZE);
    assert batch[..|batch|] == batch;
    more, t := steps, s;
    if batch == [] {
      assert NextRound(s.records, results) == s.records;
    } else {
      more, t := ClaimBatch(steps, s, me, batch, {}, results);
      more, t := SendsRun(more, s, t, me, batch, 0, results);
      more, t := CommitBatch(more, s, t, me, batch, |batch|, results);
    }
  }

  lemma {:induction false} DrainRun(steps: seq<Step>, s: State, oracle: nat -> (nat -> Publish), n: nat, me: RelayId)
    returns (more: seq<Step>, t: State)
    requires Reached(steps, s) && s.open == map[]
    ensures steps <= more && Reached(more, t) && t.open == map[] && t.records == Rounds(s.records, oracle, n)
    ensures OnlyWorks(more, |steps|, me)
    decreases n
  {
    more, t := steps, s;
    if n > 0 {
      more, t := DrainRun(steps, s, oracle, n - 1, me);
      more, t := RoundRun(more, t, oracle(n - 1), me);
    }
  }

  /** Every open transaction can be rolled back, which leaves the rows as they are. */
  lemma {:induction false} CrashAll(steps: seq<Step>, s: State) returns (more: seq<Step>, t: State)
    requires Reached(steps, s)
    ensures steps <= more && Reached(more, t) && t.open == map[] && t.records == s.records
    ensures forall k :: |steps| <= k < |more| ==> more[k].Crash?
    ensures s.open == map[] ==> more == steps
    decreases |s.open|
  {
    more, t := steps, s;
    if s.open != map[] {
      var r :| r in s.open;
      FewerOpen(s.open, r);
      more, t := Go(steps, s, Crash(r));
      more, t := CrashAll(more, t);
    }
  }

  lemma FewerOpen(open: map<RelayId, Txn>, r: RelayId)
    requires r in open
    ensures |open - {r}| < |open|
  {
    assert (open - {r}).Keys == open.Keys - {r};
  }

  lemma ReachableFresh(steps: seq<Step>, s: State)
    requires Reached(steps, s)
    ensures Fresh(s.records)
  {
    InvAlways(EMPTY, steps);
    forall i | 0 <= i < |s.records|
      ensures s.records[i].status == Pending ==> s.records[i].attempts < MAX_ATTEMPTS
    {
      assert RecordOk(s, i);
    }
  }

  lemma Drained(records: seq<Record>, oracle: nat -> (nat -> Publish), n: nat, final: seq<Record>)
    requires Fresh(records) && n == PendingFrom(records, 0) + 10 && final == Rounds(records, oracle, n)
    ensures |final| == |records| && forall i :: 0 <= i < |final| ==> final[i].status != Pending
  {
    DrainBound(records, oracle);
    RoundsKeepSize(records, oracle, n);
  }

  /**
   From every state that gateways, relays and crashes can have led to: once the open transactions
   are rolled back, R + 10 rounds of a single relay, working alone in the protocol, leave every
   record completed or failed, whatever the oracle says about its sends.
   */
  lemma DrainFromAnywhere(steps: seq<Step>, s: State, oracle: nat -> (nat -> Publish), me: RelayId)
    returns (crashed: seq<Step>, more: seq<Step>, t: State)
    requires Reached(steps, s)
    ensures steps <= crashed <= more && Reached(more, t) && (s.open == map[] ==> crashed == steps)
    ensures (forall k :: |steps| <= k < |crashed| ==> crashed[k].Crash?) && OnlyWorks(more, |crashed|, me)
    ensures t.records == Rounds(s.records, oracle, PendingFrom(s.records, 0) + 10) && |t.records| == |s.records|
    ensures forall i :: 0 <= i < |t.records| ==> t.records[i].status != Pending
  {
    var u;
    var n := PendingFrom(s.records, 0) + 10;
    crashed, u := CrashAll(steps, s);
    more, t := DrainRun(crashed, u, oracle, n, me);
    ReachableFresh(steps, s);
    Drained(s.records, oracle, n, t.records);
  }
}
