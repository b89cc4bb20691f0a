/**
 The dead-letter listing: a join of events with their failing delivery attempts, and its
 composition with the delivery engine.
 */
module DeadLetterList {
  import opened Common
  import Delivery

  /** A DeliveryAttempt row; rows of all the routes of an event share its attempt numbers. */
  datatype AttemptRow = AttemptRow(eventId: nat, attempt: int, status: Option<int>, error: Option<string>, url: string)

  datatype EventRow = EventRow(id: nat, endpointId: nat, discarded: bool)

  datatype Entry = Entry(eventId: nat, lastError: Option<string>, lastStatus: Option<int>, lastUrl: string,
                         totalAttempts: nat)

  predicate Failing(r: AttemptRow) {
    r.error.Some? || (r.status.Some? && r.status.value >= 500)
  }

  /** max(attempt_number) over the failing rows of one event; no group without such a row. */
  function MaxFailing(rows: seq<AttemptRow>, e: nat): Option<int> {
    if rows == [] then None
    else
      var rest := MaxFailing(rows[1..], e);
      if rows[0].eventId != e || !Failing(rows[0]) then rest
      else if rest.None? || rest.value < rows[0].attempt then Some(rows[0].attempt)
      else rest
  }

  function CountRows(rows: seq<AttemptRow>, e: nat): nat {
    if rows == [] then 0 else CountRows(rows[1..], e) + (if rows[0].eventId == e then 1 else 0)
  }

  function Show(r: AttemptRow, total: nat): Entry {
    Entry(r.eventId, r.error, r.status, r.url, total)
  }

  /** The rows of one event joined on its largest failing attempt number. */
  function Joined(rows: seq<AttemptRow>, e: nat, last: int, total: nat): seq<Entry> {
    if rows == [] then []
    else
      (if rows[0].eventId == e && rows[0].attempt == last then [Show(rows[0], total)] else [])
      + Joined(rows[1..], e, last, total)
  }

  function EntriesOf(rows: seq<AttemptRow>, e: nat): seq<Entry> {
    var last := MaxFailing(rows, e);
    if last.None? then [] else Joined(rows, e, last.value, CountRows(rows, e))
  }

  /** The listing over a workspace's endpoints, before paging; events come in listing order. */
  function ListDlq(events: seq<EventRow>, rows: seq<AttemptRow>, endpoints: set<nat>,
                   includeDiscarded: bool): seq<Entry> {
    if events == [] then []
    else
      (if events[0].endpointId in endpoints && (includeDiscarded || !events[0].discarded)
       then EntriesOf(rows, events[0].id) else [])
      + ListDlq(events[1..], rows, endpoints, includeDiscarded)
  }

  // ---------------------------------------------------------------- the join

  /** Row `r` is what the listing shows for its event: none of its failing rows has a larger number. */
  ghost predicate Latest(rows: seq<AttemptRow>, r: AttemptRow) {
    && r in rows
    && (exists f :: f in rows && f.eventId == r.eventId && Failing(f) && f.attempt == r.attempt)
    && (forall f :: f in rows && f.eventId == r.eventId && Failing(f) ==> f.attempt <= r.attempt)
  }

  lemma {:induction false} MaxFailingIsMax(rows: seq<AttemptRow>, e: nat)
    ensures MaxFailing(rows, e).None? <==> forall f :: f in rows && f.eventId == e ==> !Failing(f)
    ensures MaxFailing(rows, e).Some? ==>
              && (exists f :: f in rows && f.eventId == e && Failing(f) && f.attempt == MaxFailing(rows, e).value)
              && (forall f :: f in rows && f.eventId == e && Failing(f) ==> f.attempt <= MaxFailing(rows, e).value)
  {
    if rows != [] {
      MaxFailingIsMax(rows[1..], e);
      assert forall f :: f in rows <==> f == rows[0] || f in rows[1..];
    }
  }

  lemma {:induction false} JoinedMembers(rows: seq<AttemptRow>, e: nat, last: int, total: nat, x: Entry)
    ensures x in Joined(rows, e, last, total) <==>
            exists r :: r in rows && r.eventId == e && r.attempt == last && x == Show(r, total)
  {
    if rows != [] {
      JoinedMembers(rows[1..], e, last, total, x);
      assert forall r :: r in rows <==> r == rows[0] || r in rows[1..];
    }
  }

  lemma LatestIsMax(rows: seq<AttemptRow>, r: AttemptRow)
    requires r in rows
    ensures Latest(rows, r) <==> MaxFailing(rows, r.eventId) == Some(r.attempt)
  {
    MaxFailingIsMax(rows, r.eventId);
    var last := MaxFailing(rows, r.eventId);
    if Latest(rows, r) {
      var f :| f in rows && f.eventId == r.eventId && Failing(f) && f.attempt == r.attempt;
      assert f.attempt <= last.value;
    }
  }

  /** An entry stands for a latest row of the event, with the exact number of the event's rows. */
  lemma EntriesAreLatest(rows: seq<AttemptRow>, e: nat, x: Entry)
    ensures x in EntriesOf(rows, e) <==>
            exists r :: Latest(rows, r) && r.eventId == e && x == Show(r, CountRows(rows, e))
  {
    MaxFailingIsMax(rows, e);
    var last := MaxFailing(rows, e);
    if last.Some? {
      JoinedMembers(rows, e, last.value, CountRows(rows, e), x);
      forall r | r in rows && r.eventId == e
        ensures r.attempt == last.value <==> Latest(rows, r)
      {
        LatestIsMax(rows, r);
      }
      assert x in EntriesOf(rows, e) ==>
        exists r :: Latest(rows, r) && r.eventId == e && x == Show(r, CountRows(rows, e));
    }
  }

  lemma {:induction false} ListMembers(events: seq<EventRow>, rows: seq<AttemptRow>, endpoints: set<nat>, all: bool,
                                       x: Entry)
    ensures x in ListDlq(events, rows, endpoints, all) <==>
            exists v :: v in events && v.endpointId in endpoints && (all || !v.discarded) && x in EntriesOf(rows, v.id)
  {
    if events != [] {
      ListMembers(events[1..], rows, endpoints, all, x);
      assert forall v :: v in events <==> v == events[0] || v in events[1..];
    }
  }

  /** The listing of some events and then others is the one listing and then the other, in order. */
  lemma {:induction false} ListSplits(p: seq<EventRow>, q: seq<EventRow>, rows: seq<AttemptRow>, endpoints: set<nat>,
                                      all: bool)
    ensures ListDlq(p + q, rows, endpoints, all) == ListDlq(p, rows, endpoints, all) + ListDlq(q, rows, endpoints, all)
    decreases |p|
  {
    if p == [] {
      assert p + q == q;
    } else {
      ListSplits(p[1..], q, rows, endpoints, all);
      assert (p + q)[0] == p[0] && (p + q)[1..] == p[1..] + q;
      ListOfFirst(p + q, rows, endpoints, all);
      ListOfFirst(p, rows, endpoints, all);
    }
  }

  lemma ListOfFirst(events: seq<EventRow>, rows: seq<AttemptRow>, endpoints: set<nat>, all: bool)
    requires events != []
    ensures ListDlq(events, rows, endpoints, all)
            == ListDlq([events[0]], rows, endpoints, all) + ListDlq(events[1..], rows, endpoints, all)
  {
    assert [events[0]][1..] == [];
  }

  /** One event is listed with its entries exactly when it is visible. */
  lemma ListOfOne(v: EventRow, rows: seq<AttemptRow>, endpoints: set<nat>, all: bool)
    ensures ListDlq([v], rows, endpoints, all)
            == if v.endpointId in endpoints && (all || !v.discarded) then EntriesOf(rows, v.id) else []
  {
    assert [v][1..] == [];
  }

  ghost predicate ListedIn(entries: seq<Entry>, e: nat) {
    exists x :: x in entries && x.eventId == e
  }

  ghost predicate Visible(events: seq<EventRow>, endpoints: set<nat>, all: bool, e: nat) {
    exists v :: v in events && v.id == e && v.endpointId in endpoints && (all || !v.discarded)
  }

  /** An event of the workspace that is not discarded is listed exactly when some attempt of it failed. */
  lemma ListedIffFailed(events: seq<EventRow>, rows: seq<AttemptRow>, endpoints: set<nat>, all: bool, e: nat)
    ensures ListedIn(ListDlq(events, rows, endpoints, all), e) <==>
            Visible(events, endpoints, all, e)
            && exists r :: r in rows && r.eventId == e && (r.error.Some? || (r.status.Some? && r.status.value >= 500))
  {
    var list := ListDlq(events, rows, endpoints, all);
    MaxFailingIsMax(rows, e);
    if ListedIn(list, e) {
      var x :| x in list && x.eventId == e;
      ListMembers(events, rows, endpoints, all, x);
      var v :| v in events && v.endpointId in endpoints && (all || !v.discarded) && x in EntriesOf(rows, v.id);
      EntriesAreLatest(rows, v.id, x);
      assert v.id == e;
    }
    if Visible(events, endpoints, all, e) && exists r :: r in rows && r.eventId == e && Failing(r) {
      var v :| v in events && v.id == e && v.endpointId in endpoints && (all || !v.discarded);
      var f :| f in rows && f.eventId == e && Failing(f) && f.attempt == MaxFailing(rows, e).value;
      var x := Show(f, CountRows(rows, e));
      assert Latest(rows, f);
      EntriesAreLatest(rows, e, x);
      ListMembers(events, rows, endpoints, all, x);
    }
  }

  /** Every entry shows a row with the event's largest failing attempt number, and counts all its rows. */
  lemma ShownRow(events: seq<EventRow>, rows: seq<AttemptRow>, endpoints: set<nat>, all: bool, x: Entry)
    returns (r: AttemptRow)
    requires x in ListDlq(events, rows, endpoints, all)
    ensures Latest(rows, r) && x == Show(r, CountRows(rows, r.eventId))
  {
    ListMembers(events, rows, endpoints, all, x);
    var v :| v in events && v.endpointId in endpoints && (all || !v.discarded) && x in EntriesOf(rows, v.id);
    EntriesAreLatest(rows, v.id, x);
    r :| Latest(rows, r) && r.eventId == v.id && x == Show(r, CountRows(rows, v.id));
  }

  // ---------------------------------------------------------------- what is not promised

  function RowsAt(rows: seq<AttemptRow>, e: nat, attempt: int): nat {
    if rows == [] then 0
    else
      RowsAt(rows[1..], e, attempt)
      + (if rows[0].eventId == e && rows[0].attempt == attempt then 1 else 0)
  }

  lemma {:induction false} JoinedSize(rows: seq<AttemptRow>, e: nat, last: int, total: nat)
    ensures |Joined(rows, e, last, total)| == RowsAt(rows, e, last)
  {
    if rows != [] {
      JoinedSize(rows[1..], e, last, total);
    }
  }

  /** A failed event has as many entries as it has rows, failing or not, with that attempt number. */
  lemma EntriesPerEvent(rows: seq<AttemptRow>, e: nat, r: AttemptRow)
    requires Latest(rows, r) && r.eventId == e
    ensures |EntriesOf(rows, e)| == RowsAt(rows, e, r.attempt)
  {
    LatestIsMax(rows, r);
    JoinedSize(rows, e, r.attempt, CountRows(rows, e));
  }

  /** The entries of an event all show failures exactly when all its rows with that number failed. */
  lemma EntriesShowFailures(rows: seq<AttemptRow>, e: nat)
    ensures (forall x :: x in EntriesOf(rows, e) ==>
              x.lastError.Some? || (x.lastStatus.Some? && x.lastStatus.value >= 500)) <==>
       (forall r :: Latest(rows, r) && r.eventId == e ==> Failing(r))
  {
    forall r | Latest(rows, r) && r.eventId == e
      ensures Show(r, CountRows(rows, e)) in EntriesOf(rows, e)
    {
      EntriesAreLatest(rows, e, Show(r, CountRows(rows, e)));
    }
    forall x | x in EntriesOf(rows, e)
      ensures exists r :: Latest(rows, r) && r.eventId == e && x == Show(r, CountRows(rows, e))
    {
      EntriesAreLatest(rows, e, x);
    }
  }

  /** With two routes, an event is listed twice, once with the other route's success. */
  lemma SuccessCanBeShown()
    ensures var failed, delivered := AttemptRow(1, 0, Some(503), None, "a"), AttemptRow(1, 0, Some(200), None, "b");
            ListDlq([EventRow(1, 7, false)], [failed, delivered], {7}, false)
            == [Entry(1, None, Some(503), "a", 2), Entry(1, None, Some(200), "b", 2)]
  {
    var failed, delivered := AttemptRow(1, 0, Some(503), None, "a"), AttemptRow(1, 0, Some(200), None, "b");
    var rows := [failed, delivered];
    assert rows[1..] == [delivered] && [delivered][1..] == [];
    assert MaxFailing([delivered], 1) == None && MaxFailing(rows, 1) == Some(0);
    assert CountRows([delivered], 1) == 1 && CountRows(rows, 1) == 2;
    assert Joined([delivered], 1, 0, 2) == [Show(delivered, 2)];
    assert [EventRow(1, 7, false)][1..] == [];
  }

  // ---------------------------------------------------------------- with the delivery engine

  /** The row a delivery of event `e` to `url` writes into the table. */
  function Stored(e: nat, url: string, r: Delivery.Row): AttemptRow {
    var status := Delivery.StatusOf(r.outcome);
    AttemptRow(e, r.attempt, if status.Some? then Some(status.value) else None, Delivery.ErrorOf(r.outcome), url)
  }

  /**
   A delivery that ended in the dead-letter topic, on an open breaker, or turned away by a rate
   limiter leaves its event in the listing, whatever else the table holds.
   */
  lemma FailedDeliveryIsListed(cfg: Delivery.Config, answers: seq<Delivery.Answer>, e: nat,
                               events: seq<EventRow>, rows: seq<AttemptRow>, endpoints: set<nat>, all: bool)
    requires Delivery.Legal(cfg, answers) && Delivery.Run(cfg, answers).phase.Done?
    requires forall r :: r in Delivery.Run(cfg, answers).rows ==> Stored(e, cfg.route.url, r) in rows
    requires Visible(events, endpoints, all, e)
    requires var d := Delivery.Run(cfg, answers);
             d.letter.Some? || (d.rows != [] && !d.rows[|d.rows| - 1].outcome.Answered?)
    ensures ListedIn(ListDlq(events, rows, endpoints, all), e)
  {
    var d := Delivery.Run(cfg, answers);
    Delivery.FailureLeavesTrace(cfg, answers);
    var last := d.rows[|d.rows| - 1];
    assert Delivery.FailingRow(last);
    assert Failing(Stored(e, cfg.route.url, last)) && last in d.rows;
    ListedIffFailed(events, rows, endpoints, all, e);
  }

  // ---------------------------------------------------------------- what the entries show

  function OfEvent(rows: seq<AttemptRow>, e: nat): seq<AttemptRow> {
    if rows == [] then []
    else (if rows[0].eventId == e then [rows[0]] else []) + OfEvent(rows[1..], e)
  }

  /** Rows of other events do not matter for an event's entries. */
  lemma {:induction false} OthersIrrelevant(rows: seq<AttemptRow>, e: nat, last: int, total: nat)
    ensures MaxFailing(rows, e) == MaxFailing(OfEvent(rows, e), e)
    ensures CountRows(rows, e) == |OfEvent(rows, e)|
    ensures Joined(rows, e, last, total) == Joined(OfEvent(rows, e), e, last, total)
  {
    if rows != [] {
      OthersIrrelevant(rows[1..], e, last, total);
      var rest := OfEvent(rows[1..], e);
      if rows[0].eventId == e {
        assert ([rows[0]] + rest)[1..] == rest;
      } else {
        assert [] + rest == rest;
        var joined := Joined(rows[1..], e, last, total);
        assert [] + joined == joined;
      }
    }
  }

  /** The rows of a finished delivery, as the table holds them. */
  function Table(e: nat, cfg: Delivery.Config, answers: seq<Delivery.Answer>): seq<AttemptRow>
    requires Delivery.Legal(cfg, answers)
  {
    var rows := Delivery.Run(cfg, answers).rows;
    seq(|rows|, i requires 0 <= i < |rows| => Stored(e, cfg.route.url, rows[i]))
  }

  lemma {:induction false} JoinedOnlyLast(rows: seq<AttemptRow>, e: nat, last: int, total: nat)
    requires rows != []
    requires forall i :: 0 <= i < |rows| ==> rows[i].eventId == e && (rows[i].attempt == last <==> i == |rows| - 1)
    ensures Joined(rows, e, last, total) == [Show(rows[|rows| - 1], total)]
  {
    if |rows| == 1 {
      assert Joined(rows[1..], e, last, total) == [];
    } else {
      JoinedOnlyLast(rows[1..], e, last, total);
      assert rows[0].attempt != last;
    }
  }

  /**
   When an event's rows are those of one finished delivery that failed, the event has one entry: the
   delivery's last row, with the number of its attempts.
   */
  lemma FailedDeliveryHasOneEntry(cfg: Delivery.Config, answers: seq<Delivery.Answer>, e: nat, rows: seq<AttemptRow>)
    requires Delivery.Legal(cfg, answers) && Delivery.Run(cfg, answers).phase.Done?
    requires OfEvent(rows, e) == Table(e, cfg, answers)
    requires var d := Delivery.Run(cfg, answers);
             d.rows != [] && Delivery.FailingRow(d.rows[|d.rows| - 1])
    ensures var d := Delivery.Run(cfg, answers);
            EntriesOf(rows, e) == [Show(Stored(e, cfg.route.url, d.rows[|d.rows| - 1]), |d.rows|)]
  {
    var d := Delivery.Run(cfg, answers);
    var table := Table(e, cfg, answers);
    var n := |d.rows| - 1;
    Delivery.FinishedAudit(cfg, answers);
    MaxFailingIsMax(table, e);
    assert table[n] in table && Failing(table[n]) && table[n].attempt == n;
    assert MaxFailing(table, e) == Some(n);
    OthersIrrelevant(rows, e, n, |table|);
    JoinedOnlyLast(table, e, n, |table|);
  }

  /** A delivery of the event, finished. */
  datatype Delivered = Delivered(cfg: Delivery.Config, answers: seq<Delivery.Answer>)

  ghost predicate Finished(d: Delivered) {
    Delivery.Legal(d.cfg, d.answers) && Delivery.Run(d.cfg, d.answers).phase.Done?
  }

  ghost predicate WrittenBy(d: Delivered, e: nat, r: AttemptRow)
    requires Finished(d)
  {
    r in Table(e, d.cfg, d.answers)
  }

  /** The event's rows are those of these finished deliveries, one for each route. */
  ghost predicate RowsOfAll(rows: seq<AttemptRow>, e: nat, all: seq<Delivered>) {
    && (forall k :: 0 <= k < |all| ==> Finished(all[k]))
    && forall r :: r in rows && r.eventId == e <==> exists k :: 0 <= k < |all| && WrittenBy(all[k], e, r)
  }

  /** The delivery ended at attempt `n`, with an answer below 500. */
  ghost predicate AnsweredAt(d: Delivered, n: int)
    requires Finished(d)
  {
    var rows := Delivery.Run(d.cfg, d.answers).rows;
    rows != [] && rows[|rows| - 1].attempt == n
    && rows[|rows| - 1].outcome.Answered? && rows[|rows| - 1].outcome.status < 500
  }

  predicate ShowsNoFailure(x: Entry) {
    x.lastError.None? && (x.lastStatus.Some? ==> x.lastStatus.value < 500)
  }

  /** A row of a finished delivery that is no failure is its last, and the destination's answer. */
  lemma HarmlessRowIsLast(d: Delivered, e: nat, r: AttemptRow)
    requires Finished(d) && WrittenBy(d, e, r) && !Failing(r)
    ensures AnsweredAt(d, r.attempt)
  {
    Delivery.FinishedAudit(d.cfg, d.answers);
    var rows, table := Delivery.Run(d.cfg, d.answers).rows, Table(e, d.cfg, d.answers);
    assert forall j :: 0 <= j < |rows| - 1 ==> Failing(table[j]);
    var i :| 0 <= i < |table| && table[i] == r;
    assert rows[i].outcome.Answered?;
  }

  lemma AnswerIsWritten(d: Delivered, e: nat, n: int) returns (r: AttemptRow)
    requires Finished(d) && AnsweredAt(d, n)
    ensures WrittenBy(d, e, r) && !Failing(r) && r.attempt == n && r.eventId == e
  {
    var rows, table := Delivery.Run(d.cfg, d.answers).rows, Table(e, d.cfg, d.answers);
    r := table[|rows| - 1];
  }

  ghost predicate SomeEntryHarmless(rows: seq<AttemptRow>, e: nat) {
    exists x :: x in EntriesOf(rows, e) && ShowsNoFailure(x)
  }

  /**
   An event delivered along any number of routes is listed with something that is no failure
   exactly when one of the deliveries ended, with an answer below 500, at the very attempt number
   that is the largest failing one of the event.
   */
  lemma HarmlessEntryIff(rows: seq<AttemptRow>, e: nat, all: seq<Delivered>)
    requires RowsOfAll(rows, e, all)
    ensures SomeEntryHarmless(rows, e) <==>
            && MaxFailing(rows, e).Some?
            && exists k :: 0 <= k < |all| && AnsweredAt(all[k], MaxFailing(rows, e).value)
  {
    if SomeEntryHarmless(rows, e) {
      var x :| x in EntriesOf(rows, e) && ShowsNoFailure(x);
      EntriesAreLatest(rows, e, x);
      var r :| Latest(rows, r) && r.eventId == e && x == Show(r, CountRows(rows, e));
      LatestIsMax(rows, r);
      var k :| 0 <= k < |all| && WrittenBy(all[k], e, r);
      HarmlessRowIsLast(all[k], e, r);
    }
    if MaxFailing(rows, e).Some? && exists k :: 0 <= k < |all| && AnsweredAt(all[k], MaxFailing(rows, e).value) {
      var n := MaxFailing(rows, e).value;
      var k :| 0 <= k < |all| && AnsweredAt(all[k], n);
      var r := AnswerIsWritten(all[k], e, n);
      assert r in rows;
      LatestIsMax(rows, r);
      EntriesAreLatest(rows, e, Show(r, CountRows(rows, e)));
    }
  }
}
