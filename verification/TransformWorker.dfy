/**
 The transform worker: a sequential consumer that handles a raw event, fans it out over the
 active routes of its endpoint, and then commits its offset.
 */
module TransformWorker {
  import opened Common
  import T = Transform

  datatype Event = Event(id: string, body: T.Json, headers: T.Json)

  datatype Route = Route(id: string, url: string, filter: Option<string>, pipeline: seq<T.Step>)

  /** The value of a raw-events message; absent or empty ids make it malformed. */
  datatype Raw = Raw(eventId: Option<string>, endpointId: Option<string>)

  datatype Message = Message(eventId: string, routeId: string, url: string, body: T.Json)

  /** A send that raises may or may not have appended its message. */
  datatype SendResult = Acked | RaisedAppended | RaisedLost

  /** The transform library and the filter evaluation, left uninterpreted. */
  datatype Env<!F> = Env(lib: T.Library<F>, matches: (string, Event) -> bool)

  /** What the database answers while one message is handled; a malformed uuid is not found either. */
  datatype Db = Db(event: string -> Option<Event>, activeRoutes: string -> seq<Route>)

  predicate Present(s: Option<string>) { s.Some? && s.value != "" }

  // ---------------------------------------------------------------- fan-out

  predicate Delivers<F>(env: Env<F>, event: Event, route: Route) {
    !Present(route.filter) || env.lib.strip(route.filter.value) == "" || env.matches(route.filter.value, event)
  }

  /** The message for one route; None when the filter or the pipeline keeps it back. */
  function Dispatched<F>(env: Env<F>, event: Event, route: Route): Option<Message> {
    if !Delivers(env, event, route) then None
    else
      var body := T.RunFrom(env.lib, route.pipeline, 0, event.body);
      if body.Err? then None else Some(Message(event.id, route.id, route.url, body.value))
  }

  /** The messages of all routes, in route order. */
  function Image<F>(env: Env<F>, event: Event, routes: seq<Route>): seq<Message> {
    if routes == [] then []
    else
      var last := Dispatched(env, event, routes[|routes| - 1]);
      Image(env, event, routes[..|routes| - 1]) + (if last.Some? then [last.value] else [])
  }

  /** Sends k = 0, 1, ... succeed up to the first that raises; that one may still have appended. */
  ghost predicate CutAtError(sent: seq<Message>, image: seq<Message>, answers: nat -> SendResult) {
    || (sent == image && forall k: nat :: k < |image| ==> answers(k) == Acked)
    || (exists m: nat :: m < |image| && (forall k: nat :: k < m ==> answers(k) == Acked)
                    && ((answers(m) == RaisedAppended && sent == image[..m + 1])
                        || (answers(m) == RaisedLost && sent == image[..m])))
  }

  /** The messages sent from number `i` on, as a function of the answers. */
  function Cut(image: seq<Message>, answers: nat -> SendResult, i: nat): seq<Message>
    decreases |image| - i
  {
    if i >= |image| then []
    else
      match answers(i)
      case Acked => [image[i]] + Cut(image, answers, i + 1)
      case RaisedAppended => [image[i]]
      case RaisedLost => []
  }

  lemma {:induction false} CutAfterAcks(image: seq<Message>, answers: nat -> SendResult, i: nat, j: nat)
    requires i <= j <= |image|
    requires forall k: nat :: i <= k < j ==> answers(k) == Acked
    ensures Cut(image, answers, i) == image[i..j] + Cut(image, answers, j)
    decreases j
  {
    if i == j {
      assert image[i..j] == [];
    } else {
      var rest := Cut(image, answers, j);
      CutAfterAcks(image, answers, i, j - 1);
      assert answers(j - 1) == Acked;
      assert Cut(image, answers, j - 1) == [image[j - 1]] + rest;
      assert image[i..j] == image[i..j - 1] + [image[j - 1]];
    }
  }

  /** What was sent is determined by the answers. */
  lemma CutIsUnique(sent: seq<Message>, image: seq<Message>, answers: nat -> SendResult)
    requires CutAtError(sent, image, answers)
    ensures sent == Cut(image, answers, 0)
  {
    if sent == image && forall k: nat :: k < |image| ==> answers(k) == Acked {
      CutAfterAcks(image, answers, 0, |image|);
    } else {
      var m: nat :| m < |image| && (forall k: nat :: k < m ==> answers(k) == Acked)
                    && ((answers(m) == RaisedAppended && sent == image[..m + 1])
                        || (answers(m) == RaisedLost && sent == image[..m]));
      CutAfterAcks(image, answers, 0, m);
      assert image[..m + 1] == image[..m] + [image[m]];
    }
  }

  /** What a message asks for: nothing when it is malformed or its event is not found. */
  function FullImage<F>(env: Env<F>, raw: Raw, db: Db): seq<Message> {
    if Present(raw.eventId) && Present(raw.endpointId) && db.event(raw.eventId.value).Some? then
      Image(env, db.event(raw.eventId.value).value, db.activeRoutes(raw.endpointId.value))
    else []
  }

  /** What handling one message emits. */
  function Emission<F>(env: Env<F>, raw: Raw, db: Db, answers: nat -> SendResult): seq<Message> {
    Cut(FullImage(env, raw, db), answers, 0)
  }

  /** What handling the messages from offset `first` up to `next` emits, in offset order. */
  function Emissions<F>(env: Env<F>, messages: seq<Raw>, first: nat, next: nat, db: nat -> Db,
                        answers: nat -> (nat -> SendResult)): seq<Message>
    requires first <= next <= |messages|
    decreases next
  {
    if first == next then []
    else
      Emissions(env, messages, first, next - 1, db, answers)
      + Emission(env, messages[next - 1], db(next - 1), answers(next - 1))
  }

  /** The committed offset after handling offsets `first` up to `next`, of which some commits succeed. */
  function LastCommit(commitOk: nat -> bool, before: nat, first: nat, next: nat): nat
    requires first <= next
    decreases next
  {
    if first == next then before
    else if commitOk(next - 1) then next
    else LastCommit(commitOk, before, first, next - 1)
  }

  /** It is the offset after the last message whose commit succeeded, and never goes back. */
  lemma {:induction false} LastCommitIsLast(commitOk: nat -> bool, before: nat, first: nat, next: nat)
    requires before <= first <= next
    ensures var c := LastCommit(commitOk, before, first, next);
            && before <= c <= next
            && (c == before || (first < c && commitOk(c - 1)))
            && forall o: nat :: c <= o && first <= o < next ==> !commitOk(o)
    decreases next
  {
    if first < next && !commitOk(next - 1) {
      LastCommitIsLast(commitOk, before, first, next - 1);
    }
  }

  lemma EmissionsSnoc<F>(before: seq<Message>, env: Env<F>, messages: seq<Raw>, first: nat, next: nat, db: nat -> Db,
                         answers: nat -> (nat -> SendResult))
    requires first <= next < |messages|
    ensures before + Emissions(env, messages, first, next, db, answers)
            + Emission(env, messages[next], db(next), answers(next))
         == before + Emissions(env, messages, first, next + 1, db, answers)
  {
  }

  /** The route wants the event, and the message carries what its pipeline makes of the event's body. */
  ghost predicate Carries<F>(env: Env<F>, event: Event, route: Route, m: Message) {
    && m.eventId == event.id && m.routeId == route.id && m.url == route.url
    && T.RunFrom(env.lib, route.pipeline, 0, event.body) == Ok(m.body)
    && (route.filter.None? || route.filter.value == "" || env.lib.strip(route.filter.value) == ""
        || env.matches(route.filter.value, event))
  }

  lemma DispatchedCarries<F>(env: Env<F>, event: Event, route: Route, m: Message)
    ensures Dispatched(env, event, route) == Some(m) <==> Carries(env, event, route, m)
  {
  }

  lemma DispatchedAll<F>(env: Env<F>, event: Event, route: Route)
    ensures forall m :: Dispatched(env, event, route) == Some(m) <==> Carries(env, event, route, m)
  {
    forall m
      ensures Dispatched(env, event, route) == Some(m) <==> Carries(env, event, route, m)
    {
      DispatchedCarries(env, event, route, m);
    }
  }

  /** A message is in the image exactly when some route of the endpoint asks for it. */
  lemma {:induction false} ImageFollowsRoutes<F>(env: Env<F>, event: Event, routes: seq<Route>, m: Message)
    ensures m in Image(env, event, routes) <==> exists i :: 0 <= i < |routes| && Carries(env, event, routes[i], m)
    decreases |routes|
  {
    if routes != [] {
      var n := |routes| - 1;
      ImageFollowsRoutes(env, event, routes[..n], m);
      DispatchedCarries(env, event, routes[n], m);
      if i :| 0 <= i < |routes| && Carries(env, event, routes[i], m) {
        if i < n { assert routes[..n][i] == routes[i]; }
      }
    }
  }

  /** One route yields one message or none; with ImageSplits this settles the image of any routes, order included. */
  lemma ImageOfOne<F>(env: Env<F>, event: Event, route: Route)
    ensures forall m :: Carries(env, event, route, m) ==> Image(env, event, [route]) == [m]
    ensures (forall m :: !Carries(env, event, route, m)) ==> Image(env, event, [route]) == []
  {
    var last := Dispatched(env, event, route);
    assert [route][..0] == [];
    if last.Some? {
      DispatchedCarries(env, event, route, last.value);
    }
    forall m | Carries(env, event, route, m)
      ensures Image(env, event, [route]) == [m]
    {
      DispatchedCarries(env, event, route, m);
    }
  }

  lemma {:induction false} ImageSplits<F>(env: Env<F>, event: Event, p: seq<Route>, q: seq<Route>)
    ensures Image(env, event, p + q) == Image(env, event, p) + Image(env, event, q)
    decreases |q|
  {
    if q == [] {
      assert p + q == p;
    } else {
      var n := |q| - 1;
      ImageSplits(env, event, p, q[..n]);
      assert p + q == (p + q[..n]) + [q[n]] && q == q[..n] + [q[n]];
      ImageOfLast(env, event, p + q, p + q[..n], q[n]);
      ImageOfLast(env, event, q, q[..n], q[n]);
    }
  }

  lemma ImageOfLast<F>(env: Env<F>, event: Event, routes: seq<Route>, init: seq<Route>, last: Route)
    requires routes == init + [last]
    ensures var m := Dispatched(env, event, last);
            Image(env, event, routes) == Image(env, event, init) + (if m.Some? then [m.value] else [])
  {
    assert routes[..|routes| - 1] == init;
  }

  /** The loop stops at route i, whose send raises. */
  lemma CutAtRoute<F>(env: Env<F>, event: Event, routes: seq<Route>, i: nat, answers: nat -> SendResult)
    requires i < |routes| && Dispatched(env, event, routes[i]).Some?
    requires forall k: nat :: k < |Image(env, event, routes[..i])| ==> answers(k) == Acked
    requires answers(|Image(env, event, routes[..i])|) != Acked
    ensures var sent, m := Image(env, event, routes[..i]), Dispatched(env, event, routes[i]).value;
            CutAtError(if answers(|sent|) == RaisedAppended then sent + [m] else sent,
                       Image(env, event, routes), answers)
  {
    var sent, m := Image(env, event, routes[..i]), Dispatched(env, event, routes[i]).value;
    assert routes == routes[..i + 1] + routes[i + 1..];
    ImageSplits(env, event, routes[..i + 1], routes[i + 1..]);
    assert routes[..i + 1][..i] == routes[..i];
    assert Image(env, event, routes[..i + 1]) == sent + [m];
    var image := Image(env, event, routes);
    assert image[..|sent|] == sent && image[..|sent| + 1] == sent + [m];
  }

  lemma ImageSnoc<F>(env: Env<F>, event: Event, routes: seq<Route>, i: nat)
    requires i < |routes|
    ensures var m := Dispatched(env, event, routes[i]);
            Image(env, event, routes[..i + 1]) == Image(env, event, routes[..i]) + (if m.Some? then [m.value] else [])
  {
    assert routes[..i + 1][..i] == routes[..i];
  }

  /** The first i routes are done, and every send so far succeeded. */
  ghost predicate SoFar<F>(env: Env<F>, event: Event, routes: seq<Route>, i: nat, sent: seq<Message>,
                           answers: nat -> SendResult)
    requires i <= |routes|
  {
    sent == Image(env, event, routes[..i]) && forall k: nat :: k < |sent| ==> answers(k) == Acked
  }

  lemma PastRoute<F>(env: Env<F>, event: Event, routes: seq<Route>, i: nat, sent: seq<Message>,
                     answers: nat -> SendResult)
    returns (more: seq<Message>)
    requires i < |routes| && SoFar(env, event, routes, i, sent, answers)
    requires Dispatched(env, event, routes[i]).None? || answers(|sent|) == Acked
    ensures SoFar(env, event, routes, i + 1, more, answers)
    ensures var m := Dispatched(env, event, routes[i]); more == if m.Some? then sent + [m.value] else sent
  {
    var m := Dispatched(env, event, routes[i]);
    ImageSnoc(env, event, routes, i);
    more := if m.Some? then sent + [m.value] else sent;
  }

  lemma StopAtRoute<F>(env: Env<F>, event: Event, routes: seq<Route>, i: nat, sent: seq<Message>,
                       answers: nat -> SendResult)
    returns (more: seq<Message>)
    requires i < |routes| && SoFar(env, event, routes, i, sent, answers)
    requires Dispatched(env, event, routes[i]).Some? && answers(|sent|) != Acked
    ensures CutAtError(more, Image(env, event, routes), answers)
    ensures more == if answers(|sent|) == RaisedAppended then sent + [Dispatched(env, event, routes[i]).value] else sent
  {
    CutAtRoute(env, event, routes, i, answers);
    more := if answers(|sent|) == RaisedAppended then sent + [Dispatched(env, event, routes[i]).value] else sent;
  }

  // ---------------------------------------------------------------- crashes and restarts

  /** How a handling ended: all sends done, a send that raised, or a crash somewhere in between. */
  datatype End = Completed | Raised | Interrupted

  /** One handling of the message at `offset`, with what the database and the sends answered. */
  datatype Handling = Handling(offset: nat, db: Db, results: seq<SendResult>, end: End)

  /** Where the loop is with the message at `offset`: fetched, being sent, or handled. */
  datatype Pc =
    | Ready
    | Fetched(offset: nat)
    | Sending(offset: nat, db: Db, results: seq<SendResult>, todo: seq<Message>)
    | Handled(offset: nat)

  /** Fetching moves `position` on; the group resumes at `committed`; `past` are the handlings that ended. */
  datatype State = State(position: nat, committed: nat, pc: Pc, topic: seq<Message>, past: seq<Handling>)

  const START := State(0, 0, Ready, [], [])

  /** Restart is a crash at any point, or the stop that drops a message just fetched. */
  datatype Step = Fetch | Begin(db: Db) | Send(result: SendResult) | Finish | Commit(taken: bool) | Restart

  predicate Enabled(messages: seq<Raw>, s: State, step: Step) {
    match step
    case Fetch => s.pc.Ready? && s.position < |messages|
    case Begin(_) => s.pc.Fetched? && s.pc.offset < |messages|
    case Send(_) => s.pc.Sending? && s.pc.todo != []
    case Finish => s.pc.Sending? && s.pc.todo == []
    case Commit(_) => s.pc.Handled?
    case Restart => true
  }

  function Ended(s: State, h: Handling, pc: Pc): State {
    s.(past := s.past + [h], pc := pc)
  }

  function Sent(s: State, result: SendResult): State
    requires s.pc.Sending? && s.pc.todo != []
  {
    var results := s.pc.results + [result];
    var t := s.(topic := if result == RaisedLost then s.topic else s.topic + [s.pc.todo[0]]);
    if result == Acked then t.(pc := Sending(s.pc.offset, s.pc.db, results, s.pc.todo[1..]))
    else Ended(t, Handling(s.pc.offset, s.pc.db, results, Raised), Handled(s.pc.offset))
  }

  /** The handling under way, as it stands if the worker crashes now. */
  function Current(pc: Pc): Handling
    requires pc.Sending?
  {
    Handling(pc.offset, pc.db, pc.results, Interrupted)
  }

  function Restarted(s: State): State {
    (if s.pc.Sending? then Ended(s, Current(s.pc), Ready) else s.(pc := Ready)).(position := s.committed)
  }

  function Apply<F>(env: Env<F>, messages: seq<Raw>, s: State, step: Step): State
    requires Enabled(messages, s, step)
  {
    match step
    case Fetch => s.(pc := Fetched(s.position), position := s.position + 1)
    case Begin(db) => s.(pc := Sending(s.pc.offset, db, [], FullImage(env, messages[s.pc.offset], db)))
    case Send(result) => Sent(s, result)
    case Finish => Ended(s, Current(s.pc).(end := Completed), Handled(s.pc.offset))
    case Commit(taken) => s.(pc := Ready, committed := if taken then s.position else s.committed)
    case Restart => Restarted(s)
  }

  predicate Possible<F>(env: Env<F>, messages: seq<Raw>, s: State, steps: seq<Step>)
    decreases |steps|
  {
    steps == [] ||
    (Enabled(messages, s, steps[0]) && Possible(env, messages, Apply(env, messages, s, steps[0]), steps[1..]))
  }

  function After<F>(env: Env<F>, messages: seq<Raw>, s: State, steps: seq<Step>): State
    requires Possible(env, messages, s, steps)
    decreases |steps|
  {
    if steps == [] then s else After(env, messages, Apply(env, messages, s, steps[0]), steps[1..])
  }

  // ---------------------------------------------------------------- the invariant

  /** The messages a handling has appended: one per send, but none for a last one that was lost. */
  function Appended(full: seq<Message>, results: seq<SendResult>): seq<Message>
    requires |results| <= |full|
  {
    if results != [] && results[|results| - 1] == RaisedLost then full[..|results| - 1] else full[..|results|]
  }

  ghost predicate AllAcked(results: seq<SendResult>, n: int) {
    forall k :: 0 <= k < n && k < |results| ==> results[k] == Acked
  }

  /** A handling goes through to the end, is cut at a send that raises, or is broken off anywhere. */
  ghost predicate HandlingOk<F>(env: Env<F>, messages: seq<Raw>, h: Handling) {
    h.offset < |messages| &&
    var full := FullImage(env, messages[h.offset], h.db);
    && |h.results| <= |full|
    && (match h.end
        case Completed => AllAcked(h.results, |h.results|) && |h.results| == |full|
        case Raised => h.results != [] && AllAcked(h.results, |h.results| - 1) && h.results[|h.results| - 1] != Acked
        case Interrupted => AllAcked(h.results, |h.results|))
  }

  ghost predicate PastOk<F>(env: Env<F>, messages: seq<Raw>, past: seq<Handling>) {
    forall i :: 0 <= i < |past| ==> HandlingOk(env, messages, past[i])
  }

  ghost function SentBy<F>(env: Env<F>, messages: seq<Raw>, h: Handling): seq<Message>
    requires HandlingOk(env, messages, h)
  {
    Appended(FullImage(env, messages[h.offset], h.db), h.results)
  }

  /** Everything the handlings appended, in order. */
  ghost function AllSent<F>(env: Env<F>, messages: seq<Raw>, past: seq<Handling>): seq<Message>
    requires PastOk(env, messages, past)
  {
    if past == [] then []
    else AllSent(env, messages, past[..|past| - 1]) + SentBy(env, messages, past[|past| - 1])
  }

  ghost predicate WasHandled(past: seq<Handling>, offset: nat) {
    exists i :: 0 <= i < |past| && past[i].offset == offset && !past[i].end.Interrupted?
  }

  /** Below this offset everything has been handled. */
  function Frontier(s: State): int {
    if s.pc.Fetched? || s.pc.Sending? then s.position - 1 else s.position
  }

  ghost predicate PcOk<F>(env: Env<F>, messages: seq<Raw>, pc: Pc, position: nat) {
    && (pc.Ready? || pc.offset + 1 == position)
    && (pc.Sending? ==>
          && HandlingOk(env, messages, Current(pc))
          && pc.todo == FullImage(env, messages[pc.offset], pc.db)[|pc.results|..])
  }

  ghost predicate FrontierOk(s: State) {
    && s.committed <= Frontier(s)
    && forall o: nat :: o < Frontier(s) ==> WasHandled(s.past, o)
  }

  ghost predicate Inv<F>(env: Env<F>, messages: seq<Raw>, s: State) {
    && s.position <= |messages| && PcOk(env, messages, s.pc, s.position) && FrontierOk(s)
    && PastOk(env, messages, s.past)
    && s.topic == AllSent(env, messages, s.past) + (if s.pc.Sending? then SentBy(env, messages, Current(s.pc)) else [])
  }

  lemma SentSnoc<F>(env: Env<F>, messages: seq<Raw>, past: seq<Handling>, h: Handling)
    requires PastOk(env, messages, past) && HandlingOk(env, messages, h)
    ensures PastOk(env, messages, past + [h])
    ensures AllSent(env, messages, past + [h]) == AllSent(env, messages, past) + SentBy(env, messages, h)
  {
    assert (past + [h])[..|past|] == past;
  }

  lemma HandledMore(past: seq<Handling>, h: Handling)
    ensures forall o: nat :: WasHandled(past, o) ==> WasHandled(past + [h], o)
    ensures !h.end.Interrupted? ==> WasHandled(past + [h], h.offset)
  {
    assert (past + [h])[|past|] == h;
    forall o: nat | WasHandled(past, o)
      ensures WasHandled(past + [h], o)
    {
      var i :| 0 <= i < |past| && past[i].offset == o && !past[i].end.Interrupted?;
      assert (past + [h])[i] == past[i];
    }
  }

  /** The handling under way ends as `h`, the topic holding what `h` appended. */
  lemma EndKeeps<F>(env: Env<F>, messages: seq<Raw>, s: State, h: Handling, t: State)
    requires s.position <= |messages| && s.pc.Sending? && s.pc.offset + 1 == s.position && FrontierOk(s)
    requires PastOk(env, messages, s.past) && HandlingOk(env, messages, h) && h.offset == s.pc.offset
    requires t.past == s.past + [h] && t.topic == AllSent(env, messages, s.past) + SentBy(env, messages, h)
    requires t.committed == s.committed
    requires if h.end.Interrupted? then t.pc == Ready && t.position == s.committed
             else t.pc == Handled(h.offset) && t.position == s.position
    ensures Inv(env, messages, t)
  {
    SentSnoc(env, messages, s.past, h);
    HandledMore(s.past, h);
  }

  /** A send adds to the handling what it adds to the topic. */
  lemma SendOk<F>(env: Env<F>, messages: seq<Raw>, h: Handling, more: Handling)
    requires HandlingOk(env, messages, h) && h.end.Interrupted?
    requires |h.results| < |FullImage(env, messages[h.offset], h.db)|
    requires |more.results| == |h.results| + 1 && forall k :: 0 <= k < |h.results| ==> more.results[k] == h.results[k]
    requires var result := more.results[|h.results|];
             more == h.(results := more.results, end := if result == Acked then Interrupted else Raised)
    ensures HandlingOk(env, messages, more)
    ensures SentBy(env, messages, more) == SentBy(env, messages, h)
              + (if more.results[|h.results|] == RaisedLost then []
                else [FullImage(env, messages[h.offset], h.db)[|h.results|]])
  {
    var full := FullImage(env, messages[h.offset], h.db);
    var n := |h.results|;
    assert SentBy(env, messages, h) == full[..n];
    assert full[..n + 1] == full[..n] + [full[n]];
  }

  lemma AckKeeps<F>(env: Env<F>, messages: seq<Raw>, s: State, more: Handling)
    requires Inv(env, messages, s) && Enabled(messages, s, Send(Acked))
    requires more == Current(Sent(s, Acked).pc) && HandlingOk(env, messages, more)
    requires Sent(s, Acked).topic == AllSent(env, messages, s.past) + SentBy(env, messages, more)
    ensures Inv(env, messages, Sent(s, Acked))
  {
    var full := FullImage(env, messages[more.offset], more.db);
    assert s.pc.todo[1..] == full[|more.results|..];
  }

  /** The handling under way after one more send. */
  function Extended(pc: Pc, result: SendResult): Handling
    requires pc.Sending?
  {
    Current(pc).(results := pc.results + [result], end := if result == Acked then Interrupted else Raised)
  }

  lemma SentTopic<F>(env: Env<F>, messages: seq<Raw>, s: State, result: SendResult, more: Handling)
    requires Inv(env, messages, s) && Enabled(messages, s, Send(result))
    requires more == Extended(s.pc, result)
    ensures HandlingOk(env, messages, more)
    ensures Sent(s, result).topic == AllSent(env, messages, s.past) + SentBy(env, messages, more)
  {
    var h := Current(s.pc);
    SendOk(env, messages, h, more);
    assert s.pc.todo[0] == FullImage(env, messages[h.offset], h.db)[|h.results|];
  }

  lemma SendKeeps<F>(env: Env<F>, messages: seq<Raw>, s: State, result: SendResult)
    requires Inv(env, messages, s) && Enabled(messages, s, Send(result))
    ensures Inv(env, messages, Sent(s, result))
  {
    var more := Extended(s.pc, result);
    SentTopic(env, messages, s, result, more);
    if result == Acked {
      AckKeeps(env, messages, s, more);
    } else {
      EndKeeps(env, messages, s, more, Sent(s, result));
    }
  }

  lemma StepKeeps<F>(env: Env<F>, messages: seq<Raw>, s: State, step: Step)
    requires Inv(env, messages, s) && Enabled(messages, s, step)
    ensures Inv(env, messages, Apply(env, messages, s, step))
  {
    match step {
      case Send(result) => SendKeeps(env, messages, s, result);
      case Finish => EndKeeps(env, messages, s, Current(s.pc).(end := Completed), Apply(env, messages, s, step));
      case Restart =>
        if s.pc.Sending? {
          EndKeeps(env, messages, s, Current(s.pc), Restarted(s));
        }
      case _ =>
    }
  }

  lemma {:induction false} InvAlways<F>(env: Env<F>, messages: seq<Raw>, s: State, steps: seq<Step>)
    requires Inv(env, messages, s) && Possible(env, messages, s, steps)
    ensures Inv(env, messages, After(env, messages, s, steps))
    decreases |steps|
  {
    if steps != [] {
      StepKeeps(env, messages, s, steps[0]);
      InvAlways(env, messages, Apply(env, messages, s, steps[0]), steps[1..]);
    }
  }

  // ---------------------------------------------------------------- the promises

  /** The results of a handling, as answers to its sends. */
  function AnswersOf(results: seq<SendResult>): nat -> SendResult {
    (k: nat) => if k < |results| then results[k] else Acked
  }

  /** A handling that came to its own end emitted its cut image; any other a prefix of the image. */
  lemma HandlingEmits<F>(env: Env<F>, messages: seq<Raw>, h: Handling)
    requires HandlingOk(env, messages, h)
    ensures SentBy(env, messages, h) <= FullImage(env, messages[h.offset], h.db)
    ensures !h.end.Interrupted? ==>
            SentBy(env, messages, h) == Emission(env, messages[h.offset], h.db, AnswersOf(h.results))
    ensures h.end.Completed? ==> SentBy(env, messages, h) == FullImage(env, messages[h.offset], h.db)
  {
    var full, answers := FullImage(env, messages[h.offset], h.db), AnswersOf(h.results);
    var n := |h.results|;
    if h.end.Completed? {
      assert full[..n] == full;
      CutIsUnique(full, full, answers);
    } else if h.end.Raised? {
      var m := n - 1;
      assert answers(m) != Acked;
      CutIsUnique(SentBy(env, messages, h), full, answers);
    }
  }

  ghost predicate Emits<F>(env: Env<F>, messages: seq<Raw>, h: Handling, sent: seq<Message>)
    requires h.offset < |messages|
  {
    if h.end.Interrupted? then sent <= FullImage(env, messages[h.offset], h.db)
    else sent == Emission(env, messages[h.offset], h.db, AnswersOf(h.results))
  }

  /**
   Over every run, with crashes and failed commits at any point: every offset below the committed
   one has a handling that came to its own end; and the topic is, in order, what the handlings
   emitted, each its image cut at the first send that raised, or a prefix of the image if a crash
   broke it off, followed by the part already sent of the handling under way.
   */
  lemma CommittedWasHandled<F>(env: Env<F>, messages: seq<Raw>, steps: seq<Step>) returns (current: seq<Message>)
    requires Possible(env, messages, START, steps)
    ensures var s := After(env, messages, START, steps);
            && s.committed <= s.position <= |messages|
            && (forall o: nat :: o < s.committed ==> WasHandled(s.past, o))
            && PastOk(env, messages, s.past) && s.topic == AllSent(env, messages, s.past) + current
            && (forall i :: 0 <= i < |s.past| ==> Emits(env, messages, s.past[i], SentBy(env, messages, s.past[i])))
            && (if s.pc.Sending? then s.pc.offset < |messages| && Emits(env, messages, Current(s.pc), current)
                else current == [])
  {
    InvAlways(env, messages, START, steps);
    var s := After(env, messages, START, steps);
    forall i | 0 <= i < |s.past|
      ensures Emits(env, messages, s.past[i], SentBy(env, messages, s.past[i]))
    {
      HandlingEmits(env, messages, s.past[i]);
    }
    current := [];
    if s.pc.Sending? {
      current := SentBy(env, messages, Current(s.pc));
      HandlingEmits(env, messages, Current(s.pc));
    }
  }

  lemma InRange<F>(env: Env<F>, messages: seq<Raw>, steps: seq<Step>)
    requires Possible(env, messages, START, steps)
    ensures After(env, messages, START, steps).position <= |messages|
  {
    InvAlways(env, messages, START, steps);
  }

  function Restarts(steps: seq<Step>): nat {
    if steps == [] then 0 else (if steps[0].Restart? then 1 else 0) + Restarts(steps[1..])
  }

  /** How often the handling of an offset was begun. */
  function Begun(past: seq<Handling>, o: nat): nat {
    if past == [] then 0 else Begun(past[..|past| - 1], o) + (if past[|past| - 1].offset == o then 1 else 0)
  }

  function BegunIn(s: State, o: nat): nat {
    Begun(s.past, o) + (if s.pc.Sending? && s.pc.offset == o then 1 else 0)
  }

  ghost predicate FewHandlings(s: State, r: nat) {
    forall o: nat :: BegunIn(s, o) <= r + (if o < (if s.pc.Fetched? then s.position - 1 else s.position) then 1 else 0)
  }

  lemma BegunStep<F>(env: Env<F>, messages: seq<Raw>, s: State, step: Step, o: nat)
    requires Enabled(messages, s, step)
    ensures BegunIn(Apply(env, messages, s, step), o)
            <= BegunIn(s, o) + (if step.Begin? && o == s.pc.offset then 1 else 0)
  {
    var t := Apply(env, messages, s, step);
    if t.past != s.past {
      assert t.past[..|t.past| - 1] == s.past;
    }
  }

  lemma StepHandlings<F>(env: Env<F>, messages: seq<Raw>, s: State, step: Step, r: nat)
    requires Inv(env, messages, s) && Enabled(messages, s, step) && FewHandlings(s, r)
    ensures FewHandlings(Apply(env, messages, s, step), if step.Restart? then r + 1 else r)
  {
    forall o: nat
      ensures BegunIn(Apply(env, messages, s, step), o)
              <= BegunIn(s, o) + (if step.Begin? && o == s.pc.offset then 1 else 0)
    {
      BegunStep(env, messages, s, step, o);
    }
  }

  lemma {:induction false} HandlingsBounded<F>(env: Env<F>, messages: seq<Raw>, s: State, steps: seq<Step>, r: nat)
    requires Inv(env, messages, s) && Possible(env, messages, s, steps) && FewHandlings(s, r)
    ensures FewHandlings(After(env, messages, s, steps), r + Restarts(steps))
    decreases |steps|
  {
    if steps != [] {
      StepKeeps(env, messages, s, steps[0]);
      StepHandlings(env, messages, s, steps[0], r);
      var r' := if steps[0].Restart? then r + 1 else r;
      HandlingsBounded(env, messages, Apply(env, messages, s, steps[0]), steps[1..], r');
    }
  }

  /** No message is handled more often than once, and once more for each restart. */
  lemma HandledOncePerRestart<F>(env: Env<F>, messages: seq<Raw>, steps: seq<Step>, o: nat)
    requires Possible(env, messages, START, steps)
    ensures BegunIn(After(env, messages, START, steps), o) <= 1 + Restarts(steps)
  {
    HandlingsBounded(env, messages, START, steps, 0);
  }

  // ---------------------------------------------------------------- the loop as a run

  ghost predicate Reached<F>(env: Env<F>, messages: seq<Raw>, steps: seq<Step>, s: State) {
    Possible(env, messages, START, steps) && s == After(env, messages, START, steps)
  }

  lemma {:induction false} Snoc<F>(env: Env<F>, messages: seq<Raw>, s: State, steps: seq<Step>, step: Step)
    requires Possible(env, messages, s, steps) && Enabled(messages, After(env, messages, s, steps), step)
    ensures Possible(env, messages, s, steps + [step])
    ensures After(env, messages, s, steps + [step]) == Apply(env, messages, After(env, messages, s, steps), step)
    decreases |steps|
  {
    if steps == [] {
      assert [step][1..] == [];
    } else {
      Snoc(env, messages, Apply(env, messages, s, steps[0]), steps[1..], step);
      assert (steps + [step])[1..] == steps[1..] + [step];
    }
  }

  lemma Go<F>(env: Env<F>, messages: seq<Raw>, steps: seq<Step>, s: State, step: Step)
    returns (more: seq<Step>, t: State)
    requires Reached(env, messages, steps, s) && Enabled(messages, s, step)
    ensures t == Apply(env, messages, s, step) && Reached(env, messages, more, t)
  {
    Snoc(env, messages, START, steps, step);
    more, t := steps + [step], Apply(env, messages, s, step);
  }

  /** The sends from number `i` on, until one raises or none is left. */
  lemma {:induction false} SendAll<F>(env: Env<F>, messages: seq<Raw>, steps: seq<Step>, s: State, full: seq<Message>,
                                      answers: nat -> SendResult, i: nat)
    returns (more: seq<Step>, t: State)
    requires Reached(env, messages, steps, s) && s.pc.Sending? && i <= |full| && s.pc.todo == full[i..]
    ensures Reached(env, messages, more, t) && t.pc == Handled(s.pc.offset)
    ensures t.topic == s.topic + Cut(full, answers, i) && t.position == s.position && t.committed == s.committed
    decreases |full| - i
  {
    if i == |full| {
      more, t := Go(env, messages, steps, s, Finish);
    } else {
      more, t := Go(env, messages, steps, s, Send(answers(i)));
      if answers(i) == Acked {
        assert s.pc.todo[1..] == full[i + 1..];
        var u := t;
        more, t := SendAll(env, messages, more, u, full, answers, i + 1);
        assert s.topic + ([full[i]] + Cut(full, answers, i + 1)) == (s.topic + [full[i]]) + Cut(full, answers, i + 1);
      }
    }
  }

  /** Handling a fetched message emits what `Emission` says, as steps of the loop. */
  lemma HandleFetched<F>(env: Env<F>, messages: seq<Raw>, steps: seq<Step>, s: State, db: Db,
                         answers: nat -> SendResult)
    returns (more: seq<Step>, t: State)
    requires Reached(env, messages, steps, s) && s.pc.Fetched? && s.pc.offset < |messages|
    ensures Reached(env, messages, more, t) && t.pc == Handled(s.pc.offset)
    ensures t.topic == s.topic + Emission(env, messages[s.pc.offset], db, answers)
    ensures t.position == s.position && t.committed == s.committed
  {
    var u;
    more, u := Go(env, messages, steps, s, Begin(db));
    var full := FullImage(env, messages[s.pc.offset], db);
    assert full[0..] == full;
    more, t := SendAll(env, messages, more, u, full, answers, 0);
  }

  // ---------------------------------------------------------------- the worker

  class TransformWorker<!F> {
    const env: Env<F>
    /** The raw-events partition. */
    const messages: seq<Raw>
    /** The transformed-events topic. */
    var transformed: seq<Message>
    /** The offset the group would resume from. */
    var committed: nat
    /** The offset of the next message to fetch. */
    var position: nat
    /** A message has been fetched and dropped. */
    var stopped: bool
    /** The steps taken so far, by this worker and by those before it. */
    ghost var trace: seq<Step>

    ghost predicate Agrees(s: State)
      reads this
    {
      transformed == s.topic && position == s.position && committed == s.committed
    }

    ghost predicate Valid()
      reads this
    {
      Possible(env, messages, START, trace) &&
      var s := After(env, messages, START, trace);
      && Agrees(s)
      && (if stopped then s.pc.Fetched? else s.pc.Ready?)
    }

    /** A worker joins a group whose workers have left this behind. */
    constructor (env: Env<F>, messages: seq<Raw>, transformed: seq<Message>, committed: nat, ghost trace: seq<Step>)
      requires Possible(env, messages, START, trace)
      requires var s := After(env, messages, START, trace);
               transformed == s.topic && committed == s.committed == s.position && s.pc.Ready?
      ensures Valid() && !stopped && this.env == env && this.messages == messages && this.trace == trace
    {
      this.env, this.messages, this.transformed, this.trace := env, messages, transformed, trace;
      this.committed, this.position, this.stopped := committed, committed, false;
    }

    /** One route; `ok` is false when the send raised. */
    method DispatchRoute(event: Event, route: Route, answer: SendResult) returns (ok: bool)
      modifies this`transformed
      ensures forall m :: Carries(env, event, route, m) ==>
                && ok == (answer == Acked)
                && transformed == if answer == RaisedLost then old(transformed) else old(transformed) + [m]
      ensures (forall m :: !Carries(env, event, route, m)) ==> ok && transformed == old(transformed)
    {
      if !Delivers(env, event, route) {
        return true;
      }
      var body := T.ApplyPipeline(env.lib, route.pipeline, event.body);
      if body.Err? {
        return true;
      }
      var m := Message(event.id, route.id, route.url, body.value);
      assert Carries(env, event, route, m);
      if answer != RaisedLost {
        transformed := transformed + [m];
      }
      return answer == Acked;
    }

    /** The next route, after the first i; `sends` are done so far. */
    method NextRoute(event: Event, routes: seq<Route>, i: nat, answers: nat -> SendResult, sends: nat,
                     ghost base: seq<Message>, ghost sent: seq<Message>)
      returns (ok: bool, n: nat, ghost more: seq<Message>)
      requires i < |routes| && SoFar(env, event, routes, i, sent, answers) && sends == |sent|
      requires transformed == base + sent
      modifies this`transformed
      ensures transformed == base + more
      ensures ok ==> SoFar(env, event, routes, i + 1, more, answers) && n == |more|
      ensures !ok ==> CutAtError(more, Image(env, event, routes), answers)
    {
      var m := Dispatched(env, event, routes[i]);
      ok := DispatchRoute(event, routes[i], answers(sends));
      DispatchedAll(env, event, routes[i]);
      n := if m.Some? then sends + 1 else sends;
      if ok {
        more := PastRoute(env, event, routes, i, sent, answers);
      } else {
        more := StopAtRoute(env, event, routes, i, sent, answers);
      }
    }

    /** All routes in turn, until one raises; `answers` speaks for the sends in order. */
    method ProcessEvent(event: Event, routes: seq<Route>, answers: nat -> SendResult) returns (ghost sent: seq<Message>)
      modifies this`transformed
      ensures transformed == old(transformed) + sent
      ensures CutAtError(sent, Image(env, event, routes), answers)
    {
      sent := [];
      var sends, i, ok := 0, 0, true;
      while i < |routes|
        invariant i <= |routes| && SoFar(env, event, routes, i, sent, answers) && sends == |sent|
        invariant transformed == old(transformed) + sent
      {
        ok, sends, sent := NextRoute(event, routes, i, answers, sends, old(transformed), sent);
        if !ok {
          return;
        }
        i := i + 1;
      }
      assert routes[..i] == routes;
    }

    /** A message that is malformed, or whose event or routes are missing, emits nothing; errors are swallowed. */
    method HandleMessage(raw: Raw, db: Db, answers: nat -> SendResult)
      modifies this`transformed
      ensures transformed == old(transformed) + Emission(env, raw, db, answers)
      ensures raw.eventId in {None, Some("")} || raw.endpointId in {None, Some("")} ==>
                transformed == old(transformed)
      ensures raw.eventId.Some? && db.event(raw.eventId.value).None? ==> transformed == old(transformed)
      ensures raw.eventId !in {None, Some("")} && raw.endpointId !in {None, Some("")} ==>
                db.event(raw.eventId.value).Some? ==>
                  var event, routes := db.event(raw.eventId.value).value, db.activeRoutes(raw.endpointId.value);
                  exists sent ::
                    transformed == old(transformed) + sent && CutAtError(sent, Image(env, event, routes), answers)
    {
      if !Present(raw.eventId) || !Present(raw.endpointId) {
        return;
      }
      var event := db.event(raw.eventId.value);
      if event.None? {
        return;
      }
      var routes := db.activeRoutes(raw.endpointId.value);
      ghost var sent;
      sent := ProcessEvent(event.value, routes, answers);
      CutIsUnique(sent, Image(env, event.value, routes), answers);
    }

    /** A restart, after a crash or a stop, resumes at the committed offset. */
    method Resume()
      requires Valid()
      modifies this`position, this`stopped, this`trace
      ensures Valid() && !stopped && position == committed
    {
      ghost var s := After(env, messages, START, trace);
      ghost var t;
      trace, t := Go(env, messages, trace, s, Restart);
      position, stopped := committed, false;
    }

    ghost predicate HasFetched(offset: nat)
      reads this
    {
      && offset < |messages| && position == offset + 1
      && Possible(env, messages, START, trace) && After(env, messages, START, trace).pc == Fetched(offset)
      && Agrees(After(env, messages, START, trace))
    }

    /** The next message is fetched; `wanted` is false when the stop signal has been noticed. */
    method FetchNext(wanted: bool)
      requires Valid() && !stopped && position < |messages|
      modifies this`position, this`stopped, this`trace
      ensures position == old(position) + 1 && stopped == !wanted
      ensures if stopped then Valid() else HasFetched(old(position))
    {
      ghost var s := After(env, messages, START, trace);
      trace, s := Go(env, messages, trace, s, Fetch);
      position := position + 1;
      stopped := !wanted;
    }

    /** The fetched message is handled, and its offset committed if the commit succeeds. */
    method Consume(offset: nat, db: Db, answers: nat -> SendResult, commitOk: bool)
      requires HasFetched(offset) && !stopped
      modifies this`transformed, this`committed, this`trace
      ensures Valid() && transformed == old(transformed) + Emission(env, messages[offset], db, answers)
      ensures committed == if commitOk then position else old(committed)
    {
      ghost var s := After(env, messages, START, trace);
      HandleMessage(messages[offset], db, answers);
      trace, s := HandleFetched(env, messages, trace, s, db, answers);
      if commitOk {
        committed := position;
      }
      trace, s := Go(env, messages, trace, s, Commit(commitOk));
    }

    /** Since `before`, the messages from `first` up to `next` have been handled. */
    ghost predicate Emitted(before: seq<Message>, first: nat, next: nat, db: nat -> Db,
                            answers: nat -> (nat -> SendResult))
      reads this`transformed
    {
      first <= next <= |messages| && transformed == before + Emissions(env, messages, first, next, db, answers)
    }

    /** From `earlier` on, the commits after the messages from `first` up to `next` have been made. */
    ghost predicate Saved(earlier: nat, first: nat, next: nat, commitOk: nat -> bool)
      reads this`committed
    {
      first <= next && committed == LastCommit(commitOk, earlier, first, next)
    }

    /** Consuming one message more, as seen from the start of the loop. */
    method ConsumeNext(offset: nat, db: nat -> Db, answers: nat -> (nat -> SendResult), commitOk: nat -> bool,
                       ghost before: seq<Message>, ghost earlier: nat, ghost first: nat)
      requires HasFetched(offset) && !stopped
      requires Emitted(before, first, offset, db, answers) && Saved(earlier, first, offset, commitOk)
      modifies this`transformed, this`committed, this`trace
      ensures Valid() && Emitted(before, first, offset + 1, db, answers) && Saved(earlier, first, offset + 1, commitOk)
    {
      EmissionsSnoc(before, env, messages, first, offset, db, answers);
      Consume(offset, db(offset), answers(offset), commitOk(offset));
    }

    /**
     The consumer loop: fetch, handle, commit; a failed commit is logged and the loop goes on.  The
     stop signal is noticed on the fetch after `stopAfter` messages, and that message is dropped.
     */
    method Run(stopAfter: nat, db: nat -> Db, answers: nat -> (nat -> SendResult), commitOk: nat -> bool)
      returns (handled: nat)
      requires Valid() && !stopped
      modifies this
      ensures Valid()
      ensures handled == if stopAfter < |messages| - old(position) then stopAfter else |messages| - old(position)
      ensures stopped <==> old(position) + handled < |messages|
      ensures position == old(position) + handled + (if stopped then 1 else 0)
      ensures Emitted(old(transformed), old(position), old(position) + handled, db, answers)
      ensures Saved(old(committed), old(position), old(position) + handled, commitOk)
    {
      handled := 0;
      InRange(env, messages, trace);
      ghost var first, before, earlier := position, transformed, committed;
      NothingYet(before, earlier, first, db, answers, commitOk);
      while position < |messages|
        invariant Valid() && !stopped && handled <= stopAfter && position == first + handled <= |messages|
        invariant Emitted(before, first, position, db, answers) && Saved(earlier, first, position, commitOk)
        decreases |messages| - position
      {
        var offset := position;
        FetchNext(handled != stopAfter);
        if stopped {
          return;
        }
        ConsumeNext(offset, db, answers, commitOk, before, earlier, first);
        handled := handled + 1;
      }
    }

    lemma NothingYet(before: seq<Message>, earlier: nat, first: nat, db: nat -> Db, answers: nat -> (nat -> SendResult),
                     commitOk: nat -> bool)
      requires first <= |messages| && transformed == before && committed == earlier
      ensures Emitted(before, first, first, db, answers) && Saved(earlier, first, first, commitOk)
    {
    }
  }
}
