/**
 Concurrent requests at the gateway: claiming an idempotency key and storing the event are
 separate steps, between which other requests run and the process may crash.
 */
module Idempotency {
  import opened Common
  import opened Gateway

  datatype Claim = Claim(key: DedupKey, at: Instant)

  /** A request that passed every check; the empty key stands for no key. */
  datatype Flight = Flight(key: DedupKey, claim: Option<nat>)

  /** All claims ever granted, the requests between claim and commit, the stored events, the duplicate replies. */
  datatype State = State(
    now: Instant, dedup: map<DedupKey, Instant>, claims: seq<Claim>,
    flights: map<nat, Flight>, stored: seq<Flight>, duplicates: seq<Claim>)

  const START := State(0, map[], [], map[], [], [])

  datatype Step =
    | Tick(later: Instant)
    | Pass(request: nat, key: DedupKey)
    | Store(request: nat)
    | Crash(request: nat)

  predicate Enabled(s: State, step: Step) {
    match step
    case Tick(later) => s.now <= later
    case Pass(r, _) => r !in s.flights
    case Store(r) => r in s.flights
    case Crash(r) => r in s.flights
  }

  function Passed(ttl: nat, s: State, r: nat, key: DedupKey): State {
    if key.1 == "" then s.(flights := s.flights[r := Flight(key, None)])
    else
      var (dedup, first) := SetNx(s.dedup, key, s.now, ttl);
      if first then
        s.(dedup := dedup, claims := s.claims + [Claim(key, s.now)],
          flights := s.flights[r := Flight(key, Some(|s.claims|))])
      else
        s.(dedup := dedup, duplicates := s.duplicates + [Claim(key, s.now)])
  }

  function Apply(ttl: nat, s: State, step: Step): State
    requires Enabled(s, step)
  {
    match step
    case Tick(later) => s.(now := later)
    case Pass(r, key) => Passed(ttl, s, r, key)
    case Store(r) => s.(stored := s.stored + [s.flights[r]], flights := s.flights - {r})
    case Crash(r) => s.(flights := s.flights - {r})
  }

  predicate Possible(ttl: nat, s: State, steps: seq<Step>)
    decreases |steps|
  {
    steps == [] || (Enabled(s, steps[0]) && Possible(ttl, Apply(ttl, s, steps[0]), steps[1..]))
  }

  function After(ttl: nat, s: State, steps: seq<Step>): State
    requires Possible(ttl, s, steps)
    decreases |steps|
  {
    if steps == [] then s else After(ttl, Apply(ttl, s, steps[0]), steps[1..])
  }

  // ---------------------------------------------------------------- the invariant

  ghost predicate Covers(ttl: nat, c: Claim, key: DedupKey, at: Instant) {
    c.key == key && c.at <= at < c.at + ttl
  }

  /** Some claim explains the duplicate reply. */
  ghost predicate Explained(ttl: nat, claims: seq<Claim>, d: Claim) {
    exists i :: 0 <= i < |claims| && Covers(ttl, claims[i], d.key, d.at)
  }

  /** Some claim set the deadline of the key. */
  ghost predicate Backed(ttl: nat, claims: seq<Claim>, key: DedupKey, deadline: Instant) {
    exists i :: 0 <= i < |claims| && claims[i].key == key && deadline == claims[i].at + ttl
  }

  /** Each claim's deadline is at most that of its key, and claims on one key are a time to live apart. */
  ghost predicate ClaimsOk(ttl: nat, now: Instant, dedup: map<DedupKey, Instant>, claims: seq<Claim>) {
    && (forall i :: 0 <= i < |claims| ==>
          claims[i].at <= now && claims[i].key in dedup && claims[i].at + ttl <= dedup[claims[i].key])
    && (forall i, j :: 0 <= i < j < |claims| && claims[i].key == claims[j].key ==> claims[i].at + ttl <= claims[j].at)
  }

  ghost predicate KeysBacked(ttl: nat, dedup: map<DedupKey, Instant>, claims: seq<Claim>) {
    forall key :: key in dedup ==> Backed(ttl, claims, key, dedup[key])
  }

  ghost predicate FlightOk(s: State, f: Flight) {
    if f.key.1 == "" then f.claim.None?
    else f.claim.Some? && f.claim.value < |s.claims| && s.claims[f.claim.value].key == f.key
  }

  ghost predicate OwnersOk(s: State) {
    && (forall r :: r in s.flights ==> FlightOk(s, s.flights[r]))
    && (forall i :: 0 <= i < |s.stored| ==> FlightOk(s, s.stored[i]))
    && (forall q, r :: q in s.flights && r in s.flights && q != r && s.flights[q].claim.Some? ==>
          s.flights[q].claim != s.flights[r].claim)
    && (forall r, i :: r in s.flights && 0 <= i < |s.stored| && s.flights[r].claim.Some? ==>
          s.flights[r].claim != s.stored[i].claim)
    && (forall i, j :: 0 <= i < j < |s.stored| && s.stored[i].claim.Some? ==> s.stored[i].claim != s.stored[j].claim)
  }

  ghost predicate DuplicatesOk(ttl: nat, s: State) {
    forall d :: 0 <= d < |s.duplicates| ==> Explained(ttl, s.claims, s.duplicates[d])
  }

  ghost predicate Inv(ttl: nat, s: State) {
    ClaimsOk(ttl, s.now, s.dedup, s.claims) && KeysBacked(ttl, s.dedup, s.claims) && OwnersOk(s) && DuplicatesOk(ttl, s)
  }

  lemma ClaimsGrow(ttl: nat, claims: seq<Claim>, c: Claim)
    ensures forall d :: Explained(ttl, claims, d) ==> Explained(ttl, claims + [c], d)
    ensures forall key, deadline :: Backed(ttl, claims, key, deadline) ==> Backed(ttl, claims + [c], key, deadline)
    ensures Backed(ttl, claims + [c], c.key, c.at + ttl)
  {
    var more := claims + [c];
    assert more[|claims|] == c;
    forall d | Explained(ttl, claims, d)
      ensures Explained(ttl, more, d)
    {
      var i :| 0 <= i < |claims| && Covers(ttl, claims[i], d.key, d.at);
      assert more[i] == claims[i];
    }
    forall key, deadline | Backed(ttl, claims, key, deadline)
      ensures Backed(ttl, more, key, deadline)
    {
      var i :| 0 <= i < |claims| && claims[i].key == key && deadline == claims[i].at + ttl;
      assert more[i] == claims[i];
    }
  }

  lemma NewClaimApart(ttl: nat, now: Instant, dedup: map<DedupKey, Instant>, claims: seq<Claim>, key: DedupKey)
    requires ClaimsOk(ttl, now, dedup, claims) && (key in dedup ==> dedup[key] <= now)
    ensures ClaimsOk(ttl, now, dedup[key := now + ttl], claims + [Claim(key, now)])
  {
    var more := claims + [Claim(key, now)];
    assert forall i :: 0 <= i < |claims| ==> more[i] == claims[i];
  }

  lemma NewClaimOwned(ttl: nat, s: State, r: nat, key: DedupKey)
    requires OwnersOk(s) && r !in s.flights && key.1 != "" && SetNx(s.dedup, key, s.now, ttl).1
    ensures OwnersOk(Passed(ttl, s, r, key))
  {
    var s' := Passed(ttl, s, r, key);
    forall q | q in s'.flights
      ensures FlightOk(s', s'.flights[q])
      ensures q != r ==> s'.flights[q].claim != s'.flights[r].claim
    {
      if q != r { assert FlightOk(s, s.flights[q]); }
    }
    forall i | 0 <= i < |s'.stored|
      ensures FlightOk(s', s'.stored[i]) && s'.stored[i].claim != s'.flights[r].claim
    {
      assert FlightOk(s, s.stored[i]);
    }
  }

  lemma NewClaimKeeps(ttl: nat, s: State, r: nat, key: DedupKey)
    requires Inv(ttl, s) && r !in s.flights && key.1 != "" && SetNx(s.dedup, key, s.now, ttl).1
    ensures Inv(ttl, Passed(ttl, s, r, key))
  {
    NewClaimApart(ttl, s.now, s.dedup, s.claims, key);
    NewClaimOwned(ttl, s, r, key);
    ClaimsGrow(ttl, s.claims, Claim(key, s.now));
  }

  lemma DuplicateKeeps(ttl: nat, s: State, r: nat, key: DedupKey)
    requires Inv(ttl, s) && r !in s.flights && key.1 != "" && !SetNx(s.dedup, key, s.now, ttl).1
    ensures Inv(ttl, Passed(ttl, s, r, key))
  {
    assert Backed(ttl, s.claims, key, s.dedup[key]);
    var i :| 0 <= i < |s.claims| && s.claims[i].key == key && s.dedup[key] == s.claims[i].at + ttl;
    assert Covers(ttl, s.claims[i], key, s.now);
    assert Explained(ttl, s.claims, Claim(key, s.now));
  }

  lemma StepKeeps(ttl: nat, s: State, step: Step)
    requires Inv(ttl, s) && Enabled(s, step)
    ensures Inv(ttl, Apply(ttl, s, step))
  {
    if step.Pass? && step.key.1 != "" {
      if SetNx(s.dedup, step.key, s.now, ttl).1 {
        NewClaimKeeps(ttl, s, step.request, step.key);
      } else {
        DuplicateKeeps(ttl, s, step.request, step.key);
      }
    }
  }

  lemma {:induction false} InvAlways(ttl: nat, s: State, steps: seq<Step>)
    requires Inv(ttl, s) && Possible(ttl, s, steps)
    ensures Inv(ttl, After(ttl, s, steps))
    decreases |steps|
  {
    if steps != [] {
      StepKeeps(ttl, s, steps[0]);
      InvAlways(ttl, Apply(ttl, s, steps[0]), steps[1..]);
    }
  }

  // ---------------------------------------------------------------- the promises

  /**
   Two stored events of one endpoint with the same non-empty key come from different claims,
   granted at least the time to live apart, in whatever order the requests ran.
   */
  lemma StoredApart(ttl: nat, steps: seq<Step>, i: nat, j: nat)
    requires Possible(ttl, START, steps)
    requires var s := After(ttl, START, steps);
             i < j < |s.stored| && s.stored[i].key == s.stored[j].key && s.stored[i].key.1 != ""
    ensures var s := After(ttl, START, steps);
            && s.stored[i].claim.Some? && s.stored[j].claim.Some?
            && var c, d := s.stored[i].claim.value, s.stored[j].claim.value;
            && c < |s.claims| && d < |s.claims| && c != d
            && s.claims[c].key == s.claims[d].key == s.stored[i].key
            && (s.claims[c].at + ttl <= s.claims[d].at || s.claims[d].at + ttl <= s.claims[c].at)
  {
    InvAlways(ttl, START, steps);
    var s := After(ttl, START, steps);
    assert FlightOk(s, s.stored[i]) && FlightOk(s, s.stored[j]);
  }

  /** A duplicate reply always has a claim on the same key behind it that is still within its time to live. */
  lemma DuplicateHasClaim(ttl: nat, steps: seq<Step>, d: nat) returns (c: nat)
    requires Possible(ttl, START, steps) && d < |After(ttl, START, steps).duplicates|
    ensures var s := After(ttl, START, steps);
            c < |s.claims| && Covers(ttl, s.claims[c], s.duplicates[d].key, s.duplicates[d].at)
  {
    InvAlways(ttl, START, steps);
    var s := After(ttl, START, steps);
    assert Explained(ttl, s.claims, s.duplicates[d]);
    c :| 0 <= c < |s.claims| && Covers(ttl, s.claims[c], s.duplicates[d].key, s.duplicates[d].at);
  }

  // ---------------------------------------------------------------- claims that come to nothing

  /** Claim `c` has ended in a stored event, or its request is still on the way to one. */
  ghost predicate Owned(s: State, c: nat) {
    || (exists r :: r in s.flights && s.flights[r].claim == Some(c))
    || (exists i :: 0 <= i < |s.stored| && s.stored[i].claim == Some(c))
  }

  predicate CrashOf(s: State, step: Step, c: nat) {
    step.Crash? && step.request in s.flights && s.flights[step.request].claim == Some(c)
  }

  /** The request that holds claim `c` crashes during the run, or its commit fails. */
  predicate OwnerCrashes(ttl: nat, s: State, steps: seq<Step>, c: nat)
    requires Possible(ttl, s, steps)
    decreases |steps|
  {
    steps != [] && (CrashOf(s, steps[0], c) || OwnerCrashes(ttl, Apply(ttl, s, steps[0]), steps[1..], c))
  }

  lemma CrashDisowns(ttl: nat, s: State, r: nat, c: nat)
    requires OwnersOk(s) && r in s.flights && s.flights[r].claim == Some(c)
    ensures !Owned(Apply(ttl, s, Crash(r)), c)
  {
  }

  /** No other step takes a claim's owner away, and none gives a claim its owner back. */
  lemma OwnedStep(ttl: nat, s: State, step: Step, c: nat)
    requires OwnersOk(s) && Enabled(s, step) && !CrashOf(s, step, c) && c < |s.claims|
    ensures Owned(Apply(ttl, s, step), c) <==> Owned(s, c)
  {
    var s' := Apply(ttl, s, step);
    if Owned(s, c) {
      if r :| r in s.flights && s.flights[r].claim == Some(c) {
        if step == Store(r) {
          assert s'.stored[|s.stored|].claim == Some(c);
        } else {
          assert s'.flights[r] == s.flights[r];
        }
      } else {
        var i :| 0 <= i < |s.stored| && s.stored[i].claim == Some(c);
        assert s'.stored[i] == s.stored[i];
      }
    }
    if Owned(s', c) && step.Store? {
      if i :| 0 <= i < |s'.stored| && s'.stored[i].claim == Some(c) {
        if i < |s.stored| { assert s.stored[i] == s'.stored[i]; }
      }
    }
  }

  lemma ClaimsStay(ttl: nat, s: State, step: Step)
    requires Enabled(s, step)
    ensures s.claims <= Apply(ttl, s, step).claims && s.stored <= Apply(ttl, s, step).stored
    ensures s.now <= Apply(ttl, s, step).now && s.duplicates <= Apply(ttl, s, step).duplicates
  {
  }

  lemma NewClaimHasOwner(ttl: nat, s: State, step: Step, c: nat)
    requires Inv(ttl, s) && Enabled(s, step) && |s.claims| <= c
    ensures !CrashOf(s, step, c)
    ensures c < |Apply(ttl, s, step).claims| ==> Owned(Apply(ttl, s, step), c)
  {
    var s' := Apply(ttl, s, step);
    if step.Crash? {
      assert FlightOk(s, s.flights[step.request]);
    }
    if step.Pass? && c < |s'.claims| {
      assert s'.flights[step.request].claim == Some(c);
    }
  }

  /**
   Over every run a claim, whether it was there at the start or granted on the way, has an owner
   at the end exactly if it had one and its owner did not crash.
   */
  lemma {:induction false} OwnedUnlessCrash(ttl: nat, s: State, steps: seq<Step>, c: nat)
    requires Inv(ttl, s) && Possible(ttl, s, steps) && c < |After(ttl, s, steps).claims|
    ensures Owned(After(ttl, s, steps), c) <==> (c < |s.claims| ==> Owned(s, c)) && !OwnerCrashes(ttl, s, steps, c)
    decreases |steps|
  {
    if steps != [] {
      var s' := Apply(ttl, s, steps[0]);
      StepKeeps(ttl, s, steps[0]);
      OwnedUnlessCrash(ttl, s', steps[1..], c);
      ClaimsStay(ttl, s, steps[0]);
      if c >= |s.claims| {
        NewClaimHasOwner(ttl, s, steps[0], c);
      } else if CrashOf(s, steps[0], c) {
        CrashDisowns(ttl, s, steps[0].request, c);
      } else {
        OwnedStep(ttl, s, steps[0], c);
      }
    }
  }

  ghost predicate StoredFor(s: State, c: nat) {
    exists i :: 0 <= i < |s.stored| && s.stored[i].claim == Some(c)
  }

  /** Once nobody is on the way, a claim has led to a stored event exactly if its request did not crash. */
  lemma ClaimIsStoredIff(ttl: nat, steps: seq<Step>, c: nat)
    requires Possible(ttl, START, steps) && After(ttl, START, steps).flights == map[]
    requires c < |After(ttl, START, steps).claims|
    ensures StoredFor(After(ttl, START, steps), c) <==> !OwnerCrashes(ttl, START, steps, c)
  {
    OwnedUnlessCrash(ttl, START, steps, c);
  }

  /**
   Behind a duplicate reply there is exactly one claim within its time to live, and it has ended in
   a stored event or is still on the way to one if and only if its request has not crashed.
   */
  lemma DuplicateIsBackedIff(ttl: nat, steps: seq<Step>, d: nat) returns (c: nat)
    requires Possible(ttl, START, steps) && d < |After(ttl, START, steps).duplicates|
    ensures var s := After(ttl, START, steps);
            && c < |s.claims|
            && (forall i :: 0 <= i < |s.claims| ==>
                  (Covers(ttl, s.claims[i], s.duplicates[d].key, s.duplicates[d].at) <==> i == c))
            && (Owned(s, c) <==> !OwnerCrashes(ttl, START, steps, c))
  {
    c := DuplicateHasClaim(ttl, steps, d);
    InvAlways(ttl, START, steps);
    OwnedUnlessCrash(ttl, START, steps, c);
  }

  // ---------------------------------------------------------------- what becomes of every request

  function PassesOn(steps: seq<Step>, key: DedupKey): nat {
    if steps == [] then 0
    else PassesOn(steps[1..], key) + (if steps[0].Pass? && steps[0].key == key then 1 else 0)
  }

  function RepliesOn(replies: seq<Claim>, key: DedupKey): nat {
    if replies == [] then 0
    else
      var n := |replies| - 1;
      RepliesOn(replies[..n], key) + (if replies[n].key == key then 1 else 0)
  }

  function InFlight(s: State, key: DedupKey): set<nat> {
    set r | r in s.flights && s.flights[r].key == key
  }

  function StoredOn(stored: seq<Flight>, key: DedupKey): nat {
    if stored == [] then 0
    else
      var n := |stored| - 1;
      StoredOn(stored[..n], key) + (if stored[n].key == key then 1 else 0)
  }

  /** Requests with the key that crash during the run. */
  function CrashesOn(ttl: nat, s: State, steps: seq<Step>, key: DedupKey): nat
    requires Possible(ttl, s, steps)
    decreases |steps|
  {
    if steps == [] then 0
    else
      CrashesOn(ttl, Apply(ttl, s, steps[0]), steps[1..], key)
      + (if steps[0].Crash? && s.flights[steps[0].request].key == key then 1 else 0)
  }

  /** Requests with the key that are on their way, stored, or answered "duplicate". */
  function Account(s: State, key: DedupKey): nat {
    |InFlight(s, key)| + StoredOn(s.stored, key) + RepliesOn(s.duplicates, key)
  }

  lemma Departs(s: State, s': State, r: nat, key: DedupKey)
    requires r in s.flights && s'.flights == s.flights - {r}
    ensures |InFlight(s, key)| == |InFlight(s', key)| + (if s.flights[r].key == key then 1 else 0)
  {
    if s.flights[r].key == key {
      assert InFlight(s, key) == InFlight(s', key) + {r};
    } else {
      assert InFlight(s, key) == InFlight(s', key);
    }
  }

  lemma Arrives(s: State, s': State, r: nat, f: Flight, key: DedupKey)
    requires r !in s.flights && s'.flights == s.flights[r := f]
    ensures |InFlight(s', key)| == |InFlight(s, key)| + (if f.key == key then 1 else 0)
  {
    if f.key == key {
      assert InFlight(s', key) == InFlight(s, key) + {r};
    } else {
      assert InFlight(s', key) == InFlight(s, key);
    }
  }

  lemma AccountStep(ttl: nat, s: State, step: Step, key: DedupKey)
    requires Enabled(s, step)
    ensures Account(s, key) + (if step.Pass? && step.key == key then 1 else 0)
         == Account(Apply(ttl, s, step), key)
            + (if step.Crash? && s.flights[step.request].key == key then 1 else 0)
  {
    var s' := Apply(ttl, s, step);
    match step {
      case Tick(_) =>
      case Pass(r, k) =>
        if s'.duplicates == s.duplicates {
          Arrives(s, s', r, s'.flights[r], key);
        } else {
          assert s'.duplicates[..|s.duplicates|] == s.duplicates;
        }
      case Store(r) =>
        Departs(s, s', r, key);
        assert s'.stored[..|s.stored|] == s.stored;
      case Crash(r) =>
        Departs(s, s', r, key);
    }
  }

  lemma KeylessStep(ttl: nat, s: State, step: Step, key: DedupKey)
    requires Enabled(s, step) && key.1 == ""
    ensures RepliesOn(Apply(ttl, s, step).duplicates, key) == RepliesOn(s.duplicates, key)
  {
    var s' := Apply(ttl, s, step);
    if s'.duplicates != s.duplicates {
      assert s'.duplicates[..|s.duplicates|] == s.duplicates;
    }
  }

  /**
   Conservation: of the requests with a key that passed every check during a run, each is stored, on
   its way, crashed, or answered "duplicate"; and without a key none is answered "duplicate".
   */
  lemma {:induction false} RequestsConserved(ttl: nat, s: State, steps: seq<Step>, key: DedupKey)
    requires Possible(ttl, s, steps)
    ensures var t := After(ttl, s, steps);
            && Account(s, key) + PassesOn(steps, key) == Account(t, key) + CrashesOn(ttl, s, steps, key)
            && (key.1 == "" ==> RepliesOn(t.duplicates, key) == RepliesOn(s.duplicates, key))
    decreases |steps|
  {
    if steps != [] {
      AccountStep(ttl, s, steps[0], key);
      if key.1 == "" { KeylessStep(ttl, s, steps[0], key); }
      RequestsConserved(ttl, Apply(ttl, s, steps[0]), steps[1..], key);
    }
  }

  /** Without a key, every request that passed the checks is stored, on its way, or crashed. */
  lemma KeylessConserved(ttl: nat, steps: seq<Step>, endpoint: string)
    requires Possible(ttl, START, steps)
    ensures var t, key := After(ttl, START, steps), (endpoint, "");
            PassesOn(steps, key) == StoredOn(t.stored, key) + |InFlight(t, key)| + CrashesOn(ttl, START, steps, key)
  {
    RequestsConserved(ttl, START, steps, (endpoint, ""));
    assert InFlight(START, (endpoint, "")) == {};
  }

  // ---------------------------------------------------------------- while a claim is alive

  /** The events stored after the first `from` whose key is `key` were in flight in `s`. */
  ghost predicate OnlyFrom(s: State, stored: seq<Flight>, from: nat, key: DedupKey) {
    forall i :: from <= i < |stored| && stored[i].key == key ==>
      exists r :: r in s.flights && s.flights[r] == stored[i]
  }

  /** Requests on the key are not admitted: who is in flight on it was so before. */
  ghost predicate NoneAdded(s: State, t: State, key: DedupKey) {
    forall r :: r in t.flights && t.flights[r].key == key ==> r in s.flights && s.flights[r] == t.flights[r]
  }

  lemma AliveStep(ttl: nat, s: State, step: Step, key: DedupKey, c: nat)
    requires Inv(ttl, s) && Enabled(s, step) && c < |s.claims| && s.claims[c].key == key && key.1 != ""
    requires Apply(ttl, s, step).now < s.claims[c].at + ttl
    ensures var s' := Apply(ttl, s, step);
            && NoneGranted(s'.claims, |s.claims|, key)
            && OnlyFrom(s, s'.stored, |s.stored|, key) && NoneAdded(s, s', key)
  {
  }

  lemma AliveReply(ttl: nat, s: State, step: Step, key: DedupKey, c: nat)
    requires Inv(ttl, s) && Enabled(s, step) && c < |s.claims| && s.claims[c].key == key && key.1 != ""
    requires s.now < s.claims[c].at + ttl
    ensures RepliesOn(Apply(ttl, s, step).duplicates, key)
         == RepliesOn(s.duplicates, key) + (if step.Pass? && step.key == key then 1 else 0)
  {
    var s' := Apply(ttl, s, step);
    if s'.duplicates != s.duplicates {
      assert s'.duplicates[..|s'.duplicates| - 1] == s.duplicates;
    }
  }

  lemma OnlyFromThrough(s: State, s': State, stored: seq<Flight>, key: DedupKey)
    requires s.stored <= s'.stored <= stored && NoneAdded(s, s', key)
    requires OnlyFrom(s, s'.stored, |s.stored|, key) && OnlyFrom(s', stored, |s'.stored|, key)
    ensures OnlyFrom(s, stored, |s.stored|, key)
  {
    forall i | |s.stored| <= i < |stored| && stored[i].key == key
      ensures exists r :: r in s.flights && s.flights[r] == stored[i]
    {
      if i < |s'.stored| {
        assert stored[i] == s'.stored[i];
      } else {
        var r :| r in s'.flights && s'.flights[r] == stored[i];
        assert r in s.flights && s.flights[r] == s'.flights[r];
      }
    }
  }

  ghost predicate NoneGranted(claims: seq<Claim>, from: nat, key: DedupKey) {
    forall i :: from <= i < |claims| ==> claims[i].key != key
  }

  lemma NoneGrantedThrough(a: seq<Claim>, b: seq<Claim>, c: seq<Claim>, key: DedupKey)
    requires a <= b <= c && NoneGranted(b, |a|, key) && NoneGranted(c, |b|, key)
    ensures NoneGranted(c, |a|, key)
  {
    forall i | |a| <= i < |c|
      ensures c[i].key != key
    {
      if i < |b| { assert c[i] == b[i]; }
    }
  }

  /**
   While claim `c` is alive, whatever becomes of its request: every request with its key is
   answered "duplicate", no claim is granted on the key, and nothing is stored under the key but
   what was already on its way.
   */
  lemma {:induction false} RetriesAreDuplicates(ttl: nat, s: State, steps: seq<Step>, key: DedupKey, c: nat)
    requires Inv(ttl, s) && Possible(ttl, s, steps) && c < |s.claims| && s.claims[c].key == key && key.1 != ""
    requires After(ttl, s, steps).now < s.claims[c].at + ttl
    ensures var t := After(ttl, s, steps);
            && s.claims <= t.claims && s.stored <= t.stored && s.now <= t.now
            && NoneGranted(t.claims, |s.claims|, key)
            && RepliesOn(t.duplicates, key) == RepliesOn(s.duplicates, key) + PassesOn(steps, key)
            && OnlyFrom(s, t.stored, |s.stored|, key)
    decreases |steps|
  {
    if steps != [] {
      var s' := Apply(ttl, s, steps[0]);
      var t := After(ttl, s, steps);
      StepKeeps(ttl, s, steps[0]);
      ClaimsStay(ttl, s, steps[0]);
      TimePasses(ttl, s', steps[1..]);
      RetriesAreDuplicates(ttl, s', steps[1..], key, c);
      AliveStep(ttl, s, steps[0], key, c);
      AliveReply(ttl, s, steps[0], key, c);
      OnlyFromThrough(s, s', t.stored, key);
      NoneGrantedThrough(s.claims, s'.claims, t.claims, key);
    }
  }

  lemma {:induction false} TimePasses(ttl: nat, s: State, steps: seq<Step>)
    requires Possible(ttl, s, steps)
    ensures s.now <= After(ttl, s, steps).now
    decreases |steps|
  {
    if steps != [] {
      TimePasses(ttl, Apply(ttl, s, steps[0]), steps[1..]);
    }
  }

  /**
   After the request that holds claim `c` has crashed, the claim never leads to an event; and for
   as long as it is alive every retry is answered "duplicate" and, unless a request with an older
   claim on the key was still on its way, no event is stored under the key.
   */
  lemma CrashLosesClaim(ttl: nat, steps: seq<Step>, r: nat, more: seq<Step>)
    requires Possible(ttl, START, steps)
    requires var s := After(ttl, START, steps);
             && r in s.flights && s.flights[r].claim.Some? && Possible(ttl, Apply(ttl, s, Crash(r)), more)
    ensures var s := After(ttl, START, steps);
            var key, c, t := s.flights[r].key, s.flights[r].claim.value, After(ttl, Apply(ttl, s, Crash(r)), more);
            && !Owned(t, c) && c < |s.claims| && s.claims[c].key == key
            && (t.now < s.claims[c].at + ttl ==>
                  && RepliesOn(t.duplicates, key) == RepliesOn(s.duplicates, key) + PassesOn(more, key)
                  && NoneGranted(t.claims, |s.claims|, key)
                  && ((forall q :: q in s.flights && q != r ==> s.flights[q].key != key) ==>
                        forall i :: |s.stored| <= i < |t.stored| ==> t.stored[i].key != key))
  {
    InvAlways(ttl, START, steps);
    var s := After(ttl, START, steps);
    var s' := Apply(ttl, s, Crash(r));
    var key, c, t := s.flights[r].key, s.flights[r].claim.value, After(ttl, s', more);
    assert FlightOk(s, s.flights[r]);
    StepKeeps(ttl, s, Crash(r));
    CrashDisowns(ttl, s, r, c);
    ClaimsOnlyGrow(ttl, s', more);
    OwnedUnlessCrash(ttl, s', more, c);
    if t.now < s.claims[c].at + ttl {
      RetriesAreDuplicates(ttl, s', more, key, c);
    }
  }

  lemma {:induction false} ClaimsOnlyGrow(ttl: nat, s: State, steps: seq<Step>)
    requires Possible(ttl, s, steps)
    ensures s.claims <= After(ttl, s, steps).claims
    decreases |steps|
  {
    if steps != [] {
      ClaimsStay(ttl, s, steps[0]);
      ClaimsOnlyGrow(ttl, Apply(ttl, s, steps[0]), steps[1..]);
    }
  }

  /** Two steps and more, one at a time. */
  lemma RunOf(ttl: nat, s: State, steps: seq<Step>)
    requires steps != [] && Enabled(s, steps[0]) && Possible(ttl, Apply(ttl, s, steps[0]), steps[1..])
    ensures Possible(ttl, s, steps) && After(ttl, s, steps) == After(ttl, Apply(ttl, s, steps[0]), steps[1..])
  {
  }

  /** Such a crash does happen: no event is stored, and a retry is answered "duplicate". */
  lemma CrashAfterClaimLosesEvent(ttl: nat, key: DedupKey) returns (steps: seq<Step>)
    requires ttl > 0 && key.1 != ""
    ensures Possible(ttl, START, steps)
    ensures After(ttl, START, steps).stored == [] && After(ttl, START, steps).duplicates == [Claim(key, 0)]
  {
    steps := [Pass(0, key), Crash(0), Pass(1, key)];
    var s1 := Apply(ttl, START, steps[0]);
    var s2 := Apply(ttl, s1, steps[1]);
    assert steps[1..] == [Crash(0), Pass(1, key)] && steps[1..][1..] == [Pass(1, key)] && steps[1..][1..][1..] == [];
    RunOf(ttl, s2, [Pass(1, key)]);
    RunOf(ttl, s1, steps[1..]);
    RunOf(ttl, START, steps);
  }

  /**
   The exception is real: a request that outlived its own claim stores its event under the key
   while the claim of a crashed request is alive.
   */
  lemma SlowRequestStoresLate(ttl: nat, key: DedupKey) returns (steps: seq<Step>)
    requires ttl > 0 && key.1 != ""
    ensures Possible(ttl, START, steps)
    ensures var s := After(ttl, START, steps);
            && s.claims == [Claim(key, 0), Claim(key, ttl)] && s.now < s.claims[1].at + ttl
            && OwnerCrashes(ttl, START, steps, 1) && s.stored == [Flight(key, Some(0))]
  {
    steps := [Pass(0, key), Tick(ttl), Pass(1, key), Crash(1), Store(0)];
    var s1 := Apply(ttl, START, steps[0]);
    var s2 := Apply(ttl, s1, steps[1]);
    var s3 := Apply(ttl, s2, steps[2]);
    var s4 := Apply(ttl, s3, steps[3]);
    assert steps[1..][1..] == steps[2..] && steps[2..][1..] == steps[3..]
      && steps[3..][1..] == steps[4..] == [Store(0)];
    assert steps[4..][1..] == [];
    RunOf(ttl, s4, steps[4..]);
    RunOf(ttl, s3, steps[3..]);
    RunOf(ttl, s2, steps[2..]);
    RunOf(ttl, s1, steps[1..]);
    RunOf(ttl, START, steps);
    assert OwnerCrashes(ttl, s3, steps[3..], 1);
    assert OwnerCrashes(ttl, s2, steps[2..], 1);
    assert OwnerCrashes(ttl, s1, steps[1..], 1);
  }
}
