/**
 The ingestion gateway: an ordered list of checks, an idempotency claim in Redis, and one
 transaction that stores the event with its outbox record.
 */
module Gateway {
  import opened Common
  import RL = RateLimiter

  type Body = seq<bv8>

  datatype Endpoint = Endpoint(
    id: string, active: bool, allowlist: seq<string>, rateLimitRps: Option<int>, secret: string, schema: Option<string>)

  /** A header that is absent is None; the body arrives in chunks. */
  datatype Request = Request(
    endpointId: string, chunks: seq<Body>, host: Option<string>, signature: Option<string>,
    idempotencyKey: Option<string>)

  /** The libraries the gateway calls, left uninterpreted; None stands for a raised error. */
  datatype Library<!Json> = Library(
    uuid: string -> Option<string>,
    ip: string -> Option<string>,
    inNetwork: (string, string) -> Option<bool>,
    hexDigest: (string, Body) -> string,
    parse: Body -> Option<Json>,
    conforms: (string, Json) -> bool)

  /** Failed is the 500 of a database transaction that does not commit. */
  datatype Response = Accepted(event: nat) | Duplicate | Rejected(code: nat) | Failed

  datatype Event = Event(id: nat, endpoint: string, key: Option<string>)

  datatype OutboxRow = OutboxRow(event: nat, publishKey: string)

  // ---------------------------------------------------------------- the body

  function Concat(chunks: seq<Body>): Body {
    if chunks == [] then [] else chunks[0] + Concat(chunks[1..])
  }

  lemma {:induction false} ConcatSplit(chunks: seq<Body>, i: nat)
    requires i < |chunks|
    ensures Concat(chunks[..i + 1]) == Concat(chunks[..i]) + chunks[i]
  {
    if i == 0 {
      assert chunks[..1][1..] == [] && chunks[..0] == [];
    } else {
      ConcatSplit(chunks[1..], i - 1);
      assert chunks[..i + 1][1..] == chunks[1..][..i] && chunks[..i][1..] == chunks[1..][..i - 1];
    }
  }

  lemma {:induction false} ConcatGrows(chunks: seq<Body>, i: nat)
    requires i <= |chunks|
    ensures |Concat(chunks[..i])| <= |Concat(chunks)|
    decreases |chunks| - i
  {
    if i == |chunks| {
      assert chunks[..i] == chunks;
    } else {
      ConcatSplit(chunks, i);
      ConcatGrows(chunks, i + 1);
    }
  }

  /** The whole body when it fits, and nothing otherwise, wherever the chunk borders are. */
  method ReadLimitedBody(chunks: seq<Body>, limit: nat) returns (body: Option<Body>)
    ensures body == if |Concat(chunks)| <= limit then Some(Concat(chunks)) else None
  {
    var buffer: Body := [];
    var i := 0;
    assert chunks[..0] == [];
    while i < |chunks|
      invariant i <= |chunks| && buffer == Concat(chunks[..i]) && |buffer| <= limit
    {
      ConcatSplit(chunks, i);
      ConcatGrows(chunks, i + 1);
      buffer := buffer + chunks[i];
      if |buffer| > limit {
        return None;
      }
      i := i + 1;
    }
    assert chunks[..i] == chunks;
    return Some(buffer);
  }

  // ---------------------------------------------------------------- the checks

  /** Unreadable entries match nobody; an empty list allows everybody. */
  ghost predicate IpAllowed<Json>(lib: Library<Json>, host: Option<string>, allowlist: seq<string>) {
    allowlist == [] ||
    (host.Some? && host.value != "" && lib.ip(host.value).Some?
     && exists i :: 0 <= i < |allowlist| && lib.inNetwork(lib.ip(host.value).value, allowlist[i]) == Some(true))
  }

  method ClientIpAllowed<Json>(lib: Library<Json>, host: Option<string>, allowlist: seq<string>) returns (allowed: bool)
    ensures allowed <==> IpAllowed(lib, host, allowlist)
    ensures allowed <==>
            || allowlist == []
            || (&& host.Some? && host.value != "" && lib.ip(host.value).Some?
                && exists entry :: entry in allowlist && lib.inNetwork(lib.ip(host.value).value, entry) == Some(true))
  {
    if allowlist == [] {
      return true;
    }
    if host.None? || host.value == "" {
      return false;
    }
    var ip := lib.ip(host.value);
    if ip.None? {
      return false;
    }
    for i := 0 to |allowlist|
      invariant forall k :: 0 <= k < i ==> lib.inNetwork(ip.value, allowlist[k]) != Some(true)
    {
      var inside := lib.inNetwork(ip.value, allowlist[i]);
      if inside.Some? && inside.value {
        return true;
      }
    }
    return false;
  }

  const SIGNATURE_PREFIX: string := "sha256="

  predicate Truthy(s: Option<string>) { s.Some? && s.value != "" }

  /** The signature header is the keyed digest of the body, when the endpoint has a secret. */
  predicate Signed<Json>(lib: Library<Json>, ep: Endpoint, signature: Option<string>, body: Body) {
    ep.secret == "" || (signature.Some? && signature.value == SIGNATURE_PREFIX + lib.hexDigest(ep.secret, body))
  }

  predicate WellFormed<Json>(lib: Library<Json>, ep: Endpoint, body: Body) {
    lib.parse(body).Some? && (!Truthy(ep.schema) || lib.conforms(ep.schema.value, lib.parse(body).value))
  }

  /** Everything that is checked before Redis is asked for the idempotency claim, rate limit apart. */
  ghost predicate Acceptable<Json>(lib: Library<Json>, limit: nat, ep: Endpoint, req: Request) {
    && |Concat(req.chunks)| <= limit && ep.active && IpAllowed(lib, req.host, ep.allowlist)
    && Signed(lib, ep, req.signature, Concat(req.chunks)) && WellFormed(lib, ep, Concat(req.chunks))
  }

  // ---------------------------------------------------------------- the claim

  /** Endpoint and idempotency key; the endpoint's id has a fixed length, so the pair is the Redis key. */
  type DedupKey = (string, string)

  /** SET key 1 NX EX ttl. */
  function SetNx(dedup: map<DedupKey, Instant>, key: DedupKey, now: Instant, ttl: nat): (map<DedupKey, Instant>, bool) {
    if key in dedup && Alive(dedup[key], now) then (dedup, false) else (dedup[key := now + ttl], true)
  }

  function IngressKey(endpoint: string): string { "ingress:ep:" + endpoint }

  /** The limiter call of a request at `now` to an endpoint limited to `rps` requests a second. */
  function IngressCall(rps: int, now: Instant): RL.Attempt { RL.Attempt(now, now, rps * 60) }

  class Gateway<!Json> {
    const lib: Library<Json>
    const bodyLimit: nat
    const ttl: nat
    const endpoints: map<string, Endpoint>
    const limiter: RL.SlidingWindowRateLimiter
    var dedup: map<DedupKey, Instant>
    var events: seq<Event>
    var outbox: seq<OutboxRow>

    /** Events are numbered as they are stored, each with its outbox row. */
    ghost predicate Valid()
      reads this, limiter
    {
      && limiter.Valid() && |events| == |outbox|
      && forall i :: 0 <= i < |events| ==> events[i].id == i && outbox[i] == OutboxRow(i, events[i].endpoint)
    }

    ghost predicate Known(req: Request) {
      lib.uuid(req.endpointId).Some? && lib.uuid(req.endpointId).value in endpoints
    }

    ghost function EndpointOf(req: Request): Endpoint
      requires Known(req)
    {
      endpoints[lib.uuid(req.endpointId).value]
    }

    /** The request gets as far as the endpoint's rate limit. */
    ghost predicate Reaches(req: Request) {
      |Concat(req.chunks)| <= bodyLimit && Known(req) && EndpointOf(req).active
      && IpAllowed(lib, req.host, EndpointOf(req).allowlist)
    }

    /** The endpoint has a rate limit, and after the calls `h` it denies one at `now`. */
    ghost predicate Throttled(h: seq<RL.Attempt>, ep: Endpoint, now: Instant) {
      ep.rateLimitRps.Some? && !RL.Allowed(h + [IngressCall(ep.rateLimitRps.value, now)], |h|)
    }

    /**
     An endpoint limited to n requests a second turns a request away exactly when at least 60 n of
     the calls counted on its key fall in the 60 seconds up to now.
     */
    lemma ThrottledIff(h: seq<RL.Attempt>, ep: Endpoint, now: Instant)
      requires ep.rateLimitRps.Some? ==> RL.OneClock(h + [RL.Attempt(now, now, 60 * ep.rateLimitRps.value)])
      ensures Throttled(h, ep, now) <==>
              ep.rateLimitRps.Some? && RL.CountIn(h, now - 60 * SECOND + 1, now + 1) >= 60 * ep.rateLimitRps.value
    {
      if ep.rateLimitRps.Some? {
        var a := IngressCall(ep.rateLimitRps.value, now);
        assert (h + [a])[..|h|] == h;
        RL.ExactRefinement(h, a);
      }
    }

    ghost predicate Turned(history: map<string, seq<RL.Attempt>>, req: Request, now: Instant) {
      Reaches(req) && Throttled(RL.Calls(history, IngressKey(EndpointOf(req).id)), EndpointOf(req), now)
    }

    /** The request passes every check, and the endpoint's rate limit lets it through. */
    ghost predicate Passes(history: map<string, seq<RL.Attempt>>, req: Request, now: Instant) {
      Known(req) && Acceptable(lib, bodyLimit, EndpointOf(req), req) && !Turned(history, req, now)
    }

    /** The limiter has counted the request exactly when it got that far and the endpoint has a limit. */
    ghost function CallsAfter(history: map<string, seq<RL.Attempt>>, req: Request, now: Instant)
      : map<string, seq<RL.Attempt>>
    {
      if Reaches(req) && EndpointOf(req).rateLimitRps.Some? then
        var key := IngressKey(EndpointOf(req).id);
        history[key := RL.Calls(history, key) + [IngressCall(EndpointOf(req).rateLimitRps.value, now)]]
      else history
    }

    /** What each rejection code says about the request, the checks before it having passed. */
    ghost predicate RejectedFor(req: Request, turned: bool, code: nat) {
      var body := Concat(req.chunks);
      var fits := |body| <= bodyLimit;
      var read := Reaches(req) && !turned;
      && (code == 413 <==> !fits)
      && (code == 404 <==> fits && lib.uuid(req.endpointId).Some? && !Known(req))
      && (code == 410 <==> fits && Known(req) && !EndpointOf(req).active)
      && (code == 403 <==>
            && fits && Known(req) && EndpointOf(req).active
            && !IpAllowed(lib, req.host, EndpointOf(req).allowlist))
      && (code == 429 <==> turned)
      && (code == 401 <==> read && !Signed(lib, EndpointOf(req), req.signature, body))
      && (code == 422 <==> read && Signed(lib, EndpointOf(req), req.signature, body) && lib.parse(body).Some?
                           && !WellFormed(lib, EndpointOf(req), body))
      && (code == 400 <==> || (fits && lib.uuid(req.endpointId).None?)
                           || (read && Signed(lib, EndpointOf(req), req.signature, body) && lib.parse(body).None?))
    }

    constructor (lib: Library<Json>, bodyLimit: nat, ttl: nat, endpoints: map<string, Endpoint>,
                 limiter: RL.SlidingWindowRateLimiter)
      requires limiter.Valid()
      ensures Valid() && events == [] && outbox == [] && dedup == map[]
      ensures this.lib == lib && this.bodyLimit == bodyLimit && this.ttl == ttl && this.endpoints == endpoints
              && this.limiter == limiter
    {
      this.lib, this.bodyLimit, this.ttl, this.endpoints, this.limiter := lib, bodyLimit, ttl, endpoints, limiter;
      dedup, events, outbox := map[], [], [];
    }

    /** Signature, JSON and schema: None when they all pass, otherwise the status of the first failure. */
    method CheckContent(ep: Endpoint, signature: Option<string>, body: Body) returns (failure: Option<nat>)
      ensures failure.None? <==> Signed(lib, ep, signature, body) && WellFormed(lib, ep, body)
      ensures failure == Some(401) <==> !Signed(lib, ep, signature, body)
      ensures failure == Some(400) <==> Signed(lib, ep, signature, body) && lib.parse(body).None?
      ensures failure == Some(422) <==>
              Signed(lib, ep, signature, body) && lib.parse(body).Some? && !WellFormed(lib, ep, body)
      ensures failure.Some? ==> failure.value in {400, 401, 422}
      ensures var signed := || ep.secret == ""
                            || (signature.Some? && signature.value == "sha256=" + lib.hexDigest(ep.secret, body));
              var valid := || ep.schema.None? || ep.schema.value == ""
                           || (lib.parse(body).Some? && lib.conforms(ep.schema.value, lib.parse(body).value));
              failure == if !signed then Some(401) else if lib.parse(body).None? then Some(400)
                         else if !valid then Some(422) else None
    {
      if ep.secret != "" {
        if !Truthy(signature) {
          return Some(401);
        }
        var header := signature.value;
        if |header| < |SIGNATURE_PREFIX| || header[..|SIGNATURE_PREFIX|] != SIGNATURE_PREFIX {
          return Some(401);
        }
        var provided := header[|SIGNATURE_PREFIX|..];
        assert header == SIGNATURE_PREFIX + provided;
        if provided != lib.hexDigest(ep.secret, body) {
          assert forall d: string :: SIGNATURE_PREFIX + d == header ==> d == provided by {
            forall d: string | SIGNATURE_PREFIX + d == header ensures d == provided {
              assert header[|SIGNATURE_PREFIX|..] == d;
            }
          }
          return Some(401);
        }
      }
      var payload := lib.parse(body);
      if payload.None? {
        return Some(400);
      }
      if Truthy(ep.schema) && !lib.conforms(ep.schema.value, payload.value) {
        return Some(422);
      }
      return None;
    }

    /** The gateway's transaction: both rows if it commits, and neither if it does not. */
    method StoreEvent(endpoint: string, key: Option<string>, commits: bool) returns (id: Option<nat>)
      requires Valid()
      modifies this`events, this`outbox
      ensures Valid() && id == if commits then Some(|old(events)|) else None
      ensures events == if commits then old(events) + [Event(|old(events)|, endpoint, key)] else old(events)
      ensures outbox == if commits then old(outbox) + [OutboxRow(|old(events)|, endpoint)] else old(outbox)
    {
      var before, rows := events, outbox;
      var next := |events|;
      events := events + [Event(next, endpoint, key)];
      outbox := outbox + [OutboxRow(next, endpoint)];
      if !commits {
        events, outbox := before, rows;
        return None;
      }
      return Some(next);
    }

    /** Every check up to the schema, in order; the endpoint when all pass, a rejection otherwise. */
    method CheckRequest(req: Request, now: Instant) returns (ep: Option<Endpoint>, rejection: nat)
      requires Valid()
      modifies limiter
      ensures Valid()
      ensures ep.Some? <==> Passes(old(limiter.history), req, now)
      ensures ep.Some? ==> ep.value == EndpointOf(req)
      ensures ep.None? ==> RejectedFor(req, Turned(old(limiter.history), req, now), rejection)
      ensures limiter.history == CallsAfter(old(limiter.history), req, now)
    {
      var body := ReadLimitedBody(req.chunks, bodyLimit);
      if body.None? {
        return None, 413;
      }
      var id := lib.uuid(req.endpointId);
      if id.None? {
        return None, 400;
      }
      if id.value !in endpoints {
        return None, 404;
      }
      var endpoint := endpoints[id.value];
      if !endpoint.active {
        return None, 410;
      }
      var allowed := ClientIpAllowed(lib, req.host, endpoint.allowlist);
      if !allowed {
        return None, 403;
      }
      if endpoint.rateLimitRps.Some? {
        allowed := limiter.AllowRequest(IngressKey(endpoint.id), Some(endpoint.rateLimitRps.value * 60), now, now);
        if !allowed {
          return None, 429;
        }
      }
      var failure := CheckContent(endpoint, req.signature, body.value);
      if failure.Some? {
        return None, failure.value;
      }
      return Some(endpoint), 0;
    }

    /** The idempotency key of a request that has one is claimed by a request before it. */
    ghost predicate Taken(dedup: map<DedupKey, Instant>, req: Request, now: Instant)
      requires Known(req)
    {
      Truthy(req.idempotencyKey) &&
      var k := (EndpointOf(req).id, req.idempotencyKey.value);
      k in dedup && now < dedup[k]
    }

    /** `commits` says whether the database transaction goes through. */
    method ReceiveWebhook(req: Request, now: Instant, commits: bool) returns (response: Response)
      requires Valid()
      modifies this`dedup, this`events, this`outbox, limiter
      ensures Valid()
      // Which answer the request gets.
      ensures response.Rejected? <==> !Passes(old(limiter.history), req, now)
      ensures response.Rejected? ==> RejectedFor(req, Turned(old(limiter.history), req, now), response.code)
      ensures response.Duplicate? <==> Passes(old(limiter.history), req, now) && Taken(old(dedup), req, now)
      ensures response.Failed? ==> !commits
      ensures response.Accepted? ==> commits && response.event == |old(events)|
      // What it leaves behind: rows if it is accepted, a claim also if only its commit fails.
      ensures limiter.history == CallsAfter(old(limiter.history), req, now)
      ensures response.Accepted? ==>
                && events == old(events) + [Event(response.event, EndpointOf(req).id, req.idempotencyKey)]
                && outbox == old(outbox) + [OutboxRow(response.event, EndpointOf(req).id)]
      ensures !response.Accepted? ==> events == old(events) && outbox == old(outbox)
      ensures dedup == if (response.Accepted? || response.Failed?) && Truthy(req.idempotencyKey)
                       then old(dedup)[(EndpointOf(req).id, req.idempotencyKey.value) := now + ttl] else old(dedup)
    {
      var checked, rejection := CheckRequest(req, now);
      if checked.None? {
        return Rejected(rejection);
      }
      var ep := checked.value;
      if Truthy(req.idempotencyKey) {
        var key := (ep.id, req.idempotencyKey.value);
        var (claimed, first) := SetNx(dedup, key, now, ttl);
        dedup := claimed;
        if !first {
          return Duplicate;
        }
      }
      var event := StoreEvent(ep.id, req.idempotencyKey, commits);
      return if event.Some? then Accepted(event.value) else Failed;
    }
  }
}
