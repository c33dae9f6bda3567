/** The seller-side invoke loop with its caps and its per-grant counter
    (python/aim_node/gateway_v2/invoke.py).  The chunk iterator is foreign code: between two chunks it
    may invoke the same runtime again, and it may raise. */
module ConnectorRuntimes {
  import opened Results

  datatype InvokeState = COMPLETED | FAILED | PARTIAL_TRANSFER | PROVIDER_TIMEOUT
    | GRANT_REVOKED_MID_STREAM | TRUST_REVOKED_MID_STREAM | RESUME_UNSUPPORTED

  datatype InvokeLimits = InvokeLimits(
    byteCap: int, recordCap: int, wallClockCapSeconds: real, perGrantConcurrency: int, retryAfterSeconds: int)

  /** What request and grant must agree on. */
  datatype Terms = Terms(
    accessGrantId: string, buyerAccountId: string, listingId: string, listingVersionId: string,
    connectorId: string, deliveryMode: string, termsHash: string)

  datatype RuntimeGrantBinding = RuntimeGrantBinding(
    terms: Terms, operations: seq<string>, expiresAt: Option<int>, state: string, sellerEdgeIdentityHash: Option<string>)

  datatype InvokeRequest = InvokeRequest(
    terms: Terms, operation: string, mode: string, sellerEdgeIdentityHash: Option<string>, resume: bool, limits: InvokeLimits)

  datatype MeteringSummary = MeteringSummary(
    bytes: nat, records: nat, calls: nat, durationMs: int, retries: nat, providerLatencyMs: int,
    connectorType: string, sellerEdgeRoute: string)

  datatype InvokeResponse = InvokeResponse(
    invocationId: string, state: InvokeState, metering: MeteringSummary, resumeRequired: bool)

  datatype Failure =
    | InvokeRuntimeError(state: InvokeState, message: string, retryAfterSeconds: Option<int>)
    | Escaped(fault: Fault)

  datatype Outcome = Completed(response: InvokeResponse) | Failed(failure: Failure)

  /** What the iterator does next, with the seconds since the start at which a chunk is looked at. */
  datatype Item =
    | Chunk(size: nat, elapsed: real)
    | Nested(call: Invocation, caught: bool)
    | Raise(fault: Fault)

  /** One call of `invoke`; `finished` is the elapsed time after the last chunk. */
  datatype Invocation = Invocation(
    request: InvokeRequest, grant: RuntimeGrantBinding, items: seq<Item>, finished: real,
    resumeSupported: bool, trustRevoked: bool, grantRevoked: bool, now: int)
  {
    function Grant(): string { request.terms.accessGrantId }
  }

  // ---------------------------------------------------------------- admission

  datatype Check = Check(field: string, ok: bool)

  function Checks(request: InvokeRequest, grant: RuntimeGrantBinding): seq<Check> {
    var r, g := request.terms, grant.terms;
    [ Check("access_grant_id", r.accessGrantId == g.accessGrantId),
      Check("buyer_account_id", r.buyerAccountId == g.buyerAccountId),
      Check("listing_id", r.listingId == g.listingId),
      Check("listing_version_id", r.listingVersionId == g.listingVersionId),
      Check("connector_id", r.connectorId == g.connectorId),
      Check("delivery_mode", r.deliveryMode == g.deliveryMode),
      Check("terms_hash", r.termsHash == g.termsHash),
      Check("operation", request.operation in grant.operations),
      Check("seller_edge_identity_hash",
            grant.sellerEdgeIdentityHash == None || request.sellerEdgeIdentityHash == grant.sellerEdgeIdentityHash) ]
  }

  function FailedFields(checks: seq<Check>): seq<string> {
    if checks == [] then []
    else (if checks[0].ok then [] else [checks[0].field]) + FailedFields(checks[1..])
  }

  /** `_validate_grant_binding`; an expiry that is no date is `None`. */
  function GrantBindingError(request: InvokeRequest, grant: RuntimeGrantBinding, now: int): Option<Failure> {
    if grant.expiresAt == None then Some(Escaped(ValueError("Invalid isoformat string")))
    else if grant.state != "active" || grant.expiresAt.value <= now then
      Some(InvokeRuntimeError(FAILED, "active unexpired grant required", None))
    else
      var failed := FailedFields(Checks(request, grant));
      if failed != [] then Some(InvokeRuntimeError(FAILED, "grant binding mismatch: " + failed[0], None)) else None
  }

  /** Everything that stops a call before it is counted as active. */
  function Refusal(running: seq<string>, inv: Invocation): Option<Failure> {
    var bad := GrantBindingError(inv.request, inv.grant, inv.now);
    if bad.Some? then bad
    else if inv.trustRevoked then
      Some(InvokeRuntimeError(TRUST_REVOKED_MID_STREAM, "trust revoked mid stream", None))
    else if inv.grantRevoked then
      Some(InvokeRuntimeError(GRANT_REVOKED_MID_STREAM, "grant revoked mid stream", None))
    else if inv.request.resume && !inv.resumeSupported then
      Some(InvokeRuntimeError(RESUME_UNSUPPORTED, "connector does not support resume", None))
    else if Count(running, inv.Grant()) >= inv.request.limits.perGrantConcurrency then
      Some(InvokeRuntimeError(FAILED, "per_grant concurrency exceeded", Some(inv.request.limits.retryAfterSeconds)))
    else None
  }

  /** How many of the running calls are for grant `g`. */
  function Count(running: seq<string>, g: string): nat {
    if running == [] then 0 else (if running[0] == g then 1 else 0) + Count(running[1..], g)
  }

  lemma {:induction false} FirstFailedField(checks: seq<Check>) returns (k: nat)
    ensures k <= |checks| && forall i :: 0 <= i < k ==> checks[i].ok
    ensures k < |checks| ==> !checks[k].ok && FailedFields(checks) != [] && FailedFields(checks)[0] == checks[k].field
    ensures k == |checks| ==> FailedFields(checks) == []
  {
    k := 0;
    if checks != [] && checks[0].ok {
      k := FirstFailedField(checks[1..]);
      assert forall i :: 0 <= i < k ==> checks[1..][i] == checks[i + 1];
      k := k + 1;
    }
  }

  /** The grant is active, unexpired and agrees with the request on every term. */
  predicate Binds(request: InvokeRequest, grant: RuntimeGrantBinding, now: int) {
    && grant.state == "active" && grant.expiresAt.Some? && now < grant.expiresAt.value
    && request.terms == grant.terms
    && request.operation in grant.operations
    && (grant.sellerEdgeIdentityHash == None || grant.sellerEdgeIdentityHash == request.sellerEdgeIdentityHash)
  }

  /** A grant binds a request exactly when it is readable, active, unexpired and agrees on every term. */
  lemma BindsIff(request: InvokeRequest, grant: RuntimeGrantBinding, now: int)
    ensures GrantBindingError(request, grant, now) == None <==> Binds(request, grant, now)
  {
    hide FailedFields;
    var checks := Checks(request, grant);
    var k := FirstFailedField(checks);
    assert |checks| == 9;
    if k < 9 {
      assert !checks[k].ok;
    } else {
      assert checks[0].ok && checks[1].ok && checks[2].ok && checks[3].ok && checks[4].ok;
      assert checks[5].ok && checks[6].ok && checks[7].ok && checks[8].ok;
    }
  }

  /** A grant that does not bind is refused without a retry time: an expiry that is no date lets the error
      out, an inactive or expired grant is named as such, and else the first term that disagrees is named. */
  lemma UnboundRefusal(request: InvokeRequest, grant: RuntimeGrantBinding, now: int)
    requires !Binds(request, grant, now)
    ensures var r, g, bad := request.terms, grant.terms, GrantBindingError(request, grant, now);
            if grant.expiresAt == None then bad == Some(Escaped(ValueError("Invalid isoformat string")))
            else if grant.state != "active" || now >= grant.expiresAt.value then
              bad == Some(InvokeRuntimeError(FAILED, "active unexpired grant required", None))
            else
              var field :=
                if r.accessGrantId != g.accessGrantId then "access_grant_id"
                else if r.buyerAccountId != g.buyerAccountId then "buyer_account_id"
                else if r.listingId != g.listingId then "listing_id"
                else if r.listingVersionId != g.listingVersionId then "listing_version_id"
                else if r.connectorId != g.connectorId then "connector_id"
                else if r.deliveryMode != g.deliveryMode then "delivery_mode"
                else if r.termsHash != g.termsHash then "terms_hash"
                else if request.operation !in grant.operations then "operation"
                else "seller_edge_identity_hash";
              bad == Some(InvokeRuntimeError(FAILED, "grant binding mismatch: " + field, None))
  {
    hide FailedFields;
    BindsIff(request, grant, now);
    var checks := Checks(request, grant);
    var k := FirstFailedField(checks);
    assert |checks| == 9 && forall i :: 0 <= i < k ==> checks[i].ok;
    assert k == 9 || k == if !checks[0].ok then 0 else if !checks[1].ok then 1 else if !checks[2].ok then 2 else if !checks[3].ok then 3
                else if !checks[4].ok then 4 else if !checks[5].ok then 5 else if !checks[6].ok then 6
                else if !checks[7].ok then 7 else 8;
  }

  lemma {:induction false} CountIsMultiplicity(running: seq<string>, g: string)
    ensures Count(running, g) == multiset(running)[g]
  {
    if running != [] {
      CountIsMultiplicity(running[1..], g);
      assert running == [running[0]] + running[1..];
    }
  }

  /** Nothing is revoked, resuming is possible if asked for, and a slot of the grant is free. */
  predicate Admitted(running: seq<string>, inv: Invocation) {
    && Binds(inv.request, inv.grant, inv.now)
    && !inv.trustRevoked && !inv.grantRevoked
    && (inv.request.resume ==> inv.resumeSupported)
    && multiset(running)[inv.request.terms.accessGrantId] < inv.request.limits.perGrantConcurrency
  }

  /** A call is admitted exactly when its grant binds, neither trust nor grant is revoked, it resumes only
      where that is supported, and fewer calls than the limit run for its grant. */
  lemma AdmittedIff(running: seq<string>, inv: Invocation)
    ensures Refusal(running, inv) == None <==> Admitted(running, inv)
  {
    hide GrantBindingError, Binds, Count;
    BindsIff(inv.request, inv.grant, inv.now);
    CountIsMultiplicity(running, inv.Grant());
  }

  /** What a refused call is told, in the order of the checks; only a full grant says when to retry. */
  lemma RefusalOrder(running: seq<string>, inv: Invocation)
    requires !Admitted(running, inv)
    ensures var refused := Refusal(running, inv);
            if !Binds(inv.request, inv.grant, inv.now) then refused == GrantBindingError(inv.request, inv.grant, inv.now)
            else if inv.trustRevoked then
              refused == Some(InvokeRuntimeError(TRUST_REVOKED_MID_STREAM, "trust revoked mid stream", None))
            else if inv.grantRevoked then
              refused == Some(InvokeRuntimeError(GRANT_REVOKED_MID_STREAM, "grant revoked mid stream", None))
            else if inv.request.resume && !inv.resumeSupported then
              refused == Some(InvokeRuntimeError(RESUME_UNSUPPORTED, "connector does not support resume", None))
            else
              refused == Some(InvokeRuntimeError(FAILED, "per_grant concurrency exceeded", Some(inv.request.limits.retryAfterSeconds)))
  {
    hide GrantBindingError, Binds, Count;
    BindsIff(inv.request, inv.grant, inv.now);
    CountIsMultiplicity(running, inv.Grant());
  }

  // ---------------------------------------------------------------- the stream

  function Underscored(s: string): string {
    seq(|s|, i requires 0 <= i < |s| => if s[i] == '-' then '_' else s[i])
  }

  /** `int(x)` on a float: toward zero. */
  function Truncated(x: real): int {
    if x >= 0.0 then x.Floor else -(-x).Floor
  }

  function Response(inv: Invocation, bytes: nat, records: nat): InvokeResponse {
    var request, durationMs := inv.request, Truncated(inv.finished * 1000.0);
    var route := if request.sellerEdgeIdentityHash in {None, Some("")} then "local" else request.sellerEdgeIdentityHash.value;
    InvokeResponse(
      Underscored("inv_" + inv.Grant() + "_" + request.operation), COMPLETED,
      MeteringSummary(bytes, records, 1, durationMs, if request.resume then 1 else 0, durationMs, request.terms.connectorId, route),
      request.mode == "stream")
  }

  /** The result of a call made while the calls `running` are active. */
  function OutcomeOf(running: seq<string>, inv: Invocation): Outcome
    decreases inv, |inv.items| + 1
  {
    var refusal := Refusal(running, inv);
    if refusal.Some? then Failed(refusal.value) else StreamFrom([inv.Grant()] + running, inv, 0, 0, 0)
  }

  /** The loop from item `i` on, with what was counted so far. */
  function StreamFrom(running: seq<string>, inv: Invocation, i: nat, bytes: nat, records: nat): Outcome
    requires i <= |inv.items|
    decreases inv, |inv.items| - i
  {
    var limits := inv.request.limits;
    if i == |inv.items| then Completed(Response(inv, bytes, records))
    else
      match inv.items[i]
      case Raise(fault) => Failed(Escaped(fault))
      case Nested(call, caught) =>
        var nested := OutcomeOf(running, call);
        if nested.Failed? && !caught then nested else StreamFrom(running, inv, i + 1, bytes, records)
      case Chunk(size, elapsed) =>
        if elapsed > limits.wallClockCapSeconds then
          Failed(InvokeRuntimeError(PROVIDER_TIMEOUT, "wall-clock cap exceeded", None))
        else if bytes + size > limits.byteCap || records + 1 > limits.recordCap then
          Failed(InvokeRuntimeError(PARTIAL_TRANSFER, "byte or record cap exceeded", None))
        else StreamFrom(running, inv, i + 1, bytes + size, records + 1)
  }

  // ---------------------------------------------------------------- the runtime

  class ConnectorRuntime {
    var activePerGrant: map<string, nat>
    ghost var running: seq<string>

    function Active(g: string): nat
      reads this
    {
      if g in activePerGrant then activePerGrant[g] else 0
    }

    /** The counter of every grant is the number of its running calls. */
    ghost predicate Valid()
      reads this
    {
      forall g :: Active(g) == Count(running, g)
    }

    constructor ()
      ensures Valid() && running == []
    {
      activePerGrant, running := map[], [];
    }

    /** On every exit the counters of all grants are what they were; in between, whenever the iterator
        runs, the runtime is `Valid` with this call among the running ones. */
    method Invoke(inv: Invocation) returns (r: Outcome)
      requires Valid()
      modifies this
      ensures Valid() && running == old(running)
      ensures forall g :: Active(g) == old(Active(g))
      ensures r == OutcomeOf(running, inv)
      decreases inv
    {
      hide GrantBindingError, Response;
      var request := inv.request;
      var bad := GrantBindingError(request, inv.grant, inv.now);
      if bad.Some? {
        return Failed(bad.value);
      }
      if inv.trustRevoked {
        return Failed(InvokeRuntimeError(TRUST_REVOKED_MID_STREAM, "trust revoked mid stream", None));
      }
      if inv.grantRevoked {
        return Failed(InvokeRuntimeError(GRANT_REVOKED_MID_STREAM, "grant revoked mid stream", None));
      }
      if request.resume && !inv.resumeSupported {
        return Failed(InvokeRuntimeError(RESUME_UNSUPPORTED, "connector does not support resume", None));
      }
      var active := Active(inv.Grant());
      if active >= request.limits.perGrantConcurrency {
        return Failed(InvokeRuntimeError(FAILED, "per_grant concurrency exceeded", Some(request.limits.retryAfterSeconds)));
      }
      activePerGrant := activePerGrant[inv.Grant() := active + 1];
      running := [inv.Grant()] + running;
      CountStarts(old(running), inv.Grant());
      r := Stream(inv);
      activePerGrant := activePerGrant[inv.Grant() := active];
      running := running[1..];
      assert running == old(running);
    }

    /** The body of the `try` statement. */
    method Stream(inv: Invocation) returns (r: Outcome)
      requires Valid()
      modifies this
      ensures Valid() && running == old(running)
      ensures forall g :: Active(g) == old(Active(g))
      ensures r == StreamFrom(running, inv, 0, 0, 0)
      decreases inv, 0
    {
      hide OutcomeOf, Response, Count;
      var limits := inv.request.limits;
      var bytesSeen, records := 0, 0;
      for i := 0 to |inv.items|
        invariant Valid() && running == old(running)
        invariant forall g :: Active(g) == old(Active(g))
        invariant StreamFrom(running, inv, 0, 0, 0) == StreamFrom(running, inv, i, bytesSeen, records)
      {
        match inv.items[i]
        case Raise(fault) =>
          return Failed(Escaped(fault));
        case Nested(call, caught) =>
          var nested := Invoke(call);
          if nested.Failed? && !caught {
            return nested;
          }
        case Chunk(size, elapsed) =>
          if elapsed > limits.wallClockCapSeconds {
            return Failed(InvokeRuntimeError(PROVIDER_TIMEOUT, "wall-clock cap exceeded", None));
          }
          bytesSeen := bytesSeen + size;
          records := records + 1;
          if bytesSeen > limits.byteCap || records > limits.recordCap {
            return Failed(InvokeRuntimeError(PARTIAL_TRANSFER, "byte or record cap exceeded", None));
          }
      }
      r := Completed(Response(inv, bytesSeen, records));
    }
  }

  lemma CountStarts(running: seq<string>, g: string)
    ensures forall h :: Count([g] + running, h) == Count(running, h) + if h == g then 1 else 0
  {
    assert ([g] + running)[1..] == running;
  }

  // ---------------------------------------------------------------- what a call reports

  function Sizes(items: seq<Item>): nat {
    if items == [] then 0
    else Sizes(items[..|items| - 1]) + if items[|items| - 1].Chunk? then items[|items| - 1].size else 0
  }

  function Chunks(items: seq<Item>): nat {
    if items == [] then 0
    else Chunks(items[..|items| - 1]) + if items[|items| - 1].Chunk? then 1 else 0
  }

  predicate WithinCaps(items: seq<Item>, limits: InvokeLimits) {
    Sizes(items) <= limits.byteCap && Chunks(items) <= limits.recordCap
  }

  /** Why the stream ends at item `i`, if it does, said without running counters. */
  function StopAt(running: seq<string>, inv: Invocation, i: nat): Option<Failure>
    requires i < |inv.items|
  {
    match inv.items[i]
    case Raise(fault) => Some(Escaped(fault))
    case Nested(call, caught) =>
      var nested := OutcomeOf(running, call);
      if nested.Failed? && !caught then Some(nested.failure) else None
    case Chunk(_, elapsed) =>
      if elapsed > inv.request.limits.wallClockCapSeconds then
        Some(InvokeRuntimeError(PROVIDER_TIMEOUT, "wall-clock cap exceeded", None))
      else if !WithinCaps(inv.items[..i + 1], inv.request.limits) then
        Some(InvokeRuntimeError(PARTIAL_TRANSFER, "byte or record cap exceeded", None))
      else None
  }

  lemma TakeOne(items: seq<Item>, i: nat)
    requires i < |items|
    ensures Sizes(items[..i + 1]) == Sizes(items[..i]) + if items[i].Chunk? then items[i].size else 0
    ensures Chunks(items[..i + 1]) == Chunks(items[..i]) + if items[i].Chunk? then 1 else 0
  {
    assert items[..i + 1][..i] == items[..i];
  }

  /** The loop gets to the first item that stops it, and no further. */
  lemma {:induction false} StreamStops(running: seq<string>, inv: Invocation, i: nat) returns (k: nat)
    requires i <= |inv.items|
    ensures i <= k <= |inv.items| && forall j :: i <= j < k ==> StopAt(running, inv, j) == None
    ensures var outcome := StreamFrom(running, inv, i, Sizes(inv.items[..i]), Chunks(inv.items[..i]));
            if k < |inv.items| then
              StopAt(running, inv, k).Some? && outcome == Failed(StopAt(running, inv, k).value)
            else
              outcome == Completed(Response(inv, Sizes(inv.items), Chunks(inv.items)))
    decreases |inv.items| - i
  {
    hide Response, OutcomeOf, Sizes, Chunks;
    if i == |inv.items| {
      k := i;
      assert inv.items[..i] == inv.items;
    } else {
      TakeOne(inv.items, i);
      if StopAt(running, inv, i).Some? {
        k := i;
      } else {
        k := StreamStops(running, inv, i + 1);
      }
    }
  }

  /** As long as nothing has stopped the stream, what was counted is within both caps. */
  lemma {:induction false} CountedWithinCaps(running: seq<string>, inv: Invocation, k: nat)
    requires k <= |inv.items| && forall j :: 0 <= j < k ==> StopAt(running, inv, j) == None
    ensures Chunks(inv.items[..k]) > 0 ==> WithinCaps(inv.items[..k], inv.request.limits)
  {
    hide OutcomeOf;
    if k > 0 {
      CountedWithinCaps(running, inv, k - 1);
      TakeOne(inv.items, k - 1);
      assert StopAt(running, inv, k - 1) == None;
    }
  }

  /** A call completes exactly when it is admitted and no item stops it. */
  lemma CompletesIff(running: seq<string>, inv: Invocation)
    ensures OutcomeOf(running, inv).Completed? <==>
            && Admitted(running, inv)
            && forall j :: 0 <= j < |inv.items| ==> StopAt([inv.Grant()] + running, inv, j) == None
  {
    hide Refusal, StopAt, StreamFrom, Admitted;
    AdmittedIff(running, inv);
    if Refusal(running, inv) == None {
      var k := StreamStops([inv.Grant()] + running, inv, 0);
      EmptyPrefix(inv.items);
    }
  }

  /** A call that is not admitted reports its refusal, whatever its items are. */
  lemma RefusedOutcome(running: seq<string>, inv: Invocation)
    requires !Admitted(running, inv)
    ensures Refusal(running, inv).Some? && OutcomeOf(running, inv) == Failed(Refusal(running, inv).value)
  {
    hide Refusal, StreamFrom, Admitted;
    AdmittedIff(running, inv);
  }

  lemma EmptyPrefix(items: seq<Item>)
    ensures Sizes(items[..0]) == 0 && Chunks(items[..0]) == 0
  {
  }

  /** A completed call reports exactly the byte sum and the chunk count, both within the caps, the whole
      milliseconds it took, its connector and edge, and an id made of grant and operation. */
  lemma CompletedReports(running: seq<string>, inv: Invocation)
    requires OutcomeOf(running, inv).Completed?
    ensures var response := OutcomeOf(running, inv).response;
            && response.state == COMPLETED && response.resumeRequired == (inv.request.mode == "stream")
            && IsUnderscored("inv_" + inv.request.terms.accessGrantId + "_" + inv.request.operation, response.invocationId)
    ensures var m, edge := OutcomeOf(running, inv).response.metering, inv.request.sellerEdgeIdentityHash;
            && m.bytes == Sizes(inv.items) && m.records == Chunks(inv.items) && m.calls == 1
            && (Chunks(inv.items) > 0 ==> WithinCaps(inv.items, inv.request.limits))
            && m.retries == (if inv.request.resume then 1 else 0)
            && (inv.finished >= 0.0 ==> m.durationMs as real <= 1000.0 * inv.finished < (m.durationMs + 1) as real)
            && m.providerLatencyMs == m.durationMs
            && m.connectorType == inv.request.terms.connectorId
            && m.sellerEdgeRoute == if edge.Some? && edge.value != "" then edge.value else "local"
  {
    hide Refusal, StopAt, StreamFrom, Sizes, Chunks, Response, IsUnderscored;
    var active := [inv.Grant()] + running;
    var k := StreamStops(active, inv, 0);
    EmptyPrefix(inv.items);
    CountedWithinCaps(active, inv, k);
    assert inv.items[..|inv.items|] == inv.items;
    ResponseFields(inv, Sizes(inv.items), Chunks(inv.items));
  }

  lemma ResponseFields(inv: Invocation, bytes: nat, records: nat)
    ensures var r, edge := Response(inv, bytes, records), inv.request.sellerEdgeIdentityHash;
            && r.state == COMPLETED && r.resumeRequired == (inv.request.mode == "stream")
            && IsUnderscored("inv_" + inv.request.terms.accessGrantId + "_" + inv.request.operation, r.invocationId)
            && r.metering.bytes == bytes && r.metering.records == records && r.metering.calls == 1
            && r.metering.retries == (if inv.request.resume then 1 else 0)
            && (inv.finished >= 0.0 ==>
                  r.metering.durationMs as real <= 1000.0 * inv.finished < (r.metering.durationMs + 1) as real)
            && r.metering.providerLatencyMs == r.metering.durationMs
            && r.metering.connectorType == inv.request.terms.connectorId
            && r.metering.sellerEdgeRoute == if edge.Some? && edge.value != "" then edge.value else "local"
  {
    hide IsUnderscored;
    var x := inv.finished * 1000.0;
    assert x.Floor as real <= x < x.Floor as real + 1.0;
    UnderscoredText("inv_" + inv.Grant() + "_" + inv.request.operation);
  }

  lemma UnderscoredText(s: string)
    ensures IsUnderscored(s, Underscored(s))
  {
  }

  /** The second text is the first with its hyphens replaced. */
  predicate IsUnderscored(s: string, t: string) {
    && |t| == |s|
    && forall i :: 0 <= i < |s| ==> t[i] == if s[i] == '-' then '_' else s[i]
  }

  /** An admitted call that does not complete ends at one item, all before it passed; when that is a
      chunk in time, everything before was within the caps and this chunk is the first to cross one. */
  lemma FailureStopsAtFirst(running: seq<string>, inv: Invocation) returns (k: nat)
    requires Admitted(running, inv) && OutcomeOf(running, inv).Failed?
    ensures var active := [inv.Grant()] + running;
            && k < |inv.items|
            && (forall j :: 0 <= j < k ==> StopAt(active, inv, j) == None)
            && StopAt(active, inv, k) == Some(OutcomeOf(running, inv).failure)
    ensures var item, limits := inv.items[k], inv.request.limits;
            item.Chunk? && item.elapsed <= limits.wallClockCapSeconds ==>
              && OutcomeOf(running, inv).failure.InvokeRuntimeError?
              && OutcomeOf(running, inv).failure.state == PARTIAL_TRANSFER
              && (Chunks(inv.items[..k]) > 0 ==> WithinCaps(inv.items[..k], limits))
              && !WithinCaps(inv.items[..k + 1], limits)
  {
    hide Refusal, StreamFrom, Sizes, Chunks, Admitted;
    AdmittedIff(running, inv);
    var active := [inv.Grant()] + running;
    k := StreamStops(active, inv, 0);
    EmptyPrefix(inv.items);
    CountedWithinCaps(active, inv, k);
  }

  /** No admitted call raises the number of running calls of its grant above its own limit. */
  lemma ConcurrencyBound(running: seq<string>, inv: Invocation)
    requires Refusal(running, inv) == None
    ensures multiset([inv.Grant()] + running)[inv.Grant()] <= inv.request.limits.perGrantConcurrency
  {
    hide GrantBindingError, Binds;
    AdmittedIff(running, inv);
    assert multiset([inv.Grant()] + running) == multiset([inv.Grant()]) + multiset(running);
  }
}
