/** The marketplace facade: requests with one authentication retry, and a TTL cache of GET responses
    with invalidation by key prefix (aim_node/management/facade.py, marketplace.py). */
module FacadeCache {
  import opened Results

  /** The JSON object of a response. */
  type Payload = string

  // ---------------------------------------------------------------- requests

  /** How one HTTP call of the market client ends. */
  datatype Reply =
    | Success(payload: Payload)
    | HttpError(status: int)
    | ClientError(timeout: bool)
    | AuthError

  /** How a token refresh ends. */
  datatype Refresh = Refreshed | RefreshDenied | RefreshFailed

  /** The HTTP status of the FacadeError a request raises. */
  datatype Outcome = Returned(payload: Payload) | FacadeError(httpStatus: int)

  /** The error handling of one call that is not retried. */
  function Settled(r: Reply): Outcome {
    match r
    case Success(p) => Returned(p)
    case HttpError(_) => FacadeError(502)
    case ClientError(timeout) => FacadeError(if timeout then 504 else 502)
    case AuthError => FacadeError(401)
  }

  /** `_request` given how its calls would end. */
  function RequestOutcome(hasAuth: bool, first: Reply, refresh: Refresh, second: Reply): Outcome {
    if first == HttpError(401) && hasAuth then
      match refresh
      case Refreshed => Settled(second)
      case RefreshDenied => FacadeError(401)
      case RefreshFailed => FacadeError(502)
    else Settled(first)
  }

  /** A 401 that a refresh answers, so that the request is made a second time. */
  predicate Retried(hasAuth: bool, first: Reply, refresh: Refresh) {
    first == HttpError(401) && hasAuth && refresh.Refreshed?
  }

  /** A request returns exactly what its first call returns, or its second one after a refreshed 401; it
      fails with 401 when the refresh or the last call is denied, with 504 on a timeout, else with 502. */
  lemma RequestOutcomeIs(hasAuth: bool, first: Reply, refresh: Refresh, second: Reply)
    ensures var r, last := RequestOutcome(hasAuth, first, refresh, second), if Retried(hasAuth, first, refresh) then second else first;
            var denied := last.AuthError? || (first == HttpError(401) && hasAuth && refresh.RefreshDenied?);
            && (r.Returned? <==> last.Success?)
            && (r.Returned? ==> r.payload == last.payload)
            && (r.FacadeError? ==> r.httpStatus == if denied then 401 else if last == ClientError(true) then 504 else 502)
  {
  }

  /** The market client and its authentication service: replies to come, and what was asked so far. */
  class MarketClient {
    const hasAuth: bool
    var replies: seq<Reply>
    var refreshes: seq<Refresh>
    var calls: nat
    var refreshed: nat

    constructor (hasAuth: bool, replies: seq<Reply>, refreshes: seq<Refresh>)
      ensures this.hasAuth == hasAuth && this.replies == replies && this.refreshes == refreshes
      ensures calls == 0 && refreshed == 0
    {
      this.hasAuth, this.replies, this.refreshes, calls, refreshed := hasAuth, replies, refreshes, 0, 0;
    }

    /** The k-th reply from now; one that never comes is a timeout. */
    function ReplyAt(k: nat): Reply
      reads this
    {
      if k < |replies| then replies[k] else ClientError(true)
    }

    function NextRefresh(): Refresh
      reads this
    {
      if refreshes == [] then RefreshFailed else refreshes[0]
    }

    method Call() returns (r: Reply)
      modifies this
      ensures r == old(ReplyAt(0)) && calls == old(calls) + 1 && refreshed == old(refreshed)
      ensures replies == if old(replies) == [] then [] else old(replies)[1..]
      ensures refreshes == old(refreshes)
    {
      r := ReplyAt(0);
      replies := if replies == [] then [] else replies[1..];
      calls := calls + 1;
    }

    method DoRefresh() returns (r: Refresh)
      modifies this
      ensures r == old(NextRefresh()) && refreshed == old(refreshed) + 1 && calls == old(calls)
      ensures replies == old(replies)
    {
      r := NextRefresh();
      refreshes := if refreshes == [] then [] else refreshes[1..];
      refreshed := refreshed + 1;
    }
  }

  // ---------------------------------------------------------------- cache

  datatype Entry = Entry(expiresAt: real, payload: Payload)

  type Cache = map<string, Entry>

  /** `f"GET:{path}:{params}"`, where params is None or prints as a dict. */
  function CacheKey(path: string, params: Option<string>): string {
    "GET:" + path + ":" + (if params.None? then "None" else params.value)
  }

  /** `_get_cache`: the cache without the entry if it has expired, and the fresh payload. */
  function Lookup(c: Cache, key: string, now: real): (Cache, Option<Payload>) {
    if key !in c then (c, None)
    else if now > c[key].expiresAt then (c - {key}, None)
    else (c, Some(c[key].payload))
  }

  function Store(c: Cache, key: string, payload: Payload, now: real, ttl: real): Cache {
    c[key := Entry(now + ttl, payload)]
  }

  /** `invalidate_cache(prefix)` */
  function Invalidate(c: Cache, prefix: string): (c': Cache)
    ensures forall k :: k in c' <==> k in c && !(prefix <= k)
    ensures forall k :: k in c' ==> c'[k] == c[k]
  {
    map k | k in c && !(prefix <= k) :: c[k]
  }

  class MarketplaceFacade {
    const client: MarketClient
    var cache: Cache

    constructor (client: MarketClient)
      ensures this.client == client && cache == map[]
    {
      this.client, cache := client, map[];
    }

    /** `_request`: at most two calls and one refresh. */
    method Request(isRetry: bool) returns (r: Outcome)
      modifies client
      ensures !isRetry ==> r == RequestOutcome(client.hasAuth, old(client.ReplyAt(0)), old(client.NextRefresh()), old(client.ReplyAt(1)))
      ensures isRetry ==> r == Settled(old(client.ReplyAt(0)))
      ensures var again := !isRetry && Retried(client.hasAuth, old(client.ReplyAt(0)), old(client.NextRefresh()));
              client.calls == old(client.calls) + if again then 2 else 1
      ensures var asked := !isRetry && client.hasAuth && old(client.ReplyAt(0)) == HttpError(401);
              client.refreshed == old(client.refreshed) + if asked then 1 else 0
      decreases !isRetry
    {
      var reply := client.Call();
      if reply == HttpError(401) && !isRetry && client.hasAuth {
        var refresh := client.DoRefresh();
        match refresh {
          case RefreshDenied => return FacadeError(401);
          case RefreshFailed =>
          case Refreshed =>
            r := Request(true);
            return;
        }
      }
      return Settled(reply);
    }

    method GetCache(key: string, now: real) returns (payload: Option<Payload>)
      modifies this
      ensures (cache, payload) == Lookup(old(cache), key, now)
    {
      if key !in cache {
        return None;
      }
      if now > cache[key].expiresAt {
        cache := cache - {key};
        return None;
      }
      return Some(cache[key].payload);
    }

    method SetCache(key: string, payload: Payload, ttl: real, now: real)
      modifies this
      ensures cache == Store(old(cache), key, payload, now, ttl)
    {
      cache := cache[key := Entry(now + ttl, payload)];
    }

    method InvalidateCache(prefix: string)
      modifies this
      ensures cache == Invalidate(old(cache), prefix)
    {
      if prefix == "" {
        cache := map[];
        return;
      }
      var keys := cache.Keys;
      while keys != {}
        invariant keys <= old(cache).Keys
        invariant forall k :: k in cache <==> k in old(cache) && (k in keys || !(prefix <= k))
        invariant forall k :: k in cache ==> cache[k] == old(cache)[k]
        decreases |keys|
      {
        var key :| key in keys;
        keys := keys - {key};
        if prefix <= key {
          cache := cache - {key};
        }
      }
      assert cache == Invalidate(old(cache), prefix);
    }

    /** `get`: the clock is read at the lookup and, on a miss, again when the response is stored. */
    method Get(path: string, params: Option<string>, ttl: Option<real>, now: real, later: real) returns (r: Outcome)
      modifies this, client
      ensures client.calls <= old(client.calls) + 2 && client.refreshed <= old(client.refreshed) + 1
      ensures var hit := ttl.Some? && CacheKey(path, params) in old(cache) && now <= old(cache)[CacheKey(path, params)].expiresAt;
              if hit then client.calls == old(client.calls) && r == Returned(old(cache)[CacheKey(path, params)].payload)
              else client.calls > old(client.calls)
      ensures var fetched := RequestOutcome(client.hasAuth, old(client.ReplyAt(0)), old(client.NextRefresh()), old(client.ReplyAt(1)));
              (cache, r) == Read(old(cache), path, params, ttl, now, later, fetched)
    {
      hide RequestOutcome;
      var key := CacheKey(path, params);
      if ttl.Some? {
        var cached := GetCache(key, now);
        if cached.Some? {
          return Returned(cached.value);
        }
      }
      r := Request(false);
      if ttl.Some? && r.Returned? {
        SetCache(key, r.payload, ttl.value, later);
      }
    }
  }

  /** A GET with the given cache, where a fetch would end as `fetched`. */
  function Read(
    c: Cache, path: string, params: Option<string>, ttl: Option<real>, now: real, later: real, fetched: Outcome
  ): (Cache, Outcome) {
    var key := CacheKey(path, params);
    var (c', cached) := if ttl.Some? then Lookup(c, key, now) else (c, None);
    if cached.Some? then (c', Returned(cached.value))
    else if ttl.Some? && fetched.Returned? then (Store(c', key, fetched.payload, later, ttl.value), fetched)
    else (c', fetched)
  }

  // ---------------------------------------------------------------- cached reads of the tool list

  const TOOLS_TTL := 30.0

  function ToolsPath(node: string): string {
    "/aim/nodes/" + node + "/tools"
  }

  function ToolsKey(node: string): string {
    CacheKey(ToolsPath(node), None)
  }

  /** The prefix the publish, update and delete handlers invalidate. */
  function ToolsPrefix(node: string): string {
    "GET:" + ToolsPath(node)
  }

  /** How a publish, update or delete ends: it took effect and said so, it failed without effect, or it
      took effect but its reply was lost. */
  datatype Mutation = Applied | Rejected | ReplyLost

  datatype Event =
    // tools_list: clock at the lookup and at the store, and whether a fetch succeeds
    | ListTools(now: real, later: real, reachable: bool)
    // any other cached or uncached GET
    | OtherGet(path: string, params: Option<string>, ttl: Option<real>, now: real, later: real, fetched: Outcome)
    | Change(tools: Payload, mutation: Mutation)
    | ClearAll

  /** The facade's cache, the backend's tool list, and when each cached payload was stored. */
  datatype State = State(cache: Cache, tools: Payload, stored: map<string, (real, real)>)

  /** params is None or the text of a dict. */
  predicate IsParams(params: Option<string>) {
    params.Some? ==> params.value != "" && params.value[|params.value| - 1] == '}'
  }

  predicate Enabled(node: string, e: Event) {
    match e
    case OtherGet(path, params, _, _, _, _) => IsParams(params) && (path, params) != (ToolsPath(node), None)
    case _ => true
  }

  function Fetched(s: State, reachable: bool): Outcome {
    if reachable then Returned(s.tools) else FacadeError(502)
  }

  /** What `tools_list` returns at an event. */
  function Listed(node: string, s: State, e: Event): Outcome
    requires e.ListTools?
  {
    Read(s.cache, ToolsPath(node), None, Some(TOOLS_TTL), e.now, e.later, Fetched(s, e.reachable)).1
  }

  function Step(node: string, s: State, e: Event): State {
    match e
    case ListTools(now, later, reachable) =>
      var (c, r) := Read(s.cache, ToolsPath(node), None, Some(TOOLS_TTL), now, later, Fetched(s, reachable));
      s.(cache := c,
         stored := if Lookup(s.cache, ToolsKey(node), now).1.None? && r.Returned?
                   then s.stored[ToolsKey(node) := (later, TOOLS_TTL)] else s.stored)
    case OtherGet(path, params, ttl, now, later, fetched) =>
      var (c, r) := Read(s.cache, path, params, ttl, now, later, fetched);
      s.(cache := c,
         stored := if ttl.Some? && Lookup(s.cache, CacheKey(path, params), now).1.None? && r.Returned?
                   then s.stored[CacheKey(path, params) := (later, ttl.value)] else s.stored)
    case Change(tools, mutation) =>
      s.(tools := if mutation == Rejected then s.tools else tools,
         cache := if mutation == Applied then Invalidate(s.cache, ToolsPrefix(node)) else s.cache)
    case ClearAll => s.(cache := Invalidate(s.cache, ""))
  }

  function Run(node: string, tools: Payload, es: seq<Event>): State
    decreases |es|
  {
    if es == [] then State(map[], tools, map[]) else Step(node, Run(node, tools, es[..|es| - 1]), es[|es| - 1])
  }

  /** Two keys of which one has no params are equal only for the same request. */
  lemma KeyDeterminesRequest(path: string, params: Option<string>, path2: string)
    requires IsParams(params) && CacheKey(path, params) == CacheKey(path2, None)
    ensures params == None && path == path2
  {
    var k, k2 := CacheKey(path, params), CacheKey(path2, None);
    assert k2[|k2| - 1] == 'e';
    if params.None? {
      assert k[4..|k| - 5] == path && k2[4..|k2| - 5] == path2;
    }
  }

  lemma ToolsKeyHasPrefix(node: string)
    ensures ToolsPrefix(node) <= ToolsKey(node)
  {
    var rest := ":" + "None";
    assert ToolsKey(node) == ToolsPrefix(node) + rest;
  }

  predicate NoReplyLost(es: seq<Event>) {
    forall i :: 0 <= i < |es| && es[i].Change? ==> es[i].mutation != ReplyLost
  }

  predicate AllEnabled(node: string, es: seq<Event>) {
    forall i :: 0 <= i < |es| ==> Enabled(node, es[i])
  }

  /** An applied mutation forgets what is cached of the node's tools, by path, and nothing else; any other
      leaves the cache alone. */
  lemma ChangeForgets(node: string, s: State, tools: Payload, mutation: Mutation, key: string)
    ensures var s' := Step(node, s, Change(tools, mutation));
            && (key in s'.cache <==> key in s.cache && !(mutation.Applied? && "GET:" + ("/aim/nodes/" + node + "/tools") <= key))
            && (key in s'.cache ==> s'.cache[key] == s.cache[key])
            && s'.tools == if mutation.Rejected? then s.tools else tools
  {
  }

  /** A cached tool list is the backend's. */
  predicate ToolsCurrent(node: string, s: State) {
    ToolsKey(node) in s.cache ==> s.cache[ToolsKey(node)].payload == s.tools
  }

  /** A cached payload expires its TTL after it was stored. */
  predicate ExpiryKnown(s: State) {
    forall k :: k in s.cache ==> k in s.stored && s.cache[k].expiresAt == s.stored[k].0 + s.stored[k].1
  }

  lemma StepCurrent(node: string, s: State, e: Event)
    requires ToolsCurrent(node, s) && Enabled(node, e) && (e.Change? ==> e.mutation != ReplyLost)
    ensures ToolsCurrent(node, Step(node, s, e))
  {
    hide CacheKey, ToolsPath;
    ToolsKeyHasPrefix(node);
    if e.OtherGet? && CacheKey(e.path, e.params) == ToolsKey(node) {
      KeyDeterminesRequest(e.path, e.params, ToolsPath(node));
    }
  }

  lemma StepExpiry(node: string, s: State, e: Event)
    requires ExpiryKnown(s)
    ensures ExpiryKnown(Step(node, s, e))
  {
    hide CacheKey, ToolsPath;
  }

  lemma {:induction false} RunsKeep(node: string, tools: Payload, es: seq<Event>)
    requires AllEnabled(node, es)
    ensures ExpiryKnown(Run(node, tools, es))
    ensures NoReplyLost(es) ==> ToolsCurrent(node, Run(node, tools, es))
    decreases |es|
  {
    hide Step, ToolsCurrent, ExpiryKnown, Enabled;
    if es == [] {
      EmptyCache(node, tools);
    } else {
      var front := es[..|es| - 1];
      assert forall i :: 0 <= i < |front| ==> front[i] == es[i];
      RunsKeep(node, tools, front);
      StepExpiry(node, Run(node, tools, front), es[|es| - 1]);
      if NoReplyLost(es) {
        StepCurrent(node, Run(node, tools, front), es[|es| - 1]);
      }
    }
  }

  lemma EmptyCache(node: string, tools: Payload)
    ensures ExpiryKnown(State(map[], tools, map[])) && ToolsCurrent(node, State(map[], tools, map[]))
  {
  }

  /** Cache refinement.  In every run in which no mutation takes effect without its reply arriving,
      whatever `tools_list` returns is what an uncached read would return at that moment. */
  lemma CachedReadsRefine(node: string, tools: Payload, es: seq<Event>, e: Event)
    requires AllEnabled(node, es) && NoReplyLost(es) && e.ListTools?
    ensures var s := Run(node, tools, es);
            Listed(node, s, e).Returned? ==> Listed(node, s, e).payload == s.tools
  {
    hide ToolsPath, CacheKey;
    RunsKeep(node, tools, es);
  }

  /** A `tools_list` that asks the backend and stores what it gets. */
  predicate Fetches(node: string, s: State, e: Event) {
    e.ListTools? && e.reachable && Lookup(s.cache, ToolsKey(node), e.now).1.None?
  }

  /** What takes the cached list away, whether or not another one is stored. */
  predicate Replaces(node: string, s: State, e: Event) {
    Fetches(node, s, e) || (e.Change? && e.mutation == Applied) || e.ClearAll?
  }

  /** Event i fetched the tool list, and no event after it took the copy away. */
  predicate CopiedAt(node: string, tools: Payload, es: seq<Event>, i: nat) {
    && i < |es| && Fetches(node, Run(node, tools, es[..i]), es[i])
    && forall j :: i < j < |es| ==> !Replaces(node, Run(node, tools, es[..j]), es[j])
  }

  /** A cached tool list is the backend's list at the time it was fetched. */
  lemma {:induction false} CopyIsOfItsTime(node: string, tools: Payload, es: seq<Event>) returns (i: nat)
    requires AllEnabled(node, es) && ToolsKey(node) in Run(node, tools, es).cache
    ensures CopiedAt(node, tools, es, i)
    ensures Run(node, tools, es).cache[ToolsKey(node)].payload == Run(node, tools, es[..i]).tools
    decreases |es|
  {
    hide CacheKey, ToolsPath, Step, Replaces, Fetches, Enabled, CopiedAt;
    assert es != [];
    var front, last := es[..|es| - 1], es[|es| - 1];
    assert AllEnabled(node, front) by {
      assert forall j :: 0 <= j < |front| ==> front[j] == es[j];
    }
    StepCopy(node, Run(node, tools, front), last);
    if Fetches(node, Run(node, tools, front), last) {
      i := |front|;
      CopiedLast(node, tools, es);
    } else {
      i := CopyIsOfItsTime(node, tools, front);
      CopiedBefore(node, tools, es, i);
    }
  }

  lemma CopiedLast(node: string, tools: Payload, es: seq<Event>)
    requires es != [] && Fetches(node, Run(node, tools, es[..|es| - 1]), es[|es| - 1])
    ensures CopiedAt(node, tools, es, |es| - 1)
  {
    hide Run, Fetches, Replaces;
  }

  lemma CopiedBefore(node: string, tools: Payload, es: seq<Event>, i: nat)
    requires es != [] && CopiedAt(node, tools, es[..|es| - 1], i)
    requires !Replaces(node, Run(node, tools, es[..|es| - 1]), es[|es| - 1])
    ensures CopiedAt(node, tools, es, i) && i < |es| - 1 && es[..|es| - 1][..i] == es[..i]
  {
    hide Run, Fetches, Replaces;
    var front := es[..|es| - 1];
    assert front[i] == es[i] && front[..i] == es[..i];
    forall j | i < j < |es| ensures !Replaces(node, Run(node, tools, es[..j]), es[j]) {
      if j < |front| {
        assert front[j] == es[j] && front[..j] == es[..j];
      }
    }
  }

  /** After a step that leaves a tool list cached, it was fetched by that step or was there before. */
  lemma StepCopy(node: string, s: State, e: Event)
    requires Enabled(node, e) && ToolsKey(node) in Step(node, s, e).cache
    ensures Fetches(node, s, e) ==> Step(node, s, e).cache[ToolsKey(node)].payload == s.tools
    ensures !Fetches(node, s, e) ==>
              && !Replaces(node, s, e) && ToolsKey(node) in s.cache
              && Step(node, s, e).cache[ToolsKey(node)] == s.cache[ToolsKey(node)]
  {
    hide CacheKey, ToolsPath;
    ToolsKeyHasPrefix(node);
    if e.OtherGet? && CacheKey(e.path, e.params) == ToolsKey(node) {
      KeyDeterminesRequest(e.path, e.params, ToolsPath(node));
    }
  }

  /** Exactly when lost replies show.  In every run, whatever mutations took effect without saying so, a
      read returns the backend's list exactly when no fresh copy is cached or the list is, on balance,
      what it was when that copy was fetched. */
  lemma StaleReadIff(node: string, tools: Payload, es: seq<Event>, e: Event) returns (i: nat)
    requires AllEnabled(node, es) && e.ListTools? && e.reachable
    ensures var s := Run(node, tools, es);
            var cached := Lookup(s.cache, ToolsKey(node), e.now).1;
            && (cached.Some? ==> CopiedAt(node, tools, es, i))
            && (Listed(node, s, e) == Returned(s.tools)
                <==> cached.None? || Run(node, tools, es[..i]).tools == s.tools)
  {
    hide CacheKey, ToolsPath, CopiedAt, Run;
    i := 0;
    if ToolsKey(node) in Run(node, tools, es).cache {
      i := CopyIsOfItsTime(node, tools, es);
    }
  }

  /** A fetched list is served for 30 seconds: as long as nothing replaces it and every lookup comes in that
      time, it stays in the cache. */
  lemma {:induction false} FreshCopyServes(node: string, tools: Payload, es: seq<Event>, i: nat)
    requires AllEnabled(node, es) && CopiedAt(node, tools, es, i)
    requires forall j :: i < j < |es| && es[j].ListTools? ==> es[j].now <= es[i].later + 30.0
    ensures var s := Run(node, tools, es);
            ToolsKey(node) in s.cache && s.cache[ToolsKey(node)] == Entry(es[i].later + 30.0, Run(node, tools, es[..i]).tools)
    decreases |es|
  {
    hide CacheKey, ToolsPath, Step, Replaces, Fetches, Enabled;
    var front, last := es[..|es| - 1], es[|es| - 1];
    assert forall j :: 0 <= j < |front| ==> front[j] == es[j] && front[..j] == es[..j];
    assert front == es[..|front|];
    if i < |front| {
      assert !Replaces(node, Run(node, tools, front), last);
      FreshCopyServes(node, tools, front, i);
      StepKeepsCopy(node, Run(node, tools, front), last);
    } else {
      StepFetches(node, Run(node, tools, front), last);
    }
  }

  lemma StepFetches(node: string, s: State, e: Event)
    requires Fetches(node, s, e)
    ensures ToolsKey(node) in Step(node, s, e).cache && Step(node, s, e).cache[ToolsKey(node)] == Entry(e.later + 30.0, s.tools)
  {
    hide CacheKey, ToolsPath;
  }

  lemma StepKeepsCopy(node: string, s: State, e: Event)
    requires Enabled(node, e) && ToolsKey(node) in s.cache && !Replaces(node, s, e)
    requires e.ListTools? ==> e.now <= s.cache[ToolsKey(node)].expiresAt
    ensures ToolsKey(node) in Step(node, s, e).cache && Step(node, s, e).cache[ToolsKey(node)] == s.cache[ToolsKey(node)]
  {
    hide CacheKey, ToolsPath;
    if e.OtherGet? && CacheKey(e.path, e.params) == ToolsKey(node) {
      KeyDeterminesRequest(e.path, e.params, ToolsPath(node));
    }
  }

  /** A payload a GET returns from the cache was stored no longer ago than the TTL it was stored with. */
  lemma ReturnedWithinTtl(node: string, tools: Payload, es: seq<Event>, key: string, now: real)
    requires AllEnabled(node, es) && Lookup(Run(node, tools, es).cache, key, now).1.Some?
    ensures key in Run(node, tools, es).stored
    ensures now - Run(node, tools, es).stored[key].0 <= Run(node, tools, es).stored[key].1
  {
    RunsKeep(node, tools, es);
  }
}
