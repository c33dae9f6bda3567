/** The allAI chat: up to five posts to the backend, with the actions it proposes executed in between
    or kept for confirmation (aim_node/management/allai.py). */
module AgentLoop {
  import opened Results

  const MAX_AUTO_EXEC_DEPTH := 5

  datatype Action = Action(id: string, description: string, tool: string, params: string, requiresConfirmation: bool)

  /** The tools with a local handler. */
  const HANDLERS := [
    "inspect_local_config", "test_market_auth", "scan_provider_endpoint",
    "list_local_tools", "tail_recent_logs", "explain_last_failure"
  ]

  /** One call of `_execute_action`: the allowed tools it reads at that moment, and what the handler
      would return, None for an exception. */
  datatype Attempt = Attempt(allowedNow: seq<string>, handler: Option<string>)

  datatype Execution = Done(result: string) | Forbidden | NotAvailable | Threw

  function Execute(action: Action, attempt: Attempt): Execution {
    if action.tool !in attempt.allowedNow then Forbidden
    else if action.tool !in HANDLERS then NotAvailable
    else
      match attempt.handler
      case None => Threw
      case Some(result) => Done(result)
  }

  /** Whether a tool is one of the six with a local handler. */
  predicate IsLocal(tool: string) {
    || tool == "inspect_local_config" || tool == "test_market_auth" || tool == "scan_provider_endpoint"
    || tool == "list_local_tools" || tool == "tail_recent_logs" || tool == "explain_last_failure"
  }

  /** How the execution of an action has to end: with the handler's result only for a tool that is allowed
      at that moment and has a handler. */
  predicate Explains(a: Action, attempt: Attempt, e: Execution) {
    var allowed := a.tool in attempt.allowedNow;
    match e
    case Done(result) => allowed && IsLocal(a.tool) && attempt.handler == Some(result)
    case Forbidden => !allowed
    case NotAvailable => allowed && !IsLocal(a.tool)
    case Threw => allowed && IsLocal(a.tool) && attempt.handler == None
  }

  lemma ExecuteIff(a: Action, attempt: Attempt, e: Execution)
    ensures Execute(a, attempt) == e <==> Explains(a, attempt, e)
  {
  }

  datatype Executed = Executed(action: Action, result: string)

  /** How a chat ends. `posts` is what each post carried as tool results, `proposed` every action the
      backend proposed, `rounds` the number of execution rounds. */
  datatype Chat =
    | Answered(executed: seq<Executed>, pending: seq<Action>, posts: seq<seq<Executed>>, proposed: seq<Action>, rounds: nat)
    | Refused
    | Escaped

  // ---------------------------------------------------------------- sorting the proposals

  function Confirmable(a: Action): Action {
    a.(requiresConfirmation := true)
  }

  predicate Automatic(allowed: seq<string>, a: Action) {
    !a.requiresConfirmation && a.tool in allowed
  }

  /** The actions to execute at once. */
  function AutoOf(allowed: seq<string>, actions: seq<Action>): seq<Action> {
    if actions == [] then []
    else
      AutoOf(allowed, actions[..|actions| - 1])
      + if Automatic(allowed, actions[|actions| - 1]) then [actions[|actions| - 1]] else []
  }

  /** The actions kept for the user; one that is not allowed is marked as needing confirmation. */
  function PendingOf(allowed: seq<string>, actions: seq<Action>): seq<Action> {
    if actions == [] then []
    else
      PendingOf(allowed, actions[..|actions| - 1])
      + if Automatic(allowed, actions[|actions| - 1]) then [] else [Confirmable(actions[|actions| - 1])]
  }

  function AllConfirmable(actions: seq<Action>): (r: seq<Action>)
    ensures |r| == |actions| && forall i :: 0 <= i < |r| ==> r[i] == Confirmable(actions[i])
  {
    seq(|actions|, i requires 0 <= i < |actions| => Confirmable(actions[i]))
  }

  /** Executing actions in order until one fails. */
  function ExecuteAll(actions: seq<Action>, attempts: seq<Attempt>): (r: (seq<Executed>, Option<Execution>))
    ensures |r.0| <= |attempts|
  {
    if actions == [] then ([], None)
    else if attempts == [] then ([], Some(Threw))
    else
      match Execute(actions[0], attempts[0])
      case Done(result) =>
        var (more, failure) := ExecuteAll(actions[1..], attempts[1..]);
        ([Executed(actions[0], result)] + more, failure)
      case failure => ([], Some(failure))
  }

  // ---------------------------------------------------------------- the loop

  /** What the loop carries from one round to the next. */
  datatype Progress = Progress(
    executed: seq<Executed>, results: seq<Executed>, posts: seq<seq<Executed>>, proposed: seq<Action>, rounds: nat
  )

  const START := Progress([], [], [], [], 0)

  /** The rounds from a given depth on.  `replies` are the proposals of the posts to come, None for
      a post that raises. */
  function Rounds(
    allowed: seq<string>, depth: nat, p: Progress, replies: seq<Option<seq<Action>>>, attempts: seq<Attempt>
  ): Chat
    decreases MAX_AUTO_EXEC_DEPTH - depth
  {
    if depth >= MAX_AUTO_EXEC_DEPTH then Answered(p.executed, [], p.posts, p.proposed, p.rounds)
    else if replies == [] || replies[0].None? then Escaped
    else
      var actions := replies[0].value;
      var posts, proposed := p.posts + [p.results], p.proposed + actions;
      var auto, pending := AutoOf(allowed, actions), PendingOf(allowed, actions);
      if auto == [] then Answered(p.executed, pending, posts, proposed, p.rounds)
      else if depth == MAX_AUTO_EXEC_DEPTH - 1 then
        Answered(p.executed, pending + AllConfirmable(auto), posts, proposed, p.rounds)
      else
        var (done, failure) := ExecuteAll(auto, attempts);
        match failure
        case Some(Threw) => Escaped
        case Some(_) => Refused
        case None =>
          var p' := Progress(p.executed + done, done, posts, proposed, p.rounds + 1);
          if pending != [] then Answered(p'.executed, pending, posts, proposed, p'.rounds)
          else Rounds(allowed, depth + 1, p', replies[1..], attempts[|done|..])
  }

  // ---------------------------------------------------------------- the action cache

  /** Caching every pending action under its id. */
  function CacheAll(cache: map<string, Action>, pending: seq<Action>): map<string, Action> {
    if pending == [] then cache
    else CacheAll(cache, pending[..|pending| - 1])[pending[|pending| - 1].id := pending[|pending| - 1]]
  }

  datatype Confirmation = UnknownAction | Denied | Confirmed(outcome: Execution)

  function Confirm(cache: map<string, Action>, id: string, approved: bool, attempt: Attempt): (map<string, Action>, Confirmation) {
    if id !in cache then (cache, UnknownAction)
    else (cache - {id}, if approved then Confirmed(Execute(cache[id], attempt)) else Denied)
  }

  // ---------------------------------------------------------------- the handlers

  /** The remote backend: its replies to come and the tool results each post carried. */
  class Backend {
    var replies: seq<Option<seq<Action>>>
    var posts: seq<seq<Executed>>

    constructor (replies: seq<Option<seq<Action>>>)
      ensures this.replies == replies && posts == []
    {
      this.replies, posts := replies, [];
    }

    method Post(results: seq<Executed>) returns (r: Option<seq<Action>>)
      modifies this
      ensures r == if old(replies) == [] then None else old(replies)[0]
      ensures replies == if old(replies) == [] then [] else old(replies)[1..]
      ensures posts == old(posts) + [results]
    {
      posts := posts + [results];
      r := if replies == [] then None else replies[0];
      replies := if replies == [] then [] else replies[1..];
    }
  }

  class AllAI {
    var cache: map<string, Action>

    constructor ()
      ensures cache == map[]
    {
      cache := map[];
    }

    /** The loop that sorts one reply's actions. */
    method Sort(allowed: seq<string>, actions: seq<Action>) returns (auto: seq<Action>, pending: seq<Action>)
      ensures auto == AutoOf(allowed, actions) && pending == PendingOf(allowed, actions)
    {
      auto, pending := [], [];
      for i := 0 to |actions|
        invariant auto == AutoOf(allowed, actions[..i]) && pending == PendingOf(allowed, actions[..i])
      {
        assert actions[..i + 1][..i] == actions[..i];
        var action := actions[i];
        if action.requiresConfirmation {
          assert action == Confirmable(action);
          pending := pending + [action];
        } else if action.tool in allowed {
          auto := auto + [action];
        } else {
          pending := pending + [Confirmable(action)];
        }
      }
      assert actions[..|actions|] == actions;
    }

    /** The loop that executes one round's actions. */
    method RunAll(auto: seq<Action>, attempts: seq<Attempt>) returns (results: seq<Executed>, failure: Option<Execution>)
      ensures results == ExecuteAll(auto, attempts).0 && failure == ExecuteAll(auto, attempts).1
    {
      hide Execute;
      results := [];
      var i := 0;
      while i < |auto|
        invariant i == |results| <= |auto| && i <= |attempts|
        invariant ExecuteAll(auto, attempts).0 == results + ExecuteAll(auto[i..], attempts[i..]).0
        invariant ExecuteAll(auto, attempts).1 == ExecuteAll(auto[i..], attempts[i..]).1
      {
        assert auto[i..][1..] == auto[i + 1..] && auto[i..][0] == auto[i];
        if i == |attempts| {
          return results, Some(Threw);
        }
        assert attempts[i..][1..] == attempts[i + 1..] && attempts[i..][0] == attempts[i];
        match Execute(auto[i], attempts[i]) {
          case Done(result) =>
            results := results + [Executed(auto[i], result)];
          case fault =>
            return results, Some(fault);
        }
        i := i + 1;
      }
      return results, None;
    }

    /** The loop that caches the pending actions. */
    method CachePending(pending: seq<Action>)
      modifies this
      ensures cache == CacheAll(old(cache), pending)
    {
      for i := 0 to |pending|
        invariant cache == CacheAll(old(cache), pending[..i])
      {
        assert pending[..i + 1][..i] == pending[..i];
        cache := cache[pending[i].id := pending[i]];
      }
      assert pending[..|pending|] == pending;
    }

    /** `allai_chat` after its payload is built. */
    method ChatWith(backend: Backend, allowed: seq<string>, attempts: seq<Attempt>) returns (r: Chat)
      requires backend.posts == []
      modifies this, backend
      ensures r == Rounds(allowed, 0, START, old(backend.replies), attempts)
      ensures r.Answered? ==> backend.posts == r.posts && cache == CacheAll(old(cache), r.pending)
      ensures !r.Answered? ==> cache == old(cache)
    {
      hide ExecuteAll, AutoOf, PendingOf, CacheAll;
      var executed: seq<Executed>, results: seq<Executed>, proposed: seq<Action> := [], [], [];
      var pending: seq<Action> := [];
      var left := attempts;
      var depth, rounds := 0, 0;
      while depth < MAX_AUTO_EXEC_DEPTH
        invariant depth <= MAX_AUTO_EXEC_DEPTH && pending == [] && cache == old(cache)
        invariant Rounds(allowed, depth, Progress(executed, results, backend.posts, proposed, rounds), backend.replies, left)
               == Rounds(allowed, 0, START, old(backend.replies), attempts)
      {
        var reply := backend.Post(results);
        if reply.None? {
          return Escaped;
        }
        proposed := proposed + reply.value;
        var auto: seq<Action>;
        auto, pending := Sort(allowed, reply.value);
        if auto == [] {
          break;
        }
        if depth == MAX_AUTO_EXEC_DEPTH - 1 {
          pending := pending + AllConfirmable(auto);
          break;
        }
        var failure: Option<Execution>;
        results, failure := RunAll(auto, left);
        if failure.Some? {
          return if failure.value.Threw? then Escaped else Refused;
        }
        executed := executed + results;
        left := left[|results|..];
        rounds := rounds + 1;
        if pending != [] {
          break;
        }
        depth := depth + 1;
      }
      CachePending(pending);
      return Answered(executed, pending, backend.posts, proposed, rounds);
    }

    /** `allai_confirm` */
    method ConfirmAction(id: string, approved: bool, attempt: Attempt) returns (r: Confirmation)
      modifies this
      ensures (cache, r) == Confirm(old(cache), id, approved, attempt)
    {
      if id !in cache {
        return UnknownAction;
      }
      var action := cache[id];
      cache := cache - {id};
      if !approved {
        return Denied;
      }
      return Confirmed(Execute(action, attempt));
    }
  }

  // ---------------------------------------------------------------- conservation

  function ActionsOf(executed: seq<Executed>): (r: seq<Action>)
    ensures |r| == |executed| && forall i :: 0 <= i < |r| ==> r[i] == executed[i].action
  {
    seq(|executed|, i requires 0 <= i < |executed| => executed[i].action)
  }

  /** The actions as a bag, with the confirmation mark ignored. */
  function Bag(actions: seq<Action>): multiset<Action> {
    multiset(AllConfirmable(actions))
  }

  lemma BagConcat(a: seq<Action>, b: seq<Action>)
    ensures Bag(a + b) == Bag(a) + Bag(b)
  {
    assert AllConfirmable(a + b) == AllConfirmable(a) + AllConfirmable(b);
  }

  lemma BagConfirmable(a: seq<Action>)
    ensures Bag(AllConfirmable(a)) == Bag(a)
  {
    assert AllConfirmable(AllConfirmable(a)) == AllConfirmable(a);
  }

  lemma BagSnoc(a: seq<Action>, x: Action)
    ensures Bag(a + [x]) == Bag(a) + multiset{Confirmable(x)}
  {
    assert AllConfirmable(a + [x]) == AllConfirmable(a) + [Confirmable(x)];
  }

  lemma {:induction false} SortingConserves(allowed: seq<string>, actions: seq<Action>)
    ensures Bag(actions) == Bag(AutoOf(allowed, actions)) + Bag(PendingOf(allowed, actions))
  {
    hide Bag, Automatic;
    if actions == [] {
      NoBag();
    } else {
      var front, last := actions[..|actions| - 1], actions[|actions| - 1];
      SortingConserves(allowed, front);
      assert actions == front + [last];
      BagSnoc(front, last);
      if Automatic(allowed, last) {
        BagSnoc(AutoOf(allowed, front), last);
        assert PendingOf(allowed, actions) == PendingOf(allowed, front);
      } else {
        BagSnoc(PendingOf(allowed, front), Confirmable(last));
        assert AutoOf(allowed, actions) == AutoOf(allowed, front);
      }
    }
  }

  /** Exactly the actions that need no confirmation and are allowed are executed at once; the others are
      kept, all of them to be confirmed. */
  lemma {:induction false} SortingKinds(allowed: seq<string>, actions: seq<Action>)
    ensures forall a :: a in AutoOf(allowed, actions) <==> a in actions && !a.requiresConfirmation && a.tool in allowed
    ensures forall a :: a in PendingOf(allowed, actions) ==> a.requiresConfirmation
    ensures forall a :: a in actions && (a.requiresConfirmation || a.tool !in allowed) ==>
              a.(requiresConfirmation := true) in PendingOf(allowed, actions)
  {
    if actions != [] {
      SortingKinds(allowed, actions[..|actions| - 1]);
      assert actions == actions[..|actions| - 1] + [actions[|actions| - 1]];
    }
  }

  lemma NoBag()
    ensures Bag([]) == multiset{}
  {
  }

  /** An executed action was allowed when the chat began, needed no confirmation and has a handler. */
  predicate RightlyExecuted(allowed: seq<string>, e: Executed) {
    !e.action.requiresConfirmation && e.action.tool in allowed && IsLocal(e.action.tool)
  }

  /** The i-th executed action was allowed at its own attempt and has what its handler returned then. */
  predicate FromHandlers(executed: seq<Executed>, attempts: seq<Attempt>) {
    && |executed| <= |attempts|
    && forall i :: 0 <= i < |executed| ==> Explains(executed[i].action, attempts[i], Done(executed[i].result))
  }

  /** A round executes its actions in order, each with its handler's result, up to the first that fails. */
  lemma {:induction false} ExecutionComplete(allowed: seq<string>, actions: seq<Action>, attempts: seq<Attempt>)
    requires forall a :: a in actions ==> Automatic(allowed, a)
    ensures var (done, failure) := ExecuteAll(actions, attempts);
            && ActionsOf(done) <= actions && FromHandlers(done, attempts)
            && (forall e :: e in done ==> RightlyExecuted(allowed, e))
            && match failure
               case None => ActionsOf(done) == actions
               case Some(e) =>
                 && |done| < |actions|
                 && if |done| == |attempts| then e == Threw else !e.Done? && Explains(actions[|done|], attempts[|done|], e)
  {
    hide Execute, IsLocal, FromHandlers;
    if actions == [] || attempts == [] {
      NothingExecuted(attempts);
    } else {
      assert actions[0] in actions;
      var e := Execute(actions[0], attempts[0]);
      ExecuteIff(actions[0], attempts[0], e);
      ExecutionComplete(allowed, actions[1..], attempts[1..]);
      assert actions == [actions[0]] + actions[1..];
      assert attempts == [attempts[0]] + attempts[1..];
      if e.Done? {
        OneMoreExecuted(Executed(actions[0], e.result), ExecuteAll(actions[1..], attempts[1..]).0, attempts);
      } else {
        NothingExecuted(attempts);
      }
    }
  }

  lemma NothingExecuted(attempts: seq<Attempt>)
    ensures FromHandlers([], attempts) && ActionsOf([]) == []
  {
  }

  lemma OneMoreExecuted(x: Executed, done: seq<Executed>, attempts: seq<Attempt>)
    requires attempts != [] && FromHandlers(done, attempts[1..]) && Explains(x.action, attempts[0], Done(x.result))
    ensures FromHandlers([x] + done, attempts)
    ensures ActionsOf([x] + done) == [x.action] + ActionsOf(done)
  {
    hide Explains;
  }

  function Flatten(posts: seq<seq<Executed>>): seq<Executed> {
    if posts == [] then [] else Flatten(posts[..|posts| - 1]) + posts[|posts| - 1]
  }

  /** Between rounds: everything proposed has been executed, and everything executed has been posted
      or is about to be. */
  predicate Balanced(allowed: seq<string>, p: Progress) {
    && Bag(p.proposed) == Bag(ActionsOf(p.executed))
    && Flatten(p.posts) + p.results == p.executed
    && forall e :: e in p.executed ==> RightlyExecuted(allowed, e)
  }

  /** What holds of a chat that returns normally. */
  predicate Conserved(allowed: seq<string>, r: Chat)
    requires r.Answered?
  {
    // nothing proposed is lost, and nothing is both executed and pending
    && Bag(r.proposed) == Bag(ActionsOf(r.executed)) + Bag(r.pending)
    && (forall e :: e in r.executed ==> RightlyExecuted(allowed, e))
    && (forall a :: a in r.pending ==> a.requiresConfirmation)
    // the backend was told a prefix of the results, in order
    && Flatten(r.posts) <= r.executed
    && |r.posts| <= 5 && r.rounds <= 4
  }

  lemma RoundBalances(allowed: seq<string>, p: Progress, actions: seq<Action>, done: seq<Executed>)
    requires Balanced(allowed, p) && ActionsOf(done) == AutoOf(allowed, actions)
    ensures Bag(p.proposed + actions) == Bag(ActionsOf(p.executed + done)) + Bag(PendingOf(allowed, actions))
    ensures Flatten(p.posts + [p.results]) == p.executed
  {
    hide AutoOf, PendingOf, Bag, RightlyExecuted, Flatten;
    SortingConserves(allowed, actions);
    BagConcat(p.proposed, actions);
    BagConcat(ActionsOf(p.executed), ActionsOf(done));
    assert ActionsOf(p.executed + done) == ActionsOf(p.executed) + ActionsOf(done);
    FlattenSnoc(p.posts, p.results);
  }

  lemma FlattenSnoc(posts: seq<seq<Executed>>, results: seq<Executed>)
    ensures Flatten(posts + [results]) == Flatten(posts) + results
  {
    assert (posts + [results])[..|posts|] == posts;
  }

  lemma {:induction false} RoundsConserve(
    allowed: seq<string>, depth: nat, p: Progress, replies: seq<Option<seq<Action>>>, attempts: seq<Attempt>
  )
    requires Balanced(allowed, p) && |p.posts| == p.rounds == depth < MAX_AUTO_EXEC_DEPTH
    ensures var r := Rounds(allowed, depth, p, replies, attempts); r.Answered? ==> Conserved(allowed, r)
    decreases MAX_AUTO_EXEC_DEPTH - depth
  {
    hide AutoOf, PendingOf, ExecuteAll, Bag, Flatten, RightlyExecuted, FromHandlers, Explains;
    if replies != [] && replies[0].Some? {
      var actions := replies[0].value;
      var auto, pending := AutoOf(allowed, actions), PendingOf(allowed, actions);
      SortingKinds(allowed, actions);
      if auto == [] || depth == MAX_AUTO_EXEC_DEPTH - 1 {
        LastRound(allowed, p, actions);
      } else {
        var (done, failure) := ExecuteAll(auto, attempts);
        ExecutionComplete(allowed, auto, attempts);
        if failure.None? {
          RoundBalances(allowed, p, actions, done);
          if pending == [] {
            NoBag();
            RoundsConserve(allowed, depth + 1, Progress(p.executed + done, done, p.posts + [p.results], p.proposed + actions, p.rounds + 1),
                           replies[1..], attempts[|done|..]);
          }
        }
      }
    }
  }

  /** The round that executes nothing. */
  lemma LastRound(allowed: seq<string>, p: Progress, actions: seq<Action>)
    requires Balanced(allowed, p)
    ensures var pending := PendingOf(allowed, actions) + AllConfirmable(AutoOf(allowed, actions));
            && Bag(p.proposed + actions) == Bag(ActionsOf(p.executed)) + Bag(pending)
            && forall a :: a in pending ==> a.requiresConfirmation
    ensures AutoOf(allowed, actions) == [] ==>
              PendingOf(allowed, actions) + AllConfirmable(AutoOf(allowed, actions)) == PendingOf(allowed, actions)
    ensures Flatten(p.posts + [p.results]) == p.executed
  {
    hide AutoOf, PendingOf, Bag, RightlyExecuted, Flatten;
    SortingConserves(allowed, actions);
    SortingKinds(allowed, actions);
    BagConcat(p.proposed, actions);
    BagConcat(PendingOf(allowed, actions), AllConfirmable(AutoOf(allowed, actions)));
    BagConfirmable(AutoOf(allowed, actions));
    FlattenSnoc(p.posts, p.results);
  }

  /** Conservation.  For every sequence of backend replies, a chat that returns normally has made at
      most five posts and executed actions in at most four rounds; every action proposed in any round
      is exactly once in executed or pending; and every executed action was allowed and did not
      require confirmation. */
  lemma ChatConserves(allowed: seq<string>, replies: seq<Option<seq<Action>>>, attempts: seq<Attempt>)
    ensures var r := Rounds(allowed, 0, START, replies, attempts); r.Answered? ==> Conserved(allowed, r)
  {
    assert Balanced(allowed, START);
    RoundsConserve(allowed, 0, START, replies, attempts);
  }

  /** Attempts are used up in order: what a chat executed is what its first attempts returned. */
  lemma {:induction false} ResultsAreHandlers(
    allowed: seq<string>, depth: nat, p: Progress, replies: seq<Option<seq<Action>>>, used: seq<Attempt>, left: seq<Attempt>
  )
    requires |used| == |p.executed| && FromHandlers(p.executed, used)
    ensures var r := Rounds(allowed, depth, p, replies, left); r.Answered? ==> FromHandlers(r.executed, used + left)
    decreases 5 - depth
  {
    hide AutoOf, PendingOf, ExecuteAll, Explains, RightlyExecuted, Automatic;
    if depth < 5 && replies != [] && replies[0].Some? {
      var auto := AutoOf(allowed, replies[0].value);
      AutoAreAutomatic(allowed, replies[0].value);
      ExecutionComplete(allowed, auto, left);
      var (done, failure) := ExecuteAll(auto, left);
      var now, rest := left[..|done|], left[|done|..];
      assert used + left == used + now + rest;
      var p' := Progress(p.executed + done, done, p.posts + [p.results], p.proposed + replies[0].value, p.rounds + 1);
      ResultsAreHandlers(allowed, depth + 1, p', replies[1..], used + now, rest);
    }
  }

  lemma AutoAreAutomatic(allowed: seq<string>, actions: seq<Action>)
    ensures forall a :: a in AutoOf(allowed, actions) ==> Automatic(allowed, a)
  {
    SortingKinds(allowed, actions);
  }

  /** Where a chat stops: at the first reply that leaves something to confirm or proposes nothing to
      execute, or at the fifth, whose automatic actions are kept as well. */
  ghost predicate StopsAt(allowed: seq<string>, replies: seq<Option<seq<Action>>>, n: nat, fifth: bool, pending: seq<Action>) {
    && 0 < n <= |replies|
    && (forall j :: 0 <= j < n ==> replies[j].Some?)
    && (forall j :: 0 <= j < n - 1 ==> PendingOf(allowed, replies[j].value) == [] && AutoOf(allowed, replies[j].value) != [])
    && var last := replies[n - 1].value;
       var auto, kept := AutoOf(allowed, last), PendingOf(allowed, last);
       && (auto == [] || kept != [] || fifth)
       && pending == kept + if fifth then AllConfirmable(auto) else []
  }

  lemma {:induction false} ChatStopsAt(
    allowed: seq<string>, depth: nat, p: Progress, replies: seq<Option<seq<Action>>>, attempts: seq<Attempt>
  )
    requires |p.posts| == p.rounds == depth < 5
    ensures var r := Rounds(allowed, depth, p, replies, attempts);
            r.Answered? ==> |r.posts| > depth && StopsAt(allowed, replies, |r.posts| - depth, |r.posts| == 5, r.pending)
    decreases 5 - depth
  {
    hide AutoOf, PendingOf, ExecuteAll;
    if replies != [] && replies[0].Some? {
      var actions := replies[0].value;
      var (done, failure) := ExecuteAll(AutoOf(allowed, actions), attempts);
      var p' := Progress(p.executed + done, done, p.posts + [p.results], p.proposed + actions, p.rounds + 1);
      if depth < 4 && PendingOf(allowed, actions) == [] && AutoOf(allowed, actions) != [] && failure.None? {
        ChatStopsAt(allowed, depth + 1, p', replies[1..], attempts[|done|..]);
        assert replies == [replies[0]] + replies[1..];
      }
    }
  }

  /** So a whole chat. */
  lemma ChatEnds(allowed: seq<string>, replies: seq<Option<seq<Action>>>, attempts: seq<Attempt>)
    ensures var r := Rounds(allowed, 0, START, replies, attempts);
            r.Answered? ==> StopsAt(allowed, replies, |r.posts|, |r.posts| == 5, r.pending) && FromHandlers(r.executed, attempts)
  {
    hide Rounds, StopsAt, Explains;
    ChatStopsAt(allowed, 0, START, replies, attempts);
    ResultsAreHandlers(allowed, 0, START, replies, [], attempts);
    assert [] + attempts == attempts;
  }

  // ---------------------------------------------------------------- confirming

  predicate SameIdSameAction(pending: seq<Action>) {
    forall i, j :: 0 <= i < j < |pending| && pending[i].id == pending[j].id ==> pending[i] == pending[j]
  }

  lemma {:induction false} CachedIsLast(cache: map<string, Action>, pending: seq<Action>, i: nat)
    requires i < |pending| && forall j :: i < j < |pending| ==> pending[j].id != pending[i].id
    ensures pending[i].id in CacheAll(cache, pending) && CacheAll(cache, pending)[pending[i].id] == pending[i]
    decreases |pending|
  {
    if i < |pending| - 1 {
      CachedIsLast(cache, pending[..|pending| - 1], i);
    }
  }

  /** The last pending action with the id of the i-th. */
  lemma LastWithId(pending: seq<Action>, i: nat) returns (k: nat)
    requires i < |pending|
    ensures i <= k < |pending| && pending[k].id == pending[i].id
    ensures forall j :: k < j < |pending| ==> pending[j].id != pending[k].id
  {
    k := |pending| - 1;
    while pending[k].id != pending[i].id
      invariant i <= k < |pending|
      invariant forall j :: k < j < |pending| ==> pending[j].id != pending[i].id
      decreases k
    {
      k := k - 1;
    }
  }

  /** Every pending action can be confirmed under its id exactly when no two different pending
      actions share one: the cache keeps only the last. */
  lemma AllConfirmableIff(cache: map<string, Action>, pending: seq<Action>)
    ensures (forall i :: 0 <= i < |pending| ==>
               pending[i].id in CacheAll(cache, pending) && CacheAll(cache, pending)[pending[i].id] == pending[i])
            <==> SameIdSameAction(pending)
  {
    forall i | 0 <= i < |pending|
      ensures exists k :: i <= k < |pending| && pending[k].id == pending[i].id
                && pending[i].id in CacheAll(cache, pending) && CacheAll(cache, pending)[pending[i].id] == pending[k]
    {
      var k := LastWithId(pending, i);
      CachedIsLast(cache, pending, k);
    }
  }

  /** One confirm request. */
  datatype Request = Request(id: string, approved: bool, attempt: Attempt)

  /** The cache after a series of confirm requests, and their outcomes. */
  function ConfirmAll(cache: map<string, Action>, requests: seq<Request>): (r: (map<string, Action>, seq<Confirmation>))
    ensures |r.1| == |requests|
    decreases |requests|
  {
    if requests == [] then (cache, [])
    else
      var (front, outcomes) := ConfirmAll(cache, requests[..|requests| - 1]);
      var last := requests[|requests| - 1];
      var (cache', outcome) := Confirm(front, last.id, last.approved, last.attempt);
      (cache', outcomes + [outcome])
  }

  /** Over any series of confirm requests an action is settled at most once, by the first request for
      its id, and every later request finds it unknown. */
  lemma {:induction false} SettledOnce(cache: map<string, Action>, requests: seq<Request>, i: nat)
    requires i < |requests|
    ensures var (cache', outcomes), r := ConfirmAll(cache, requests), requests[i];
            && r.id !in cache'
            && (if r.id in cache && forall j :: 0 <= j < i ==> requests[j].id != r.id
                then (if r.approved then outcomes[i].Confirmed? && Explains(cache[r.id], r.attempt, outcomes[i].outcome)
                      else outcomes[i] == Denied)
                else outcomes[i] == UnknownAction)
    decreases |requests|
  {
    hide Execute, Explains;
    var front, last := requests[..|requests| - 1], |requests| - 1;
    if i < last {
      SettledOnce(cache, front, i);
    } else {
      UntouchedUntil(cache, front, requests[i].id);
      if requests[i].id in cache {
        ExecuteIff(cache[requests[i].id], requests[i].attempt, Execute(cache[requests[i].id], requests[i].attempt));
      }
      assert forall j :: 0 <= j < last ==> front[j] == requests[j];
    }
  }

  lemma {:induction false} UntouchedUntil(cache: map<string, Action>, requests: seq<Request>, id: string)
    ensures var cache' := ConfirmAll(cache, requests).0;
            if id in cache && forall j :: 0 <= j < |requests| ==> requests[j].id != id
            then id in cache' && cache'[id] == cache[id] else id !in cache'
    decreases |requests|
  {
    if requests != [] {
      var front := requests[..|requests| - 1];
      UntouchedUntil(cache, front, id);
      assert forall j :: 0 <= j < |front| ==> front[j] == requests[j];
      if forall j :: 0 <= j < |front| ==> front[j].id != id {
        assert forall j :: 0 <= j < |requests| - 1 ==> requests[j].id != id;
      }
    }
  }
}
