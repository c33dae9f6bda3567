/** The bounded local buffer in front of the gateway meter (python/aim_node/gateway_v2/meter.py,
    LocalMeterBuffer). */
module MeterBuffer {
  import opened Results

  datatype Policy = Policy(thresholdEvents: int, maxEvents: int, drainDeadlineSeconds: real)

  datatype BufferState = Open | Buffering | Degraded | FailClosed

  datatype Metric =
    | Depth(value: nat, state: BufferState)
    | Rejected(reason: string, state: BufferState, dropped: nat)

  datatype Buffer<R> = Buffer(
    queue: seq<R>, state: BufferState, deadlineStartedAt: Option<real>, dropped: nat, metrics: seq<Metric>
  )

  function NewBuffer<R>(): Buffer<R> {
    Buffer([], Open, None, 0, [])
  }

  predicate Blocked<R>(b: Buffer<R>) {
    b.state == Degraded || b.state == FailClosed
  }

  function Reject<R>(b: Buffer<R>, reason: string): Buffer<R> {
    b.(metrics := b.metrics + [Rejected(reason, b.state, b.dropped)])
  }

  predicate DeadlineMissed<R>(p: Policy, b: Buffer<R>, now: real) {
    b.deadlineStartedAt.Some? && now - b.deadlineStartedAt.value > p.drainDeadlineSeconds
  }

  /** `enqueue`; false for METERING_REJECTED. */
  function Enqueue<R>(p: Policy, b: Buffer<R>, request: R, now: real): (Buffer<R>, bool) {
    if Blocked(b) then (Reject(b, "degraded"), false)
    else if DeadlineMissed(p, b, now) then (Reject(b.(state := FailClosed), "drain_deadline_missed"), false)
    else if |b.queue| >= p.maxEvents then
      (Reject(b.(state := FailClosed, dropped := b.dropped + 1), "max_depth"), false)
    else
      var b1 := b.(queue := b.queue + [request]);
      var b2 := if |b1.queue| >= p.thresholdEvents
                then b1.(state := Buffering,
                         deadlineStartedAt := if b.deadlineStartedAt.None? then Some(now) else b.deadlineStartedAt)
                else b1;
      (b2.(metrics := b2.metrics + [Depth(|b2.queue|, b2.state)]), true)
  }

  /** The loop of `drain`; `sends` says which calls return, and a script that runs out or says false
      is a call that raises after its request was taken from the queue. */
  function DrainLoop<R>(b: Buffer<R>, sends: seq<bool>): (Buffer<R>, seq<R>, bool)
    decreases |b.queue|
  {
    if b.queue == [] then (b.(state := Open, deadlineStartedAt := None), [], true)
    else
      var b1 := b.(queue := b.queue[1..]);
      if sends == [] || !sends[0] then (b1, [b.queue[0]], false)
      else
        var b2 := b1.(metrics := b1.metrics + [Depth(|b1.queue|, b1.state)]);
        var (b3, handed, ok) := DrainLoop(b2, sends[1..]);
        (b3, [b.queue[0]] + handed, ok)
  }

  /** `drain`: the buffer, the requests handed to `send`, and whether it returned. */
  function Drain<R>(b: Buffer<R>, sends: seq<bool>): (Buffer<R>, seq<R>, bool) {
    if Blocked(b) then (Reject(b, "drain_blocked"), [], false) else DrainLoop(b, sends)
  }

  function MarkDegraded<R>(b: Buffer<R>): Buffer<R> {
    b.(state := Degraded)
  }

  /** The loop, having handed over `given`, goes on from `b` to end as `all`. */
  ghost predicate Continues<R>(b: Buffer<R>, sends: seq<bool>, given: seq<R>, all: (Buffer<R>, seq<R>, bool)) {
    var rest := DrainLoop(b, sends);
    all == (rest.0, given + rest.1, rest.2)
  }

  lemma DrainStarts<R>(b: Buffer<R>, sends: seq<bool>)
    ensures Continues(b, sends, [], DrainLoop(b, sends))
  {
    hide DrainLoop;
    assert [] + DrainLoop(b, sends).1 == DrainLoop(b, sends).1;
  }

  lemma DrainEnds<R>(b: Buffer<R>, sends: seq<bool>, given: seq<R>, all: (Buffer<R>, seq<R>, bool))
    requires b.queue == [] && Continues(b, sends, given, all)
    ensures all == (b.(state := Open, deadlineStartedAt := None), given, true)
  {
    assert given + [] == given;
  }

  lemma DrainGoesOn<R>(b: Buffer<R>, sends: seq<bool>, given: seq<R>, all: (Buffer<R>, seq<R>, bool))
    requires b.queue != [] && Continues(b, sends, given, all)
    ensures var b1, now := b.(queue := b.queue[1..]), given + [b.queue[0]];
            if sends == [] || !sends[0] then all == (b1, now, false)
            else Continues(b1.(metrics := b1.metrics + [Depth(|b1.queue|, b1.state)]), sends[1..], now, all)
  {
    var b1 := b.(queue := b.queue[1..]);
    if sends != [] && sends[0] {
      var rest := DrainLoop(b1.(metrics := b1.metrics + [Depth(|b1.queue|, b1.state)]), sends[1..]);
      assert given + ([b.queue[0]] + rest.1) == given + [b.queue[0]] + rest.1;
    }
  }

  // ---------------------------------------------------------------- the buffer object

  /** The `send` callable: what it was handed, and which of its next calls return. */
  class Sender<R> {
    var handed: seq<R>
    var script: seq<bool>

    constructor (script: seq<bool>)
      ensures handed == [] && this.script == script
    {
      handed, this.script := [], script;
    }

    method Send(request: R) returns (ok: bool)
      modifies this
      ensures handed == old(handed) + [request]
      ensures ok == (old(script) != [] && old(script)[0])
      ensures script == if old(script) == [] then [] else old(script)[1..]
    {
      handed := handed + [request];
      ok := script != [] && script[0];
      script := if script == [] then [] else script[1..];
    }
  }

  class LocalMeterBuffer<R> {
    const policy: Policy
    var queue: seq<R>
    var state: BufferState
    var deadlineStartedAt: Option<real>
    var droppedEvents: nat
    var metrics: seq<Metric>

    ghost function View(): Buffer<R>
      reads this
    {
      Buffer(queue, state, deadlineStartedAt, droppedEvents, metrics)
    }

    constructor (policy: Policy)
      ensures View() == NewBuffer() && this.policy == policy
    {
      this.policy := policy;
      queue, state, deadlineStartedAt, droppedEvents, metrics := [], Open, None, 0, [];
    }

    method RejectFor(reason: string)
      modifies this`metrics
      ensures View() == Reject(old(View()), reason)
    {
      metrics := metrics + [Rejected(reason, state, droppedEvents)];
    }

    method Put(request: R, now: real) returns (ok: bool)
      modifies this
      ensures (View(), ok) == Enqueue(policy, old(View()), request, now)
    {
      if state == Degraded || state == FailClosed {
        RejectFor("degraded");
        return false;
      }
      if deadlineStartedAt.Some? && now - deadlineStartedAt.value > policy.drainDeadlineSeconds {
        state := FailClosed;
        RejectFor("drain_deadline_missed");
        return false;
      }
      if |queue| >= policy.maxEvents {
        state := FailClosed;
        droppedEvents := droppedEvents + 1;
        RejectFor("max_depth");
        return false;
      }
      queue := queue + [request];
      if |queue| >= policy.thresholdEvents {
        state := Buffering;
        if deadlineStartedAt.None? {
          deadlineStartedAt := Some(now);
        }
      }
      metrics := metrics + [Depth(|queue|, state)];
      return true;
    }

    method DrainTo(send: Sender<R>) returns (ok: bool)
      modifies this, send
      ensures var (b, handed, returned) := Drain(old(View()), old(send.script));
              View() == b && send.handed == old(send.handed) + handed && ok == returned
    {
      if state == Degraded || state == FailClosed {
        RejectFor("drain_blocked");
        return false;
      }
      hide DrainLoop, Continues;
      ghost var given, all := [], DrainLoop(View(), send.script);
      DrainStarts(View(), send.script);
      while |queue| > 0
        invariant send.handed == old(send.handed) + given
        invariant Continues(View(), send.script, given, all)
      {
        DrainGoesOn(View(), send.script, given, all);
        var request := queue[0];
        queue := queue[1..];
        given := given + [request];
        var sent := send.Send(request);
        if !sent {
          return false;
        }
        metrics := metrics + [Depth(|queue|, state)];
      }
      DrainEnds(View(), send.script, given, all);
      state := Open;
      deadlineStartedAt := None;
      return true;
    }

    method Degrade()
      modifies this
      ensures View() == MarkDegraded(old(View()))
    {
      state := Degraded;
    }
  }

  // ---------------------------------------------------------------- runs

  datatype Event<R> = Put(request: R, now: real) | Flush(sends: seq<bool>) | Degrade

  /** An accepted event, when it came, and the deadline that was running then. */
  datatype Arrival<R> = Arrival(request: R, now: real, deadlineStartedAt: Option<real>)

  datatype Run<R> = Run(buffer: Buffer<R>, arrivals: seq<Arrival<R>>, handed: seq<R>)

  function Step<R>(p: Policy, s: Run<R>, e: Event<R>): Run<R> {
    match e
    case Put(request, now) =>
      var (b, ok) := Enqueue(p, s.buffer, request, now);
      s.(buffer := b, arrivals := if ok then s.arrivals + [Arrival(request, now, s.buffer.deadlineStartedAt)] else s.arrivals)
    case Flush(sends) =>
      var (b, handed, _) := Drain(s.buffer, sends);
      s.(buffer := b, handed := s.handed + handed)
    case Degrade => s.(buffer := MarkDegraded(s.buffer))
  }

  function Steps<R>(p: Policy, es: seq<Event<R>>): Run<R>
    decreases |es|
  {
    if es == [] then Run(NewBuffer(), [], []) else Step(p, Steps(p, es[..|es| - 1]), es[|es| - 1])
  }

  function Requests<R>(arrivals: seq<Arrival<R>>): (rs: seq<R>)
    ensures |rs| == |arrivals| && forall i :: 0 <= i < |rs| ==> rs[i] == arrivals[i].request
  {
    seq(|arrivals|, i requires 0 <= i < |arrivals| => arrivals[i].request)
  }

  /** What every run keeps. */
  ghost predicate Inv<R>(p: Policy, s: Run<R>) {
    var b := s.buffer;
    // first in, first out, and nothing lost or made up
    && Requests(s.arrivals) == s.handed + b.queue
    && (|b.queue| <= p.maxEvents || b.queue == [])
    // a drop closes the buffer
    && b.dropped <= 1 && (b.dropped == 1 ==> Blocked(b))
    && (!Blocked(b) ==> (b.state == Buffering <==> b.deadlineStartedAt.Some?))
    && (forall i :: 0 <= i < |s.arrivals| ==> InTime(p, s.arrivals[i]))
  }

  /** An event accepted while a deadline was running came before it had passed. */
  predicate InTime<R>(p: Policy, a: Arrival<R>) {
    a.deadlineStartedAt.Some? ==> a.now <= a.deadlineStartedAt.value + p.drainDeadlineSeconds
  }

  lemma {:induction false} DrainSplits<R>(b: Buffer<R>, sends: seq<bool>)
    ensures var (b', handed, ok) := DrainLoop(b, sends);
            && b.queue == handed + b'.queue && b'.dropped == b.dropped
            && (ok ==> b'.queue == [] && b'.state == Open && b'.deadlineStartedAt == None)
            && (!ok ==> b'.state == b.state && b'.deadlineStartedAt == b.deadlineStartedAt)
    decreases |b.queue|
  {
    if b.queue != [] && sends != [] && sends[0] {
      var b1 := b.(queue := b.queue[1..]);
      DrainSplits(b1.(metrics := b1.metrics + [Depth(|b1.queue|, b1.state)]), sends[1..]);
      assert b.queue == [b.queue[0]] + b.queue[1..];
    } else if b.queue != [] {
      assert b.queue == [b.queue[0]] + b.queue[1..];
    }
  }

  lemma InvStep<R>(p: Policy, s: Run<R>, e: Event<R>)
    requires Inv(p, s)
    ensures Inv(p, Step(p, s, e))
  {
    hide DrainLoop;
    match e {
      case Put(request, now) =>
        var (_, ok) := Enqueue(p, s.buffer, request, now);
        if ok {
          assert Requests(Step(p, s, e).arrivals) == Requests(s.arrivals) + [request];
          assert s.handed + s.buffer.queue + [request] == s.handed + (s.buffer.queue + [request]);
        }
      case Flush(sends) =>
        if !Blocked(s.buffer) {
          DrainSplits(s.buffer, sends);
          var (b, handed, _) := DrainLoop(s.buffer, sends);
          assert s.handed + (handed + b.queue) == s.handed + handed + b.queue;
        } else {
          assert s.handed + [] == s.handed;
        }
      case Degrade =>
    }
  }

  /** Over every run, with `send` raising anywhere: the accepted events are those handed to `send`
      followed by the queue, in order; the depth limit holds; at most one event is ever dropped; and
      every event accepted under a running deadline met it. */
  lemma {:induction false} BufferConserves<R>(p: Policy, es: seq<Event<R>>)
    ensures Inv(p, Steps(p, es))
    decreases |es|
  {
    hide Inv, Step;
    if es == [] {
      EmptyRun<R>(p);
    } else {
      BufferConserves(p, es[..|es| - 1]);
      InvStep(p, Steps(p, es[..|es| - 1]), es[|es| - 1]);
    }
  }

  lemma EmptyRun<R>(p: Policy)
    ensures Inv(p, Run<R>.Run(NewBuffer(), [], []))
  {
  }

  /** An event is accepted exactly when the buffer is neither degraded nor closed, no deadline has passed
      and there is room; an accepted event comes last in the queue and starts the deadline when it brings
      the depth to the threshold; a refused one changes neither queue nor deadline and closes the buffer,
      and only one there is no room for counts as dropped. */
  lemma EnqueueIff<R>(p: Policy, b: Buffer<R>, request: R, now: real)
    ensures var (b', ok) := Enqueue(p, b, request, now);
            var late := b.deadlineStartedAt.Some? && now > b.deadlineStartedAt.value + p.drainDeadlineSeconds;
            var open := b.state == Open || b.state == Buffering;
            && (ok <==> open && !late && |b.queue| < p.maxEvents)
            && (ok ==>
                  && b'.queue == b.queue + [request] && b'.dropped == b.dropped
                  && (b'.deadlineStartedAt == b.deadlineStartedAt
                      || (b.deadlineStartedAt == None && b'.deadlineStartedAt == Some(now) && |b.queue| + 1 >= p.thresholdEvents))
                  && (|b.queue| + 1 >= p.thresholdEvents ==> b'.state == Buffering && b'.deadlineStartedAt.Some?)
                  && (|b.queue| + 1 < p.thresholdEvents ==> b'.state == b.state)
                  && b'.metrics == b.metrics + [Depth(|b.queue| + 1, b'.state)])
            && (!ok ==>
                  && b'.queue == b.queue && b'.deadlineStartedAt == b.deadlineStartedAt
                  && b'.state == (if open then FailClosed else b.state)
                  && b'.dropped == b.dropped + (if open && !late then 1 else 0)
                  && b'.metrics == b.metrics + [Rejected(if !open then "degraded" else if late then "drain_deadline_missed"
                                                         else "max_depth", b'.state, b'.dropped)])
  {
  }

  /** Event i was accepted, brought the depth to the threshold, and no drain has finished since. */
  predicate FullSince<R>(p: Policy, es: seq<Event<R>>, i: nat)
    requires i < |es|
  {
    var s' := Steps(p, es[..i + 1]);
    && es[i].Put? && |s'.arrivals| > |Steps(p, es[..i]).arrivals| && |s'.buffer.queue| >= p.thresholdEvents
    && forall j :: i < j < |es| ==> !Drained(p, es, j)
  }

  predicate Drained<R>(p: Policy, es: seq<Event<R>>, j: nat)
    requires j < |es|
  {
    es[j].Flush? && Drain(Steps(p, es[..j]).buffer, es[j].sends).2
  }

  lemma FullSinceFront<R>(p: Policy, es: seq<Event<R>>, i: nat)
    requires i < |es| - 1
    ensures FullSince(p, es, i) <==> FullSince(p, es[..|es| - 1], i) && !Drained(p, es, |es| - 1)
  {
    hide Steps, Drain;
    var front := es[..|es| - 1];
    assert front[..i] == es[..i] && front[..i + 1] == es[..i + 1];
    assert forall j :: 0 <= j < |front| ==> front[j] == es[j] && front[..j] == es[..j];
    assert forall j :: 0 <= j < |front| ==> Drained(p, front, j) == Drained(p, es, j);
  }

  /** The deadline runs from the first event since the last finished drain that brought the depth to the
      threshold, and only then, whatever else was refused, half drained or degraded in between. */
  lemma {:induction false} DeadlineRuns<R>(p: Policy, es: seq<Event<R>>) returns (i: nat)
    ensures match Steps(p, es).buffer.deadlineStartedAt
            case Some(t) => i < |es| && FullSince(p, es, i) && es[i].now == t && forall j :: 0 <= j < i ==> !FullSince(p, es, j)
            case None => forall j :: 0 <= j < |es| ==> !FullSince(p, es, j)
    decreases |es|
  {
    hide Steps, Drain, FullSince;
    i := 0;
    if es == [] {
      NoDeadlineYet<R>(p);
    } else {
      var front, last := es[..|es| - 1], |es| - 1;
      i := DeadlineRuns(p, front);
      forall j | 0 <= j < last ensures FullSince(p, es, j) <==> FullSince(p, front, j) && !Drained(p, es, last) {
        FullSinceFront(p, es, j);
      }
      DeadlineStep(p, es);
      if Steps(p, front).buffer.deadlineStartedAt.None? {
        i := last;
      }
    }
  }

  lemma NoDeadlineYet<R>(p: Policy)
    ensures Steps<R>(p, []).buffer.deadlineStartedAt == None
  {
  }

  /** How one event changes the deadline. */
  lemma DeadlineStep<R>(p: Policy, es: seq<Event<R>>)
    requires es != []
    ensures var d, d' := Steps(p, es[..|es| - 1]).buffer.deadlineStartedAt, Steps(p, es).buffer.deadlineStartedAt;
            && (Drained(p, es, |es| - 1) ==> d' == None && !FullSince(p, es, |es| - 1))
            && (!Drained(p, es, |es| - 1) && d.Some? ==> d' == d)
            && (!Drained(p, es, |es| - 1) && d.None? ==>
                  && (d'.Some? <==> FullSince(p, es, |es| - 1))
                  && (d'.Some? ==> es[|es| - 1].Put? && d' == Some(es[|es| - 1].now)))
  {
    hide DrainLoop;
    var front, last := es[..|es| - 1], es[|es| - 1];
    assert es[..|es| - 1 + 1] == es;
    if last.Flush? {
      DrainSplits(Steps(p, front).buffer, last.sends);
    }
  }

  /** Once degraded or fail-closed, the buffer stays so and its queue and drop count never change. */
  lemma {:induction false} BlockedForever<R>(p: Policy, es: seq<Event<R>>, i: nat, j: nat)
    requires i <= j <= |es| && Blocked(Steps(p, es[..i]).buffer)
    ensures var b, b' := Steps(p, es[..i]).buffer, Steps(p, es[..j]).buffer;
            Blocked(b') && b'.queue == b.queue && b'.dropped == b.dropped
    ensures Steps(p, es[..j]).arrivals == Steps(p, es[..i]).arrivals && Steps(p, es[..j]).handed == Steps(p, es[..i]).handed
    decreases j
  {
    hide Step;
    if i < j {
      BlockedForever(p, es, i, j - 1);
      assert es[..j][..j - 1] == es[..j - 1] && es[..j][j - 1] == es[j - 1];
      BlockedStep(p, Steps(p, es[..j - 1]), es[j - 1]);
    }
  }

  lemma BlockedStep<R>(p: Policy, s: Run<R>, e: Event<R>)
    requires Blocked(s.buffer)
    ensures var s' := Step(p, s, e);
            && Blocked(s'.buffer) && s'.buffer.queue == s.buffer.queue && s'.buffer.dropped == s.buffer.dropped
            && s'.arrivals == s.arrivals && s'.handed == s.handed
  {
    hide DrainLoop;
    assert s.handed + [] == s.handed;
  }
}
