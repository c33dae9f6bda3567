/** The heartbeat loop of a transport (aim_node/relay/transport.py, `_heartbeat_loop`), interleaved
    in every possible way with the frames other tasks process while it sleeps or sends. */
module Heartbeat {
  import opened Protocol
  import opened RelayCrypto
  import opened Results
  import Transport

  const IDLE_SECONDS := 30
  const MAX_MISSED := 3

  /** What can happen on the transport while the loop is suspended. */
  datatype Incident =
    | Ack(at: int)        // recv_frame processed a HEARTBEAT_ACK
    | Activity(at: int)   // any other frame was received or sent
    | Lost                // the state is no longer ESTABLISHED

  /** One turn of the loop: what happens during each of its three awaits, the clock after the long
      sleep, whether the send raises, and the clock when it has completed. */
  datatype Round = Round(
    idle: seq<Incident>, now: int, sending: seq<Incident>, sendRaises: bool, sentAt: int, window: seq<Incident>
  )

  /** The history a close decision is judged by. */
  datatype Entry = Sent | Acked | Missed

  /** How the loop ends: it closed the session, stopped without closing, or let an exception out. */
  datatype Ending = ClosedSession | Stopped | Raised

  /** Windows missed since the last acknowledgement. */
  function Unanswered(log: seq<Entry>): nat {
    if log == [] || log[|log| - 1] == Acked then 0
    else Unanswered(log[..|log| - 1]) + if log[|log| - 1] == Missed then 1 else 0
  }

  /** No acknowledgement was processed at position i or later. */
  predicate NoAckFrom(log: seq<Entry>, i: int) {
    forall j :: i <= j < |log| && 0 <= j ==> log[j] != Acked
  }

  /** Every missed window is that of the heartbeat just before it. */
  predicate WellFormed(log: seq<Entry>) {
    forall m :: 0 <= m < |log| && log[m] == Missed ==> m > 0 && log[m - 1] == Sent
  }

  /** Three heartbeats, each directly followed by its missed window, and no acknowledgement processed
      since the first of them was sent. */
  ghost predicate ThreeUnanswered(log: seq<Entry>) {
    exists h1, h2, h3 :: 0 <= h1 < h2 < h3 && IsMiss(log, h1) && IsMiss(log, h2) && IsMiss(log, h3) && NoAckFrom(log, h1)
  }

  predicate IsMiss(log: seq<Entry>, h: int) {
    0 <= h < |log| - 1 && log[h] == Sent && log[h + 1] == Missed
  }

  // ---------------------------------------------------------------- logs

  lemma Append(log: seq<Entry>, e: Entry)
    requires WellFormed(log) && (e == Missed ==> log != [] && log[|log| - 1] == Sent)
    ensures WellFormed(log + [e])
    ensures Unanswered(log + [e])
         == match e case Acked => 0 case Sent => Unanswered(log) case Missed => Unanswered(log) + 1
  {
    assert (log + [e])[..|log|] == log;
  }

  /** The last missed window, if any is unanswered, with everything unanswered before it. */
  lemma {:induction false} LastMiss(log: seq<Entry>) returns (m: nat)
    requires Unanswered(log) > 0
    ensures m < |log| && log[m] == Missed && NoAckFrom(log, m)
    ensures Unanswered(log[..m]) == Unanswered(log) - 1
  {
    var front := log[..|log| - 1];
    if log[|log| - 1] == Missed {
      m := |log| - 1;
    } else {
      m := LastMiss(front);
      assert log[..m] == front[..m];
      assert forall j :: m <= j < |front| ==> front[j] == log[j];
    }
  }

  /** The heartbeat of the last missed window, and what came before it. */
  lemma LastHeartbeat(log: seq<Entry>) returns (h: nat)
    requires WellFormed(log) && Unanswered(log) > 0
    ensures IsMiss(log, h) && NoAckFrom(log, h)
    ensures WellFormed(log[..h]) && Unanswered(log[..h]) == Unanswered(log) - 1
  {
    var m := LastMiss(log);
    h := m - 1;
    assert log[..m][..h] == log[..h];
  }

  lemma NoAckJoin(log: seq<Entry>, h: nat, n: nat)
    requires h <= n <= |log| && NoAckFrom(log[..n], h) && NoAckFrom(log, n)
    ensures NoAckFrom(log, h)
  {
    assert forall j :: 0 <= j < n ==> log[..n][j] == log[j];
  }

  /** Three unanswered windows are three unanswered heartbeats. */
  lemma ThreeMisses(log: seq<Entry>)
    requires WellFormed(log) && Unanswered(log) >= 3
    ensures ThreeUnanswered(log)
  {
    hide WellFormed, Unanswered, NoAckFrom;
    var h3 := LastHeartbeat(log);
    var h2 := LastHeartbeat(log[..h3]);
    var h1 := LastHeartbeat(log[..h3][..h2]);
    NoAckJoin(log[..h3], h1, h2);
    NoAckJoin(log, h1, h3);
    assert IsMiss(log, h1) && IsMiss(log, h2) && IsMiss(log, h3);
  }

  // ---------------------------------------------------------------- the loop

  /** The fields the loop works with, and the history. */
  datatype Monitor = Monitor(
    established: bool, lastActivity: int, awaitingAck: bool, missed: nat, log: seq<Entry>
  )

  function Happen(m: Monitor, e: Incident): Monitor {
    match e
    case Ack(at) => m.(lastActivity := at, awaitingAck := false, missed := 0, log := m.log + [Acked])
    case Activity(at) => m.(lastActivity := at)
    case Lost => m.(established := false)
  }

  /** What `recv_frame` does to the two fields when it accepts a frame is the incident of that frame. */
  lemma AcceptedIsIncident(ep: Transport.Endpoint, f: OpenedFrame, m: Monitor, at: int)
    requires m.awaitingAck == ep.awaitingAck && m.missed == ep.missed
    ensures var m' := Happen(m, if f.frameType == FRAME_HEARTBEAT_ACK then Ack(at) else Activity(at));
            var ep' := Transport.Accepted(ep, f);
            m'.awaitingAck == ep'.awaitingAck && m'.missed == ep'.missed && m'.lastActivity == at
  {
  }

  function Suspended(m: Monitor, incidents: seq<Incident>): Monitor
    decreases |incidents|
  {
    if incidents == [] then m
    else Happen(Suspended(m, incidents[..|incidents| - 1]), incidents[|incidents| - 1])
  }

  /** One turn; None to go round again. */
  function Turn(m: Monitor, r: Round): (Monitor, Option<Ending>) {
    var m1 := Suspended(m, r.idle);
    if !m1.established then (m1, Some(Stopped))
    else if r.now - m1.lastActivity < IDLE_SECONDS then (m1, None)
    else
      var m2 := Suspended(m1.(awaitingAck := true, log := m1.log + [Sent]), r.sending);
      if r.sendRaises then (m2, Some(Raised))
      else
        var m3 := Suspended(m2.(lastActivity := r.sentAt), r.window);
        if !m3.established then (m3, Some(Stopped))
        else if !m3.awaitingAck then (m3, None)
        else
          var m4 := m3.(missed := m3.missed + 1, awaitingAck := false, log := m3.log + [Missed]);
          (m4, if m4.missed >= MAX_MISSED then Some(ClosedSession) else None)
  }

  function Loop(m: Monitor, script: seq<Round>): (Monitor, Ending)
    decreases |script|
  {
    if script == [] || !m.established then (m, Stopped)
    else
      var (m', ending) := Turn(m, script[0]);
      match ending
      case Some(e) => (m', e)
      case None => Loop(m', script[1..])
  }

  class HeartbeatMonitor {
    var established: bool
    var lastActivity: int
    var awaitingAck: bool
    var missed: nat
    ghost var log: seq<Entry>

    ghost function View(): Monitor
      reads this
    {
      Monitor(established, lastActivity, awaitingAck, missed, log)
    }

    constructor (now: int)
      ensures View() == Monitor(true, now, false, 0, [])
    {
      established, lastActivity, awaitingAck, missed, log := true, now, false, 0, [];
    }

    /** Other tasks run. */
    method Suspend(incidents: seq<Incident>)
      modifies this
      ensures View() == Suspended(old(View()), incidents)
    {
      var i := 0;
      while i < |incidents|
        invariant i <= |incidents|
        invariant View() == Suspended(old(View()), incidents[..i])
      {
        assert incidents[..i + 1][..i] == incidents[..i];
        match incidents[i] {
          case Ack(at) =>
            lastActivity := at;
            awaitingAck := false;
            missed := 0;
            log := log + [Acked];
          case Activity(at) =>
            lastActivity := at;
          case Lost =>
            established := false;
        }
        i := i + 1;
      }
      assert incidents[..i] == incidents;
    }

    /** The loop, for as many turns as it is given. */
    method Run(script: seq<Round>) returns (ending: Ending)
      modifies this
      ensures (View(), ending) == Loop(old(View()), script)
    {
      hide Suspended;
      var i := 0;
      while i < |script| && established
        invariant i <= |script|
        invariant Loop(View(), script[i..]) == Loop(old(View()), script)
      {
        var round := script[i];
        assert script[i..][1..] == script[i + 1..];
        i := i + 1;
        Suspend(round.idle);
        if !established {
          return Stopped;
        }
        if round.now - lastActivity < IDLE_SECONDS {
          continue;
        }
        awaitingAck := true;
        log := log + [Sent];
        Suspend(round.sending);
        if round.sendRaises {
          return Raised;
        }
        lastActivity := round.sentAt;
        Suspend(round.window);
        if !established {
          return Stopped;
        }
        if awaitingAck {
          missed := missed + 1;
          awaitingAck := false;
          log := log + [Missed];
          if missed >= MAX_MISSED {
            return ClosedSession;
          }
        }
      }
      return Stopped;
    }
  }

  // ---------------------------------------------------------------- safety

  /** The miss counter is the number of windows missed since the last acknowledgement, and an
      awaited heartbeat is the last thing that happened. */
  predicate Consistent(m: Monitor) {
    && WellFormed(m.log) && m.missed == Unanswered(m.log)
    && (m.awaitingAck ==> m.log != [] && m.log[|m.log| - 1] == Sent)
  }

  lemma {:induction false} SuspendedConsistent(m: Monitor, incidents: seq<Incident>)
    requires Consistent(m)
    ensures Consistent(Suspended(m, incidents)) && Suspended(m, incidents).missed <= m.missed
    decreases |incidents|
  {
    hide WellFormed, Unanswered;
    if incidents != [] {
      var front := Suspended(m, incidents[..|incidents| - 1]);
      SuspendedConsistent(m, incidents[..|incidents| - 1]);
      Append(front.log, Acked);
    }
  }

  lemma TurnConsistent(m: Monitor, r: Round)
    requires Consistent(m) && m.missed < 3 && !m.awaitingAck
    ensures var (m', ending) := Turn(m, r);
            && Consistent(m')
            && (ending == Some(ClosedSession) <==> m'.missed == 3)
            && m'.missed <= 3
            && (ending.None? ==> !m'.awaitingAck)
  {
    hide WellFormed, Unanswered, Suspended;
    SuspendedConsistent(m, r.idle);
    SuspendedNotAwaiting(m, r.idle);
    var m1 := Suspended(m, r.idle);
    Append(m1.log, Sent);
    var m1' := m1.(awaitingAck := true, log := m1.log + [Sent]);
    SuspendedConsistent(m1', r.sending);
    var m2 := Suspended(m1', r.sending);
    SuspendedConsistent(m2.(lastActivity := r.sentAt), r.window);
    var m3 := Suspended(m2.(lastActivity := r.sentAt), r.window);
    if m3.awaitingAck {
      Append(m3.log, Missed);
    }
  }

  lemma {:induction false} SuspendedNotAwaiting(m: Monitor, incidents: seq<Incident>)
    requires !m.awaitingAck
    ensures !Suspended(m, incidents).awaitingAck
    decreases |incidents|
  {
    if incidents != [] {
      SuspendedNotAwaiting(m, incidents[..|incidents| - 1]);
    }
  }

  // ---------------------------------------------------------------- when it sends and when it closes

  predicate NoAck(incidents: seq<Incident>) {
    forall i :: 0 <= i < |incidents| ==> !incidents[i].Ack?
  }

  predicate NoLoss(incidents: seq<Incident>) {
    forall i :: 0 <= i < |incidents| ==> !incidents[i].Lost?
  }

  /** The time of the last frame among the incidents, or `before` if there is none. */
  function LastTime(incidents: seq<Incident>, before: int): int {
    if incidents == [] then before
    else
      match incidents[|incidents| - 1]
      case Ack(at) => at
      case Activity(at) => at
      case Lost => LastTime(incidents[..|incidents| - 1], before)
  }

  function Heartbeats(log: seq<Entry>): nat {
    if log == [] then 0 else Heartbeats(log[..|log| - 1]) + if log[|log| - 1] == Sent then 1 else 0
  }

  lemma OneMore(log: seq<Entry>, e: Entry)
    ensures Heartbeats(log + [e]) == Heartbeats(log) + if e == Sent then 1 else 0
  {
    assert (log + [e])[..|log|] == log;
  }

  /** What incidents leave behind: an acknowledgement clears the counter, a loss ends the session, and
      the last frame is the last activity. */
  lemma {:induction false} SuspendedIs(m: Monitor, incidents: seq<Incident>)
    ensures var s := Suspended(m, incidents);
            && (s.established <==> m.established && NoLoss(incidents))
            && s.lastActivity == LastTime(incidents, m.lastActivity)
            && (s.awaitingAck <==> m.awaitingAck && NoAck(incidents))
            && s.missed == (if NoAck(incidents) then m.missed else 0)
            && Heartbeats(s.log) == Heartbeats(m.log)
            && (NoAck(incidents) ==> s.log == m.log)
    decreases |incidents|
  {
    hide Heartbeats;
    if incidents != [] {
      var front := incidents[..|incidents| - 1];
      SuspendedIs(m, front);
      OneMore(Suspended(m, front).log, Acked);
      assert forall i :: 0 <= i < |front| ==> front[i] == incidents[i];
      assert forall i :: 0 <= i < |incidents| ==> i < |front| || incidents[i] == incidents[|incidents| - 1];
    }
  }

  /** A turn sends a heartbeat exactly when the session is established after the long sleep and nothing
      was sent or received for 30 seconds. */
  lemma SendsIffIdle(m: Monitor, r: Round)
    ensures var due := m.established && NoLoss(r.idle) && r.now - LastTime(r.idle, m.lastActivity) >= 30;
            Heartbeats(Turn(m, r).0.log) == Heartbeats(m.log) + if due then 1 else 0
  {
    hide Suspended, LastTime, Heartbeats, NoLoss, NoAck;
    SuspendedIs(m, r.idle);
    var m1 := Suspended(m, r.idle);
    OneMore(m1.log, Sent);
    var sent := m1.(awaitingAck := true, log := m1.log + [Sent]);
    SuspendedIs(sent, r.sending);
    var m2 := Suspended(sent, r.sending).(lastActivity := r.sentAt);
    SuspendedIs(m2, r.window);
    OneMore(Suspended(m2, r.window).log, Missed);
  }

  /** A turn misses exactly when its heartbeat went out, the session outlived the window, and nothing
      acknowledged it. */
  lemma MissesIff(m: Monitor, r: Round)
    requires !m.awaitingAck
    ensures var (m', ending) := Turn(m, r);
            var due := m.established && NoLoss(r.idle) && r.now - LastTime(r.idle, m.lastActivity) >= 30;
            var lasts := !r.sendRaises && NoLoss(r.sending) && NoLoss(r.window);
            var before := if NoAck(r.idle) then m.missed else 0;
            && (due && lasts && NoAck(r.sending) && NoAck(r.window) ==> m'.missed == before + 1)
            && (due && lasts && !(NoAck(r.sending) && NoAck(r.window)) ==> m'.missed == 0)
            && (!due ==> m'.missed == before)
            && (due && r.sendRaises ==> ending == Some(Raised))
            && (ending == None <==> m.established && NoLoss(r.idle) && (due ==> lasts && m'.missed < 3))
            && (ending == Some(ClosedSession) <==> due && lasts && m'.missed >= 3 && NoAck(r.sending) && NoAck(r.window))
  {
    hide Suspended, LastTime, Heartbeats, NoLoss, NoAck;
    SuspendedIs(m, r.idle);
    var m1 := Suspended(m, r.idle);
    var sent := m1.(awaitingAck := true, log := m1.log + [Sent]);
    SuspendedIs(sent, r.sending);
    var m2 := Suspended(sent, r.sending).(lastActivity := r.sentAt);
    SuspendedIs(m2, r.window);
  }

  /** Every round finds the session idle for 30 seconds, loses and acknowledges nothing, and sends. */
  predicate SilentFrom(last: int, script: seq<Round>)
    decreases |script|
  {
    script == [] ||
    var r := script[0];
    && NoLoss(r.idle) && NoLoss(r.sending) && NoLoss(r.window)
    && NoAck(r.idle) && NoAck(r.sending) && NoAck(r.window)
    && !r.sendRaises && r.now - LastTime(r.idle, last) >= 30
    && SilentFrom(LastTime(r.window, r.sentAt), script[1..])
  }

  lemma SilentTurn(m: Monitor, script: seq<Round>)
    requires m.established && !m.awaitingAck && script != [] && SilentFrom(m.lastActivity, script)
    ensures var (m', ending) := Turn(m, script[0]);
            && m'.missed == m.missed + 1 && m'.established && !m'.awaitingAck
            && SilentFrom(m'.lastActivity, script[1..])
            && ending == if m'.missed >= 3 then Some(ClosedSession) else None
  {
    hide Suspended, LastTime;
    var r := script[0];
    SuspendedIs(m, r.idle);
    var m1 := Suspended(m, r.idle);
    var sent := m1.(awaitingAck := true, log := m1.log + [Sent]);
    SuspendedIs(sent, r.sending);
    var m2 := Suspended(sent, r.sending).(lastActivity := r.sentAt);
    SuspendedIs(m2, r.window);
  }

  /** A dead peer is noticed: three silent rounds in a row, and no fewer, close the session. */
  lemma {:induction false} SilenceCloses(m: Monitor, script: seq<Round>)
    requires m.established && !m.awaitingAck && m.missed < 3 && SilentFrom(m.lastActivity, script)
    ensures var (m', ending) := Loop(m, script);
            if m.missed + |script| >= 3 then ending == ClosedSession && m'.missed == 3
            else ending == Stopped && m'.established && m'.missed == m.missed + |script|
    decreases |script|
  {
    hide Turn, SilentFrom;
    if script != [] {
      SilentTurn(m, script);
      var (m', ending) := Turn(m, script[0]);
      if ending.None? {
        SilenceCloses(m', script[1..]);
      }
    }
  }

  /** Heartbeat safety.  However other tasks interleave, the loop closes the session exactly when its
      miss counter reaches three, and then three heartbeats were each followed by a missed window
      with no acknowledgement processed since the first of them. */
  lemma {:induction false} HeartbeatSafety(m: Monitor, script: seq<Round>)
    requires Consistent(m) && m.missed < 3 && !m.awaitingAck
    ensures var (m', ending) := Loop(m, script);
            && m'.missed == Unanswered(m'.log)
            && (ending == ClosedSession <==> m'.missed == 3)
            && (ending == ClosedSession ==> ThreeUnanswered(m'.log))
            && (ending != ClosedSession ==> m'.missed < 3)
    decreases |script|
  {
    hide WellFormed, Unanswered, Turn, ThreeUnanswered;
    if script != [] && m.established {
      TurnConsistent(m, script[0]);
      var (m', ending) := Turn(m, script[0]);
      if ending.None? {
        HeartbeatSafety(m', script[1..]);
      } else if ending == Some(ClosedSession) {
        ThreeMisses(m'.log);
      }
    }
  }
}
