/**
 The downlink around a barge-in: turns write the egress ring, a session-long pump moves frames from
 it to the wire queue, and a cancelled turn drains the ring before it puts its marker on the wire.

 The egress ring is the atomic queue of `RingTheorems`; a Push may evict before it enqueues.  The
 wire queue is a bounded channel: audio waits for room, markers and subtitles are dropped instead.
 */
module Flush {
  import opened Wrappers

  /** A downlink message; audio and barge-in markers remember their turn. */
  datatype Msg = Audio(turn: nat) | Marker(turn: nat) | Text

  /** The orchestrator: between turns, in a turn, draining after `done`, or about to enqueue the marker. */
  datatype Orch = Between | InTurn | Draining | Marking

  const WIRE_CAP: nat := 256

  datatype State = State(
    cap: nat,
    egress: seq<nat>,        // the turn of each buffered frame
    writers: set<nat>,       // turns whose egress pump is alive
    turn: nat,
    orch: Orch,
    held: Option<nat>,       // the frame the audio pump has popped and not yet sent
    queued: nat,
    wire: seq<Msg>,          // history: everything enqueued on the wire, in order
    dropped: nat,
    flushed: bool)           // history: the last turn was cancelled and drained

  datatype Action =
    | StartTurn
    | PushEvict(k: nat)
    | PushEnqueue(k: nat)
    | WriterExit(k: nat)
    | FinishTurn
    | CancelTurn
    | DrainPop
    | DrainEnd
    | Mark
    | PumpPop
    | PumpSend
    | Subtitle
    | SocketWrite

  function Init(cap: nat): State {
    State(cap, [], {}, 0, Between, None, 0, [], 0, false)
  }

  predicate Enabled(s: State, a: Action) {
    match a
    case StartTurn => s.orch.Between?
    case PushEvict(k) => k in s.writers && s.egress != []
    case PushEnqueue(k) => k in s.writers && |s.egress| < s.cap
    case WriterExit(k) => k in s.writers
    case FinishTurn => s.orch.InTurn? && s.turn !in s.writers    // done has closed
    case CancelTurn => s.orch.InTurn? && s.turn !in s.writers    // done has closed
    case DrainPop => s.orch.Draining? && s.egress != []
    case DrainEnd => s.orch.Draining? && s.egress == []
    case Mark => s.orch.Marking?
    case PumpPop => s.held.None? && s.egress != []
    case PumpSend => s.held.Some? && s.queued < WIRE_CAP
    case Subtitle => true
    case SocketWrite => s.queued > 0
  }

  /** A non-blocking send on the wire queue. */
  function Offer(s: State, m: Msg): State {
    if s.queued < WIRE_CAP then s.(wire := s.wire + [m], queued := s.queued + 1) else s.(dropped := s.dropped + 1)
  }

  function Step(s: State, a: Action): State {
    if !Enabled(s, a) then s else
    match a
    case StartTurn => s.(turn := s.turn + 1, writers := s.writers + {s.turn + 1}, orch := InTurn, flushed := false)
    case PushEvict(_) => s.(egress := s.egress[1..])
    case PushEnqueue(k) => s.(egress := s.egress + [k])
    case WriterExit(k) => s.(writers := s.writers - {k})
    case FinishTurn => s.(orch := Between)
    case CancelTurn => s.(orch := Draining)
    case DrainPop => s.(egress := s.egress[1..])
    case DrainEnd => s.(orch := Marking, flushed := true)
    case Mark => Offer(s, Marker(s.turn)).(orch := Between)
    case PumpPop => s.(held := Some(s.egress[0]), egress := s.egress[1..])
    case PumpSend => s.(wire := s.wire + [Audio(s.held.value)], queued := s.queued + 1, held := None)
    case Subtitle => Offer(s, Text)
    case SocketWrite => s.(queued := s.queued - 1)
  }

  function Exec(s: State, run: seq<Action>): State
    decreases |run|
  {
    if run == [] then s else Exec(Step(s, run[0]), run[1..])
  }

  // ---------------------------------------------------------------------------
  // Invariant

  predicate IsOld(m: Msg, k: nat) {
    m.Audio? && m.turn <= k
  }

  /** How many audio frames of turn `k` or earlier stand on the wire from position `from` on. */
  function Late(wire: seq<Msg>, from: nat, k: nat): nat {
    if |wire| <= from then 0
    else Late(wire[..|wire| - 1], from, k) + if IsOld(wire[|wire| - 1], k) then 1 else 0
  }

  predicate OneWriter(s: State) {
    && s.writers <= {s.turn}
    && (!s.orch.InTurn? ==> s.writers == {})
    && (s.flushed ==> s.egress == [] && (s.orch.Marking? || s.orch.Between?))
    && (s.orch.Marking? ==> s.flushed)
  }

  /** No frame of a marked turn is left in the ring, and at most one is late or still in the pump's hand. */
  predicate MarkOk(s: State, m: nat)
    requires m < |s.wire| && s.wire[m].Marker?
  {
    var k := s.wire[m].turn;
    && k <= s.turn && (!s.orch.Between? ==> k < s.turn)
    && (k == s.turn ==> s.egress == [])
    && (forall i :: 0 <= i < |s.egress| ==> s.egress[i] > k)
    && Late(s.wire, m, k) + (if s.held.Some? && s.held.value <= k then 1 else 0) <= 1
  }

  predicate Inv(s: State) {
    && OneWriter(s)
    && (forall m :: 0 <= m < |s.wire| && s.wire[m].Marker? ==> MarkOk(s, m))
  }

  lemma LateGrows(wire: seq<Msg>, x: Msg, from: nat, k: nat)
    requires from <= |wire|
    ensures Late(wire + [x], from, k) == Late(wire, from, k) + if IsOld(x, k) then 1 else 0
  {
    assert (wire + [x])[..|wire|] == wire;
  }

  lemma LateMarker(wire: seq<Msg>, x: Msg, k: nat)
    requires !x.Audio?
    ensures Late(wire + [x], |wire|, k) == 0
  {
    assert (wire + [x])[..|wire|] == wire;
  }

  lemma StepWriters(s: State, a: Action)
    requires OneWriter(s)
    ensures OneWriter(Step(s, a))
  {
  }

  lemma MarkKept(s: State, a: Action, m: nat)
    requires OneWriter(s) && Enabled(s, a) && m < |s.wire| && s.wire[m].Marker? && MarkOk(s, m)
    ensures Step(s, a).wire[..|s.wire|] == s.wire && MarkOk(Step(s, a), m)
  {
    var k := s.wire[m].turn;
    match a
    case Mark => LateGrows(s.wire, Marker(s.turn), m, k);
    case PumpSend => LateGrows(s.wire, Audio(s.held.value), m, k);
    case Subtitle => LateGrows(s.wire, Text, m, k);
    case _ =>
  }

  lemma StepInv(s: State, a: Action)
    requires Inv(s)
    ensures Inv(Step(s, a))
  {
    var s' := Step(s, a);
    StepWriters(s, a);
    forall m | 0 <= m < |s'.wire| && s'.wire[m].Marker? ensures MarkOk(s', m) {
      if Enabled(s, a) {
        if m < |s.wire| {
          MarkKept(s, a, m);
        } else {
          LateMarker(s.wire, s'.wire[m], s'.wire[m].turn);
        }
      }
    }
  }

  lemma {:induction false} ExecInv(s: State, run: seq<Action>)
    requires Inv(s)
    ensures Inv(Exec(s, run))
    decreases |run|
  {
    if run == [] {
    } else {
      StepInv(s, run[0]);
      ExecInv(Step(s, run[0]), run[1..]);
    }
  }

  /**
   At most one turn writes the egress ring; after a cancelled turn has drained it, it stays empty
   until the next turn starts; and behind each barge-in marker on the wire there is at most one audio
   frame of that turn or an earlier one.
   */
  lemma FlushIsClean(cap: nat, run: seq<Action>)
    ensures var s := Exec(Init(cap), run);
      && s.writers <= {s.turn}
      && (s.flushed ==> s.egress == [] && s.writers == {})
      && (forall m :: 0 <= m < |s.wire| && s.wire[m].Marker? ==> Late(s.wire, m, s.wire[m].turn) <= 1)
  {
    ExecInv(Init(cap), run);
    var s := Exec(Init(cap), run);
    forall m | 0 <= m < |s.wire| && s.wire[m].Marker? ensures Late(s.wire, m, s.wire[m].turn) <= 1 {
      assert MarkOk(s, m);
    }
  }

  // ---------------------------------------------------------------------------
  // Where every frame goes

  /** The frames that the step moves: into the ring, out of it by one of three ways, or by any. */
  datatype Way = Enters | Evicted | Drained | Pumped | Leaves

  function Moves(s: State, a: Action, way: Way): seq<nat> {
    if !Enabled(s, a) then []
    else
      match a
      case PushEnqueue(k) => if way.Enters? then [k] else []
      case PushEvict(_) => if way.Evicted? || way.Leaves? then [s.egress[0]] else []
      case DrainPop => if way.Drained? || way.Leaves? then [s.egress[0]] else []
      case PumpPop => if way.Pumped? || way.Leaves? then [s.egress[0]] else []
      case _ => []
  }

  function Moved(s: State, run: seq<Action>, way: Way): seq<nat>
    decreases |run|
  {
    if run == [] then [] else Moves(s, run[0], way) + Moved(Step(s, run[0]), run[1..], way)
  }

  /** The turns that the run cancels. */
  function Cancels(s: State, run: seq<Action>): set<nat>
    decreases |run|
  {
    if run == [] then {}
    else (if run[0].CancelTurn? && Enabled(s, run[0]) then {s.turn} else {}) + Cancels(Step(s, run[0]), run[1..])
  }

  /** The audio frames on the wire, in order. */
  function AudioOn(wire: seq<Msg>): seq<nat> {
    if wire == [] then []
    else AudioOn(wire[..|wire| - 1]) + if wire[|wire| - 1].Audio? then [wire[|wire| - 1].turn] else []
  }

  function InHand(s: State): seq<nat> {
    if s.held.Some? then [s.held.value] else []
  }

  lemma {:induction false} RingKeepsOrder(s: State, run: seq<Action>)
    ensures s.egress + Moved(s, run, Enters) == Moved(s, run, Leaves) + Exec(s, run).egress
    decreases |run|
  {
    if run == [] {
    } else {
      var s' := Step(s, run[0]);
      RingKeepsOrder(s', run[1..]);
      StepKeepsOrder(s, run[0]);
      Rejoin(s.egress, Moves(s, run[0], Enters), Moved(s', run[1..], Enters), Moves(s, run[0], Leaves), s'.egress,
             Moved(s', run[1..], Leaves), Exec(s, run).egress);
    }
  }

  lemma StepKeepsOrder(s: State, a: Action)
    ensures s.egress + Moves(s, a, Enters) == Moves(s, a, Leaves) + Step(s, a).egress
  {
  }

  lemma Rejoin(q0: seq<nat>, in1: seq<nat>, in2: seq<nat>, out1: seq<nat>, q1: seq<nat>, out2: seq<nat>, q2: seq<nat>)
    requires q0 + in1 == out1 + q1 && q1 + in2 == out2 + q2
    ensures q0 + (in1 + in2) == (out1 + out2) + q2
  {
    calc {
      q0 + (in1 + in2);
      (q0 + in1) + in2;
      (out1 + q1) + in2;
      out1 + (q1 + in2);
      out1 + (out2 + q2);
      (out1 + out2) + q2;
    }
  }

  lemma AudioSnoc(wire: seq<Msg>, m: Msg)
    ensures AudioOn(wire + [m]) == AudioOn(wire) + if m.Audio? then [m.turn] else []
  {
    assert (wire + [m])[..|wire|] == wire;
  }

  lemma StepKeepsWire(s: State, a: Action)
    ensures AudioOn(s.wire) + InHand(s) + Moves(s, a, Pumped) == AudioOn(Step(s, a).wire) + InHand(Step(s, a))
  {
    if a.PumpSend? && Enabled(s, a) {
      Sends(s);
    } else if a.Mark? || a.Subtitle? {
      Notifies(s, a);
    } else {
      StaysOnWire(s, a);
    }
  }

  lemma Sends(s: State)
    requires Enabled(s, PumpSend)
    ensures AudioOn(s.wire) + InHand(s) == AudioOn(Step(s, PumpSend).wire) && InHand(Step(s, PumpSend)) == []
  {
    AudioSnoc(s.wire, Audio(s.held.value));
  }

  /** A notice is appended or dropped, and no frame moves. */
  lemma Offers(s: State, a: Action)
    requires a.Mark? || a.Subtitle?
    ensures var s' := Step(s, a);
      && (s'.wire == s.wire || s'.wire == s.wire + [Marker(s.turn)] || s'.wire == s.wire + [Text])
      && s'.held == s.held && Moves(s, a, Pumped) == []
  {
  }

  lemma Notifies(s: State, a: Action)
    requires a.Mark? || a.Subtitle?
    ensures AudioOn(Step(s, a).wire) == AudioOn(s.wire) && InHand(Step(s, a)) == InHand(s) && Moves(s, a, Pumped) == []
  {
    Offers(s, a);
    AudioSnoc(s.wire, Marker(s.turn));
    AudioSnoc(s.wire, Text);
  }

  lemma StaysOnWire(s: State, a: Action)
    requires !a.Mark? && !a.Subtitle? && (a.PumpSend? ==> !Enabled(s, a))
    ensures Step(s, a).wire == s.wire && InHand(Step(s, a)) == InHand(s) + Moves(s, a, Pumped)
  {
  }

  lemma Extend(q: seq<nat>, a: seq<nat>, b: seq<nat>)
    ensures q + (a + b) == (q + a) + b
  {
  }

  lemma {:induction false} WireKeepsOrder(s: State, run: seq<Action>)
    ensures AudioOn(s.wire) + InHand(s) + Moved(s, run, Pumped) == AudioOn(Exec(s, run).wire) + InHand(Exec(s, run))
    decreases |run|
  {
    if run == [] {
    } else {
      var s' := Step(s, run[0]);
      StepKeepsWire(s, run[0]);
      WireKeepsOrder(s', run[1..]);
      Extend(AudioOn(s.wire) + InHand(s), Moves(s, run[0], Pumped), Moved(s', run[1..], Pumped));
    }
  }

  lemma StepLeavesOneWay(s: State, a: Action)
    ensures Moves(s, a, Leaves) == Moves(s, a, Evicted) + Moves(s, a, Drained) + Moves(s, a, Pumped)
  {
  }

  lemma Gather(l1: seq<nat>, e1: seq<nat>, d1: seq<nat>, p1: seq<nat>, l2: seq<nat>, e2: seq<nat>, d2: seq<nat>, p2: seq<nat>)
    requires l1 == e1 + d1 + p1 && multiset(l2) == multiset(e2) + multiset(d2) + multiset(p2)
    ensures multiset(l1 + l2) == multiset(e1 + e2) + multiset(d1 + d2) + multiset(p1 + p2)
  {
    assert multiset(l1) == multiset(e1) + multiset(d1) + multiset(p1);
  }

  lemma {:induction false} LeavesByThreeWays(s: State, run: seq<Action>)
    ensures multiset(Moved(s, run, Leaves)) ==
      multiset(Moved(s, run, Evicted)) + multiset(Moved(s, run, Drained)) + multiset(Moved(s, run, Pumped))
    decreases |run|
  {
    if run == [] {
    } else {
      var s', a, rest := Step(s, run[0]), run[0], run[1..];
      LeavesByThreeWays(s', rest);
      StepLeavesOneWay(s, a);
      Gather(Moves(s, a, Leaves), Moves(s, a, Evicted), Moves(s, a, Drained), Moves(s, a, Pumped),
             Moved(s', rest, Leaves), Moved(s', rest, Evicted), Moved(s', rest, Drained), Moved(s', rest, Pumped));
    }
  }

  /**
   Over every run the ring is first in, first out; what leaves it is evicted by a push, drained, or
   taken by the audio pump; and what the pump took is on the wire in that order, but for the frame in
   its hand.
   */
  lemma EveryFrameGoesSomewhere(cap: nat, run: seq<Action>)
    ensures var i := Init(cap); var s := Exec(i, run);
      && Moved(i, run, Enters) == Moved(i, run, Leaves) + s.egress
      && multiset(Moved(i, run, Leaves)) == multiset(Moved(i, run, Evicted)) + multiset(Moved(i, run, Drained)) + multiset(Moved(i, run, Pumped))
      && Moved(i, run, Pumped) == AudioOn(s.wire) + InHand(s)
  {
    RingKeepsOrder(Init(cap), run);
    LeavesByThreeWays(Init(cap), run);
    WireKeepsOrder(Init(cap), run);
  }

  // Only a cancelled turn is flushed

  predicate OnlyOf(s: State, cancelled: set<nat>) {
    && (s.orch.Draining? || s.orch.Marking? ==> s.turn in cancelled)
    && (forall m :: 0 <= m < |s.wire| && s.wire[m].Marker? ==> s.wire[m].turn in cancelled)
    && (forall i :: 0 <= i < |s.egress| ==> s.egress[i] <= s.turn)
  }

  /** The frame is of a cancelled turn or an earlier one. */
  predicate Covered(k: nat, cancelled: set<nat>) {
    exists c :: c in cancelled && k <= c
  }

  predicate UpTo(q: seq<nat>, cancelled: set<nat>) {
    forall i :: 0 <= i < |q| ==> Covered(q[i], cancelled)
  }

  lemma UpToNothing(q: seq<nat>, cancelled: set<nat>)
    requires UpTo(q, cancelled) && cancelled == {}
    ensures q == []
  {
    assert |q| > 0 ==> Covered(q[0], cancelled);
  }

  lemma StepOnlyOf(s: State, a: Action, cancelled: set<nat>)
    requires OneWriter(s) && OnlyOf(s, cancelled) && (a.CancelTurn? && Enabled(s, a) ==> s.turn in cancelled)
    ensures OnlyOf(Step(s, a), cancelled) && UpTo(Moves(s, a, Drained), cancelled)
  {
  }

  lemma {:induction false} RunOnlyOf(s: State, run: seq<Action>, cancelled: set<nat>)
    requires OneWriter(s) && OnlyOf(s, cancelled) && Cancels(s, run) <= cancelled
    ensures OnlyOf(Exec(s, run), cancelled) && UpTo(Moved(s, run, Drained), cancelled)
    decreases |run|
  {
    if run == [] {
    } else {
      StepWriters(s, run[0]);
      StepOnlyOf(s, run[0], cancelled);
      RunOnlyOf(Step(s, run[0]), run[1..], cancelled);
    }
  }

  /**
   Only cancellation flushes: each marker on the wire is that of a turn the run cancels, each drained
   frame is of such a turn or an earlier one; so without a cancellation nothing is marked or drained.
   */
  lemma OnlyCancelledTurnsAreFlushed(cap: nat, run: seq<Action>)
    ensures var i := Init(cap); var s := Exec(i, run);
      && (forall m :: 0 <= m < |s.wire| && s.wire[m].Marker? ==> s.wire[m].turn in Cancels(i, run))
      && UpTo(Moved(i, run, Drained), Cancels(i, run))
      && (Cancels(i, run) == {} ==> Moved(i, run, Drained) == [] && forall m :: 0 <= m < |s.wire| ==> !s.wire[m].Marker?)
  {
    var cancelled := Cancels(Init(cap), run);
    RunOnlyOf(Init(cap), run, cancelled);
    if cancelled == {} {
      UpToNothing(Moved(Init(cap), run, Drained), cancelled);
    }
  }

  // The wire queue

  /** How many messages the run writes to the socket. */
  function Written(s: State, run: seq<Action>): nat
    decreases |run|
  {
    if run == [] then 0
    else (if run[0].SocketWrite? && Enabled(s, run[0]) then 1 else 0) + Written(Step(s, run[0]), run[1..])
  }

  lemma {:induction false} RunWrites(s: State, run: seq<Action>)
    requires s.queued <= |s.wire| && s.queued <= 256
    ensures var t := Exec(s, run); t.queued <= 256 && |t.wire| - t.queued == |s.wire| - s.queued + Written(s, run)
    decreases |run|
  {
    if run == [] {
    } else {
      RunWrites(Step(s, run[0]), run[1..]);
    }
  }

  lemma {:induction false} RingStaysBounded(s: State, run: seq<Action>)
    requires |s.egress| <= s.cap
    ensures var t := Exec(s, run); t.cap == s.cap && |t.egress| <= t.cap
    decreases |run|
  {
    if run == [] {
    } else {
      RingStaysBounded(Step(s, run[0]), run[1..]);
    }
  }

  /** At most 256 messages wait, the others have been written; and the ring holds no more than it can. */
  lemma QueuesAreBounded(cap: nat, run: seq<Action>)
    ensures var s := Exec(Init(cap), run);
      s.queued <= 256 && |s.wire| == Written(Init(cap), run) + s.queued && |s.egress| <= cap
  {
    RunWrites(Init(cap), run);
    RingStaysBounded(Init(cap), run);
  }

  // Every cancellation is marked

  /** How many messages on the wire are not audio. */
  function Notices(wire: seq<Msg>): nat {
    if wire == [] then 0 else Notices(wire[..|wire| - 1]) + if wire[|wire| - 1].Audio? then 0 else 1
  }

  /** Notices sent or dropped, and the marker that a cancelled turn still owes. */
  function Noticed(s: State): nat {
    Notices(s.wire) + s.dropped + if s.orch.Draining? || s.orch.Marking? then 1 else 0
  }

  /** How many subtitles and cancellations the run holds. */
  function Notable(s: State, run: seq<Action>): nat
    decreases |run|
  {
    if run == [] then 0
    else (if Enabled(s, run[0]) && (run[0].Subtitle? || run[0].CancelTurn?) then 1 else 0) + Notable(Step(s, run[0]), run[1..])
  }

  lemma NoticesSnoc(wire: seq<Msg>, m: Msg)
    ensures Notices(wire + [m]) == Notices(wire) + if m.Audio? then 0 else 1
  {
    assert (wire + [m])[..|wire|] == wire;
  }

  lemma StepNotices(s: State, a: Action)
    ensures Noticed(Step(s, a)) == Noticed(s) + if Enabled(s, a) && (a.Subtitle? || a.CancelTurn?) then 1 else 0
  {
    if a.PumpSend? && Enabled(s, a) {
      NoticesSnoc(s.wire, Audio(s.held.value));
    } else if a.Mark? || a.Subtitle? {
      NoticesSnoc(s.wire, if a.Mark? then Marker(s.turn) else Text);
    } else {
      StaysOnWire(s, a);
    }
  }

  lemma {:induction false} RunNotices(s: State, run: seq<Action>)
    ensures Noticed(Exec(s, run)) == Noticed(s) + Notable(s, run)
    decreases |run|
  {
    if run == [] {
    } else {
      StepNotices(s, run[0]);
      RunNotices(Step(s, run[0]), run[1..]);
    }
  }

  /** Every cancellation and every subtitle ends up on the wire or in the drop counter, once. */
  lemma EveryNoticeCounts(cap: nat, run: seq<Action>)
    ensures Noticed(Exec(Init(cap), run)) == Notable(Init(cap), run)
  {
    RunNotices(Init(cap), run);
  }

  /** A cancelled turn whose ring is drained puts its marker on the wire, or counts it when 256 messages wait. */
  lemma DrainedTurnIsMarked(cap: nat, run: seq<Action>)
    ensures var s := Exec(Init(cap), run); var t := Step(Step(s, DrainEnd), Mark);
      s.orch.Draining? && s.egress == [] ==>
        t.orch.Between? &&
        if s.queued < 256 then t.wire == s.wire + [Marker(s.turn)] && t.dropped == s.dropped
        else t.wire == s.wire && t.dropped == s.dropped + 1
  {
  }

  lemma {:induction false} ExecSnoc(s: State, run: seq<Action>, a: Action)
    ensures Exec(s, run + [a]) == Step(Exec(s, run), a)
    decreases |run|
  {
    if run == [] {
      assert Exec(Step(s, a), []) == Step(s, a);
    } else {
      assert (run + [a])[0] == run[0] && (run + [a])[1..] == run[1..] + [a];
      ExecSnoc(Step(s, run[0]), run[1..], a);
    }
  }

  /** The bound is tight: the frame in the pump's hand does follow the marker. */
  lemma OneLateFrameHappens(cap: nat) returns (run: seq<Action>)
    requires cap >= 1
    ensures Exec(Init(cap), run).wire == [Marker(1), Audio(1)]
  {
    var i := Init(cap);
    run := FrameInHand(cap);
    ExecSnoc(i, run, WriterExit(1));   run := run + [WriterExit(1)];
    ExecSnoc(i, run, CancelTurn);      run := run + [CancelTurn];
    ExecSnoc(i, run, DrainEnd);        run := run + [DrainEnd];
    ExecSnoc(i, run, Mark);            run := run + [Mark];
    ExecSnoc(i, run, PumpSend);        run := run + [PumpSend];
  }

  lemma FrameInHand(cap: nat) returns (run: seq<Action>)
    requires cap >= 1
    ensures var s := Exec(Init(cap), run);
      s.egress == [] && s.writers == {1} && s.turn == 1 && s.orch.InTurn? && s.held == Some(1) && s.wire == [] && s.queued == 0
  {
    var i := Init(cap);
    run := [];
    assert Exec(i, run) == i;
    ExecSnoc(i, run, StartTurn);       run := run + [StartTurn];
    ExecSnoc(i, run, PushEnqueue(1));  run := run + [PushEnqueue(1)];
    ExecSnoc(i, run, PumpPop);         run := run + [PumpPop];
  }
}
