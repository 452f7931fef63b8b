/**
 The uplink end to end: the session's takeover protocol and the buffer path, step by step together.

 Attaching starts the path's read loop, a frame past the stale check and the watermark enters the
 path, and a read loop that exits leaves its buffer behind.  That the path only ever has one read
 loop is not assumed here: it is what `Takeover` proves.
 */
module Uplink {
  import T = Takeover
  import B = BufferFlow

  datatype State = State(sess: T.Sess, flow: B.Flow)

  datatype Action =
    | Control(a: T.Action)              // attach takes the mutex or marks, detach, writer exit, reclaim, close
    | Attach(pooled: bool)              // attach completes and spawns the read loop
    | Read(i: nat, m: T.Msg, n: nat)    // a frame with an n-byte payload arrives
    | Fail(i: nat)
    | Loop(i: nat, n: nat)              // the read loop processes; n sizes an unpooled payload
    | Data(r: B.ReaderAct)              // the read loop inside Get or Push
    | Pump(p: B.PumpAct)

  function Init(ringCap: nat, size: nat): State {
    State(T.Init(), B.Init(ringCap, size))
  }

  /** The read loop is at its read, with a buffer if it is a pooled one. */
  predicate AtRead(r: B.ReaderPc) {
    r.Ready? || r.Plain?
  }

  predicate Enabled(s: State, a: Action) {
    match a
    case Control(c) => c.AttachBegin? || c.AttachMark? || c.Detach? || c.WriterExit? || c.Reclaim? || c.Close?
    case Attach(_) => T.Enabled(s.sess, T.AttachEnd)
    case Read(i, m, _) => T.Enabled(s.sess, T.Read(i, m)) && AtRead(s.flow.reader)
    case Fail(i) => T.Enabled(s.sess, T.ReadFail(i)) && AtRead(s.flow.reader)
    case Loop(i, _) => T.Enabled(s.sess, T.ReaderStep(i))
    case Data(r) => r.Get? || r.GetRelease? || r.EvictOne? || r.Enqueue?
    case Pump(_) => true
  }

  /** The watermark lets the frame in. */
  predicate LetsIn(s: State, i: nat) {
    i < |s.sess.atts| && s.sess.atts[i].pc.Passed? && s.sess.atts[i].pc.m.Audio? && s.sess.atts[i].pc.m.no > s.sess.floor
  }

  function LoopFlow(s: State, i: nat, n: nat): B.Flow
    requires T.Enabled(s.sess, T.ReaderStep(i))
  {
    if LetsIn(s, i) then
      var no := s.sess.atts[i].pc.m.no;
      B.Step(s.flow, B.Reads(if s.flow.reader.Ready? then B.Accept(no) else B.AcceptPlain(no, n)))
    else if T.ReaderNext(s.sess, i).atts[i].pc.Exited? then B.Step(s.flow, B.Reads(B.Stop))
    else s.flow
  }

  function Step(s: State, a: Action): State {
    if !Enabled(s, a) then s else
    match a
    case Control(c) => s.(sess := T.Step(s.sess, c))
    case Attach(pooled) => State(T.Step(s.sess, T.AttachEnd), B.Step(s.flow, B.Reads(B.Start(pooled))))
    case Read(i, m, n) => State(T.Step(s.sess, T.Read(i, m)), B.Step(s.flow, B.Reads(B.ReadInto(n))))
    case Fail(i) => State(T.Step(s.sess, T.ReadFail(i)), B.Step(s.flow, B.Reads(B.Stop)))
    case Loop(i, n) => State(T.ReaderNext(s.sess, i), LoopFlow(s, i, n))
    case Data(r) => s.(flow := B.Step(s.flow, B.Reads(r)))
    case Pump(p) => s.(flow := B.Step(s.flow, B.Pumps(p)))
  }

  function Exec(s: State, run: seq<Action>): State
    decreases |run|
  {
    if run == [] then s else Exec(Step(s, run[0]), run[1..])
  }

  // ---------------------------------------------------------------------------
  // Invariant: the two halves agree

  predicate AnyRunning(t: T.Sess) {
    exists i :: 0 <= i < |t.atts| && !t.atts[i].pc.Exited?
  }

  /** The path has a read loop exactly while some attachment has one, and it waits while a frame is processed. */
  predicate Agree(s: State) {
    && s.sess.floor == s.flow.h.floor
    && (s.flow.reader.Off? <==> !AnyRunning(s.sess))
    && (forall i :: 0 <= i < |s.sess.atts| && !s.sess.atts[i].pc.Exited? && !s.sess.atts[i].pc.Reading? ==> AtRead(s.flow.reader))
    && SameLog(s.sess.ingested, s.flow.h.accepted)
  }

  /** What the session let in is what the path accepted. */
  predicate SameLog(l: seq<T.Entry>, q: seq<nat>) {
    |l| == |q| && forall k :: 0 <= k < |l| ==> l[k].no == q[k]
  }

  ghost predicate Inv(s: State) {
    T.Inv(s.sess) && B.Inv(s.flow) && Agree(s)
  }

  /** The session moves, no read loop does, and the path stands still. */
  lemma ControlAgrees(s: State, c: T.Action)
    requires T.OneReader(s.sess) && Agree(s) && Enabled(s, Control(c))
    ensures Agree(Step(s, Control(c)))
  {
    var t := T.Step(s.sess, c);
    assert |t.atts| == |s.sess.atts| && forall i :: 0 <= i < |t.atts| ==> t.atts[i].pc == s.sess.atts[i].pc;
  }

  /** Completing an attach finds the path without a read loop: the pool has a single getter. */
  lemma AttachFindsNoReader(s: State)
    requires T.Inv(s.sess) && Agree(s) && T.Enabled(s.sess, T.AttachEnd)
    ensures s.flow.reader.Off?
  {
    assert !AnyRunning(s.sess);
  }

  lemma AttachAgrees(s: State, pooled: bool)
    requires T.Inv(s.sess) && Agree(s) && Enabled(s, Attach(pooled))
    ensures Agree(Step(s, Attach(pooled)))
  {
    AttachFindsNoReader(s);
    var t := T.Step(s.sess, T.AttachEnd);
    assert !t.atts[|s.sess.atts|].pc.Exited?;
  }

  lemma ReadAgrees(s: State, a: Action)
    requires T.OneReader(s.sess) && Agree(s) && Enabled(s, a) && (a.Read? || a.Fail?)
    ensures Agree(Step(s, a))
  {
    var t := Step(s, a).sess;
    if a.Read? {
      assert !t.atts[a.i].pc.Exited?;
    }
  }

  /** The read loop whose frame is processed is the only one, so afterwards only its own state counts. */
  lemma LoopRuns(s: State, i: nat)
    requires T.OneReader(s.sess) && T.Enabled(s.sess, T.ReaderStep(i))
    ensures var t := T.ReaderNext(s.sess, i);
      && |t.atts| == |s.sess.atts| && (AnyRunning(t) <==> !t.atts[i].pc.Exited?)
      && (forall j :: 0 <= j < |t.atts| && j != i ==> t.atts[j].pc.Exited?)
  {
    var t := T.ReaderNext(s.sess, i);
    assert t.atts == s.sess.atts[i := s.sess.atts[i].(pc := t.atts[i].pc)];
  }

  lemma LetInAgrees(s: State, i: nat, n: nat)
    requires T.OneReader(s.sess) && Agree(s) && Enabled(s, Loop(i, n)) && LetsIn(s, i)
    ensures Agree(Step(s, Loop(i, n)))
  {
    LoopRuns(s, i);
    assert AtRead(s.flow.reader);
  }

  lemma LoopAgrees(s: State, i: nat, n: nat)
    requires T.OneReader(s.sess) && Agree(s) && Enabled(s, Loop(i, n)) && !LetsIn(s, i)
    ensures Agree(Step(s, Loop(i, n)))
  {
    LoopRuns(s, i);
    assert AtRead(s.flow.reader);
    var t := T.ReaderNext(s.sess, i);
    assert t.floor == s.sess.floor && t.ingested == s.sess.ingested;
  }

  lemma StepAgrees(s: State, a: Action)
    requires Inv(s)
    ensures Agree(Step(s, a))
  {
    if Enabled(s, a) {
      match a
      case Control(c) => ControlAgrees(s, c);
      case Attach(pooled) => AttachAgrees(s, pooled);
      case Read(_, _, _) => ReadAgrees(s, a);
      case Fail(_) => ReadAgrees(s, a);
      case Loop(i, n) => if LetsIn(s, i) { LetInAgrees(s, i, n); } else { LoopAgrees(s, i, n); }
      case Data(_) =>
      case Pump(_) =>
    }
  }

  lemma LoopFlowInv(s: State, i: nat, n: nat)
    requires B.Inv(s.flow) && T.Enabled(s.sess, T.ReaderStep(i))
    ensures B.Inv(LoopFlow(s, i, n))
  {
    if LetsIn(s, i) {
      var no := s.sess.atts[i].pc.m.no;
      B.StepInv(s.flow, B.Reads(if s.flow.reader.Ready? then B.Accept(no) else B.AcceptPlain(no, n)));
    } else {
      B.StepInv(s.flow, B.Reads(B.Stop));
    }
  }

  lemma StepInv(s: State, a: Action)
    requires Inv(s)
    ensures Inv(Step(s, a))
  {
    StepAgrees(s, a);
    if Enabled(s, a) {
      match a
      case Control(c) => T.StepInv(s.sess, c);
      case Attach(pooled) => T.StepInv(s.sess, T.AttachEnd); B.StepInv(s.flow, B.Reads(B.Start(pooled)));
      case Read(i, m, n) => T.StepInv(s.sess, T.Read(i, m)); B.StepInv(s.flow, B.Reads(B.ReadInto(n)));
      case Fail(i) => T.StepInv(s.sess, T.ReadFail(i)); B.StepInv(s.flow, B.Reads(B.Stop));
      case Loop(i, n) => T.StepInv(s.sess, T.ReaderStep(i)); LoopFlowInv(s, i, n);
      case Data(r) => B.StepInv(s.flow, B.Reads(r));
      case Pump(p) => B.StepInv(s.flow, B.Pumps(p));
    }
  }

  lemma {:induction false} ExecInv(s: State, run: seq<Action>)
    requires Inv(s)
    ensures Inv(Exec(s, run))
    decreases |run|
  {
    if run == [] {
    } else {
      StepInv(s, run[0]);
      ExecInv(Step(s, run[0]), run[1..]);
    }
  }

  /** A payload that a pooled connection has read is in a buffer that holds it. */
  lemma PayloadFits(ringCap: nat, size: nat, run: seq<Action>, i: nat, m: T.Msg, n: nat)
    ensures var s := Exec(Init(ringCap, size), run); var r := Step(s, Read(i, m, n)).flow;
      Enabled(s, Read(i, m, n)) && s.flow.reader.Ready? ==>
        r.reader.Ready? && r.reader.b < |r.pool.caps| && r.pool.caps[r.reader.b] >= n
  {
    B.InitInv(ringCap, size);
    ExecInv(Init(ringCap, size), run);
    var s := Exec(Init(ringCap, size), run);
    if s.flow.reader.Ready? {
      assert B.PlacesOf(s.flow, s.flow.reader.b) > 0;
    }
  }

  /**
   Over any number of reconnects and replays: ASR gets strictly increasing frame numbers; every frame
   the session let in is handed over, evicted, discarded or in flight, exactly one of them; no other
   frame is; every buffer has one place; and an attach never completes while a read loop is alive.
   */
  lemma UplinkEndToEnd(ringCap: nat, size: nat, run: seq<Action>)
    ensures var s := Exec(Init(ringCap, size), run);
      && B.Increasing(s.flow.h.handed)
      && SameLog(s.sess.ingested, s.flow.h.accepted)
      && (forall no: nat :: B.FatesOf(s.flow, no) == if no in s.flow.h.accepted then 1 else 0)
      && (forall b: nat :: B.PlacesOf(s.flow, b) == if b < |s.flow.pool.caps| then 1 else 0)
      && (T.Enabled(s.sess, T.AttachEnd) ==> s.flow.reader.Off?)
  {
    B.InitInv(ringCap, size);
    ExecInv(Init(ringCap, size), run);
    var s := Exec(Init(ringCap, size), run);
    B.HandedOnce(s.flow);
    if T.Enabled(s.sess, T.AttachEnd) {
      AttachFindsNoReader(s);
    }
  }
}
