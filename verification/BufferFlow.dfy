/**
 The uplink data path: pooled buffers, the ingress ring and the pump in front of ASR.

 A buffer is a number; `caps` holds the capacity of each one ever made.  The rings are the atomic
 queues that `RingTheorems` justifies; only two details of the lock-free code matter here and are
 kept.  A `Get` has claimed its buffer before it has released the slot, and a `Put` is refused while
 the slot it needs is still held; and one Push may evict several frames before it enqueues.
 */
module BufferFlow {
  import opened Wrappers

  datatype Frame = Frame(buf: nat, no: nat)

  /** The read loop: off, fetching a buffer, holding one (its slot still claimed or not), or pushing. */
  datatype ReaderPc =
    | Off
    | Fetch
    | Claimed(b: nat)
    | Ready(b: nat)
    | Plain              // a connection without pooled reads
    | Pushing(f: Frame)

  /** The pump: polling, offering a popped frame, past the handover, or waiting for ASR to return. */
  datatype PumpPc = Poll | Has(f: Frame) | Sent(f: Frame) | Closing

  /** Every buffer ever made (`caps` has its capacity), the free ones, and those left to the collector. */
  datatype Pool = Pool(caps: seq<nat>, free: seq<nat>, garbage: seq<nat>, misses: nat, rejects: nat)

  /** History: frames past the watermark, given to ASR, pushed out of the ring, dropped at a boundary. */
  datatype History = History(
    floor: nat,
    streams: nat,            // ASR streams opened
    surrendered: nat,        // buffers the reader gave up: too small, or held when it ended
    left: seq<nat>,          // out of the ring, in order
    accepted: seq<nat>,
    handed: seq<nat>,
    evicted: seq<nat>,
    discarded: seq<nat>,
    clean: bool)             // so far: one pooled attachment, all frames fit, nothing evicted

  datatype Flow = Flow(
    ringCap: nat,
    size: nat,               // capacity of a pooled buffer
    pool: Pool,
    reader: ReaderPc,
    pooled: bool,
    ring: seq<Frame>,
    pump: PumpPc,
    prev: Option<Frame>,
    asrLive: bool,
    asr: Option<nat>,        // the buffer that ASR may be reading
    h: History)

  function PoolCap(s: Flow): nat {
    2 * s.ringCap
  }

  datatype ReaderAct =
    | Start(pooled: bool)
    | Get
    | GetRelease
    | ReadInto(n: nat)
    | Accept(no: nat)
    | AcceptPlain(no: nat, n: nat)
    | EvictOne
    | Enqueue
    | Stop

  datatype PumpAct = Pop | Handover | RecyclePrev | Boundary | Discard | AsrReturn | Join

  datatype Action = Reads(r: ReaderAct) | Pumps(p: PumpAct)

  function Init(ringCap: nat, size: nat): Flow {
    var n := 2 * ringCap;
    Flow(ringCap, size, Pool(seq(n, _ => size), seq(n, i requires 0 <= i => i), [], 0, 0),
         Off, true, [], Poll, None, true, None, History(0, 1, 0, [], [], [], [], [], true))
  }

  predicate ReaderCan(s: Flow, r: ReaderAct) {
    match r
    case Start(_) => s.reader.Off?
    case Get => s.reader.Fetch?
    case GetRelease => s.reader.Claimed?
    case ReadInto(_) => s.reader.Ready?
    case Accept(no) => s.reader.Ready? && no > s.h.floor
    case AcceptPlain(no, _) => s.reader.Plain? && no > s.h.floor
    case EvictOne => s.reader.Pushing? && s.ring != []
    case Enqueue => s.reader.Pushing? && |s.ring| < s.ringCap
    case Stop => s.reader.Ready? || s.reader.Plain?
  }

  predicate PumpCan(s: Flow, p: PumpAct) {
    match p
    case Pop => s.pump.Poll? && s.ring != []
    case Handover => s.pump.Has? && s.asrLive
    case RecyclePrev => s.pump.Sent?
    case Boundary => s.pump.Poll?
    case Discard => s.pump.Has?
    case AsrReturn => s.asrLive
    case Join => s.pump.Closing? && !s.asrLive
  }

  /** A buffer nobody will use again, and a newly made one. */
  function Dropped(p: Pool, b: nat): Pool {
    p.(garbage := p.garbage + [b])
  }

  function Made(p: Pool, cap: nat): Pool {
    p.(caps := p.caps + [cap])
  }

  /** `BufferPool.Put`: too small, or no released slot, and the buffer goes to the garbage collector. */
  function Put(s: Flow, b: nat): Pool {
    var p := s.pool;
    if b < |p.caps| && p.caps[b] >= s.size && |p.free| + (if s.reader.Claimed? then 1 else 0) < PoolCap(s)
    then p.(free := p.free + [b])
    else Dropped(p, b).(rejects := p.rejects + 1)
  }

  function PutPrev(s: Flow): Pool {
    if s.prev.Some? then Put(s, s.prev.value.buf) else s.pool
  }

  function Accepted(h: History, no: nat): History {
    h.(floor := no, accepted := h.accepted + [no])
  }

  function ReaderStep(s: Flow, r: ReaderAct): Flow
    requires ReaderCan(s, r)
  {
    var p := s.pool;
    match r
    case Start(pooled) =>
      s.(reader := if pooled then Fetch else Plain, pooled := pooled, h := s.h.(clean := s.h.clean && pooled))
    case Get =>
      if p.free != [] then s.(reader := Claimed(p.free[0]), pool := p.(free := p.free[1..]))
      else s.(reader := Ready(|p.caps|), pool := Made(p, s.size).(misses := p.misses + 1))
    case GetRelease => s.(reader := Ready(s.reader.b))
    case ReadInto(n) =>
      if s.reader.b < |p.caps| && n <= p.caps[s.reader.b] then s
      else s.(reader := Ready(|p.caps|), pool := Made(Dropped(p, s.reader.b), n),
             h := s.h.(surrendered := s.h.surrendered + 1, clean := false))
    case Accept(no) => s.(reader := Pushing(Frame(s.reader.b, no)), h := Accepted(s.h, no))
    case AcceptPlain(no, n) =>
      s.(reader := Pushing(Frame(|p.caps|, no)), pool := Made(p, n), h := Accepted(s.h, no))
    case EvictOne =>
      s.(ring := s.ring[1..], pool := Dropped(p, s.ring[0].buf),
         h := s.h.(evicted := s.h.evicted + [s.ring[0].no], left := s.h.left + [s.ring[0].no], clean := false))
    case Enqueue => s.(ring := s.ring + [s.reader.f], reader := if s.pooled then Fetch else Plain)
    case Stop =>
      if s.reader.Ready?
      then s.(reader := Off, pool := Dropped(p, s.reader.b), h := s.h.(surrendered := s.h.surrendered + 1, clean := false))
      else s.(reader := Off, h := s.h.(clean := false))
  }

  function PumpStep(s: Flow, p: PumpAct): Flow
    requires PumpCan(s, p)
  {
    match p
    case Pop => s.(pump := Has(s.ring[0]), ring := s.ring[1..], h := s.h.(left := s.h.left + [s.ring[0].no]))
    case Handover =>
      s.(pump := Sent(s.pump.f), asr := Some(s.pump.f.buf), h := s.h.(handed := s.h.handed + [s.pump.f.no]))
    case RecyclePrev => s.(pool := PutPrev(s), prev := Some(s.pump.f), pump := Poll)
    case Boundary => s.(pump := Closing)
    case Discard =>
      s.(pool := Put(s, s.pump.f.buf), pump := Closing, h := s.h.(discarded := s.h.discarded + [s.pump.f.no]))
    case AsrReturn => s.(asrLive := false, asr := None)
    case Join => s.(pool := PutPrev(s), prev := None, pump := Poll, asrLive := true, h := s.h.(streams := s.h.streams + 1))
  }

  function Step(s: Flow, a: Action): Flow {
    match a
    case Reads(r) => if ReaderCan(s, r) then ReaderStep(s, r) else s
    case Pumps(p) => if PumpCan(s, p) then PumpStep(s, p) else s
  }

  function Exec(s: Flow, run: seq<Action>): Flow
    decreases |run|
  {
    if run == [] then s else Exec(Step(s, run[0]), run[1..])
  }

  // ---------------------------------------------------------------------------
  // Where buffers and frames are

  /** How often `x` occurs in `q`. */
  function Count(q: seq<nat>, x: nat): nat {
    multiset(q)[x]
  }

  function Is(y: nat, x: nat): nat {
    if y == x then 1 else 0
  }

  function Bufs(fs: seq<Frame>): seq<nat> {
    seq(|fs|, i requires 0 <= i < |fs| => fs[i].buf)
  }

  function Nos(fs: seq<Frame>): seq<nat> {
    seq(|fs|, i requires 0 <= i < |fs| => fs[i].no)
  }

  /** Whether the reader, or one of the pump's hands, has buffer `x`. */
  function HandHas(r: ReaderPc, x: nat): nat {
    match r
    case Claimed(b) => Is(b, x)
    case Ready(b) => Is(b, x)
    case Pushing(f) => Is(f.buf, x)
    case _ => 0
  }

  function PumpHas(p: PumpPc, x: nat): nat {
    if p.Has? || p.Sent? then Is(p.f.buf, x) else 0
  }

  function PrevHas(prev: Option<Frame>, x: nat): nat {
    if prev.Some? then Is(prev.value.buf, x) else 0
  }

  /** In how many places `x` is: free list, garbage, ring, reader, the pump's two hands. */
  function PlacesOf(s: Flow, x: nat): nat {
    InPool(s.pool, x) + Count(Bufs(s.ring), x) + HandHas(s.reader, x) + PumpHas(s.pump, x) + PrevHas(s.prev, x)
  }

  function InPool(p: Pool, x: nat): nat {
    Count(p.free, x) + Count(p.garbage, x)
  }

  /** Each buffer ever made is in exactly one place. */
  ghost predicate Owned(s: Flow) {
    forall b: nat :: PlacesOf(s, b) == if b < |s.pool.caps| then 1 else 0
  }

  /** What ASR may be reading is the last frame handed over, and the pump still has it. */
  ghost predicate AsrOk(s: Flow) {
    && (s.asr.Some? ==>
          if s.pump.Sent? then s.pump.f.buf == s.asr.value else s.prev.Some? && s.prev.value.buf == s.asr.value)
    && (!s.asrLive ==> s.asr.None?)
  }

  function Offered(p: PumpPc): seq<nat> {
    if p.Has? then [p.f.no] else []
  }

  function Entering(r: ReaderPc): seq<nat> {
    if r.Pushing? then [r.f.no] else []
  }

  /** What ASR has been given, followed by what it may still be given, oldest first. */
  function Line(s: Flow): seq<nat> {
    s.h.handed + Offered(s.pump) + Nos(s.ring) + Entering(s.reader)
  }

  ghost predicate Increasing(q: seq<nat>) {
    forall i, j :: 0 <= i < j < |q| ==> q[i] < q[j]
  }

  ghost predicate Below(q: seq<nat>, top: nat) {
    forall i :: 0 <= i < |q| ==> q[i] <= top
  }

  ghost predicate Ordered(s: Flow) {
    && Increasing(Line(s)) && Below(Line(s), s.h.floor)
    && Increasing(s.h.accepted) && Below(s.h.accepted, s.h.floor)
  }

  /** How often frame `no` is accounted for: handed over, evicted, discarded, or in flight. */
  function FatesOf(s: Flow, no: nat): nat {
    Settled(s.h, no) + Count(Nos(s.ring), no) + OfferedIs(s.pump, no) + EnteringIs(s.reader, no)
  }

  function Settled(h: History, no: nat): nat {
    Count(h.handed, no) + Count(h.evicted, no) + Count(h.discarded, no)
  }

  function OfferedIs(p: PumpPc, no: nat): nat {
    if p.Has? then Is(p.f.no, no) else 0
  }

  function EnteringIs(r: ReaderPc, no: nat): nat {
    if r.Pushing? then Is(r.f.no, no) else 0
  }

  ghost predicate Conserved(s: Flow) {
    forall no: nat :: FatesOf(s, no) == Count(s.h.accepted, no)
  }

  // ---------------------------------------------------------------------------
  // Counting

  lemma CountSnoc(q: seq<nat>, y: nat, x: nat)
    ensures Count(q + [y], x) == Count(q, x) + Is(y, x)
  {
  }

  lemma CountFirst(q: seq<nat>, x: nat)
    requires q != []
    ensures Count(q, x) == Is(q[0], x) + Count(q[1..], x)
  {
    assert q == [q[0]] + q[1..];
  }

  lemma CountPositive(q: seq<nat>, x: nat)
    ensures Count(q, x) > 0 <==> x in q
  {
    assert x in multiset(q) <==> x in q;
  }

  lemma {:induction false} CountIncreasing(q: seq<nat>, x: nat)
    requires Increasing(q)
    ensures Count(q, x) <= 1
  {
    if q == [] {
    } else {
      CountIncreasing(q[..|q| - 1], x);
      CountPositive(q[..|q| - 1], x);
      assert q == q[..|q| - 1] + [q[|q| - 1]];
    }
  }

  lemma RingSnoc(fs: seq<Frame>, f: Frame, x: nat)
    ensures Bufs(fs + [f]) == Bufs(fs) + [f.buf] && Count(Bufs(fs + [f]), x) == Count(Bufs(fs), x) + Is(f.buf, x)
    ensures Nos(fs + [f]) == Nos(fs) + [f.no] && Count(Nos(fs + [f]), x) == Count(Nos(fs), x) + Is(f.no, x)
  {
    CountSnoc(Bufs(fs), f.buf, x);
    CountSnoc(Nos(fs), f.no, x);
  }

  lemma RingFirst(fs: seq<Frame>, x: nat)
    requires fs != []
    ensures Bufs(fs)[1..] == Bufs(fs[1..]) && Count(Bufs(fs), x) == Is(fs[0].buf, x) + Count(Bufs(fs[1..]), x)
    ensures Nos(fs)[1..] == Nos(fs[1..]) && Count(Nos(fs), x) == Is(fs[0].no, x) + Count(Nos(fs[1..]), x)
  {
    CountFirst(Bufs(fs), x);
    CountFirst(Nos(fs), x);
    assert Bufs(fs)[1..] == Bufs(fs[1..]);
    assert Nos(fs)[1..] == Nos(fs[1..]);
  }

  // ---------------------------------------------------------------------------
  // Ownership

  lemma PutPlaces(s: Flow, b: nat, x: nat)
    ensures InPool(Put(s, b), x) == InPool(s.pool, x) + Is(b, x)
    ensures Put(s, b).caps == s.pool.caps
  {
    CountSnoc(s.pool.free, b, x);
    CountSnoc(s.pool.garbage, b, x);
  }

  lemma EvictMoves(s: Flow, x: nat)
    requires ReaderCan(s, EvictOne)
    ensures PlacesOf(ReaderStep(s, EvictOne), x) == PlacesOf(s, x)
  {
    RingFirst(s.ring, x);
    CountSnoc(s.pool.garbage, s.ring[0].buf, x);
  }

  lemma GiveUpMoves(s: Flow, r: ReaderAct, x: nat)
    requires s.reader.Ready? && (r.ReadInto? || r.Stop?)
    ensures var s' := ReaderStep(s, r);
      PlacesOf(s', x) == PlacesOf(s, x) + if |s.pool.caps| <= x < |s'.pool.caps| then 1 else 0
  {
    CountSnoc(s.pool.garbage, s.reader.b, x);
    assert InPool(Dropped(s.pool, s.reader.b), x) == InPool(s.pool, x) + HandHas(s.reader, x);
  }

  lemma EnqueueMoves(s: Flow, x: nat)
    requires ReaderCan(s, Enqueue)
    ensures PlacesOf(ReaderStep(s, Enqueue), x) == PlacesOf(s, x)
  {
    RingSnoc(s.ring, s.reader.f, x);
  }

  lemma GetMoves(s: Flow, x: nat)
    requires s.reader.Fetch?
    ensures var s' := ReaderStep(s, Get);
      PlacesOf(s', x) == PlacesOf(s, x) + if |s.pool.caps| <= x < |s'.pool.caps| then 1 else 0
  {
    if s.pool.free != [] { CountFirst(s.pool.free, x); }
  }

  /** A step of the reader moves a buffer from one place to another, or makes a new one. */
  lemma ReaderMoves(s: Flow, r: ReaderAct, x: nat)
    requires ReaderCan(s, r)
    ensures var s' := ReaderStep(s, r);
      PlacesOf(s', x) == PlacesOf(s, x) + if |s.pool.caps| <= x < |s'.pool.caps| then 1 else 0
  {
    match r
    case Get => GetMoves(s, x);
    case ReadInto(_) => GiveUpMoves(s, r, x);
    case EvictOne => EvictMoves(s, x);
    case Enqueue => EnqueueMoves(s, x);
    case Stop => if s.reader.Ready? { GiveUpMoves(s, r, x); }
    case _ =>
  }

  lemma PumpMoves(s: Flow, p: PumpAct, x: nat)
    requires PumpCan(s, p)
    ensures PlacesOf(PumpStep(s, p), x) == PlacesOf(s, x) && PumpStep(s, p).pool.caps == s.pool.caps
  {
    match p
    case Pop => RingFirst(s.ring, x);
    case RecyclePrev => if s.prev.Some? { PutPlaces(s, s.prev.value.buf, x); }
    case Discard => PutPlaces(s, s.pump.f.buf, x);
    case Join => if s.prev.Some? { PutPlaces(s, s.prev.value.buf, x); }
    case _ =>
  }

  lemma StepOwned(s: Flow, a: Action)
    requires Owned(s)
    ensures Owned(Step(s, a))
  {
    var s' := Step(s, a);
    forall x: nat ensures PlacesOf(s', x) == if x < |s'.pool.caps| then 1 else 0 {
      assert PlacesOf(s, x) == if x < |s.pool.caps| then 1 else 0;
      if a.Reads? && ReaderCan(s, a.r) { ReaderMoves(s, a.r, x); }
      if a.Pumps? && PumpCan(s, a.p) { PumpMoves(s, a.p, x); }
    }
  }

  lemma StepAsr(s: Flow, a: Action)
    requires AsrOk(s)
    ensures AsrOk(Step(s, a))
  {
  }

  lemma {:induction false} FirstNumbers(q: seq<nat>, x: nat)
    requires forall i :: 0 <= i < |q| ==> q[i] == i
    ensures Count(q, x) == if x < |q| then 1 else 0
  {
    if q == [] {
    } else {
      FirstNumbers(q[..|q| - 1], x);
      assert q == q[..|q| - 1] + [q[|q| - 1]];
    }
  }

  // ---------------------------------------------------------------------------
  // Order and conservation of frames

  lemma DropOne(a: seq<nat>, x: nat, b: seq<nat>, top: nat)
    requires Increasing(a + [x] + b) && Below(a + [x] + b, top)
    ensures Increasing(a + b) && Below(a + b, top)
  {
    var q, r := a + [x] + b, a + b;
    forall i | 0 <= i < |r| ensures r[i] == q[if i < |a| then i else i + 1] { }
    forall i, j | 0 <= i < j < |r| ensures r[i] < r[j] {
      assert q[if i < |a| then i else i + 1] < q[if j < |a| then j else j + 1];
    }
  }

  lemma AppendTop(q: seq<nat>, no: nat, top: nat)
    requires Increasing(q) && Below(q, top) && no > top
    ensures Increasing(q + [no]) && Below(q + [no], no)
  {
  }

  lemma LineGrows(s: Flow, s': Flow, no: nat)
    requires Ordered(s) && no > s.h.floor && !s.reader.Pushing?
    requires s'.h == Accepted(s.h, no) && s'.ring == s.ring && s'.pump == s.pump
    requires s'.reader.Pushing? && s'.reader.f.no == no
    ensures Ordered(s')
  {
    assert Line(s') == Line(s) + [no];
    AppendTop(Line(s), no, s.h.floor);
    AppendTop(s.h.accepted, no, s.h.floor);
  }

  lemma EvictOrdered(s: Flow)
    requires Ordered(s) && ReaderCan(s, EvictOne)
    ensures Ordered(ReaderStep(s, EvictOne))
  {
    RingFirst(s.ring, 0);
    var front, back := s.h.handed + Offered(s.pump), Nos(s.ring[1..]) + Entering(s.reader);
    assert Nos(s.ring) == [s.ring[0].no] + Nos(s.ring[1..]);
    assert Line(s) == front + [s.ring[0].no] + back;
    assert Line(ReaderStep(s, EvictOne)) == front + back;
    DropOne(front, s.ring[0].no, back, s.h.floor);
  }

  lemma ReaderOrdered(s: Flow, r: ReaderAct)
    requires Ordered(s) && ReaderCan(s, r)
    ensures Ordered(ReaderStep(s, r))
  {
    var s' := ReaderStep(s, r);
    match r
    case Accept(no) => LineGrows(s, s', no);
    case AcceptPlain(no, _) => LineGrows(s, s', no);
    case EvictOne => EvictOrdered(s);
    case Enqueue =>
      RingSnoc(s.ring, s.reader.f, 0);
      assert Line(s') == Line(s);
    case _ => assert Line(s') == Line(s);
  }

  lemma DiscardOrdered(s: Flow)
    requires Ordered(s) && PumpCan(s, Discard)
    ensures Ordered(PumpStep(s, Discard))
  {
    var back := Nos(s.ring) + Entering(s.reader);
    assert Line(s) == s.h.handed + [s.pump.f.no] + back;
    assert Line(PumpStep(s, Discard)) == s.h.handed + back;
    DropOne(s.h.handed, s.pump.f.no, back, s.h.floor);
  }

  /** The oldest frame of the ring moves into the pump's hand: the line is the same. */
  lemma Regroup(handed: seq<nat>, fs: seq<Frame>, entering: seq<nat>)
    requires fs != []
    ensures handed + [] + Nos(fs) + entering == handed + [fs[0].no] + Nos(fs[1..]) + entering
  {
    assert Nos(fs) == [fs[0].no] + Nos(fs[1..]);
  }

  lemma PopOrdered(s: Flow)
    requires Ordered(s) && PumpCan(s, Pop)
    ensures Ordered(PumpStep(s, Pop))
  {
    Regroup(s.h.handed, s.ring, Entering(s.reader));
    assert Line(PumpStep(s, Pop)) == Line(s);
  }

  lemma PumpOrdered(s: Flow, p: PumpAct)
    requires Ordered(s) && PumpCan(s, p)
    ensures Ordered(PumpStep(s, p))
  {
    var s' := PumpStep(s, p);
    match p
    case Pop => PopOrdered(s);
    case Discard => DiscardOrdered(s);
    case _ => assert Line(s') == Line(s);
  }

  lemma EvictFates(s: Flow, x: nat)
    requires ReaderCan(s, EvictOne)
    ensures FatesOf(ReaderStep(s, EvictOne), x) == FatesOf(s, x)
  {
    RingFirst(s.ring, x);
    CountSnoc(s.h.evicted, s.ring[0].no, x);
  }

  lemma ReaderFates(s: Flow, r: ReaderAct, x: nat)
    requires ReaderCan(s, r) && FatesOf(s, x) == Count(s.h.accepted, x)
    ensures FatesOf(ReaderStep(s, r), x) == Count(ReaderStep(s, r).h.accepted, x)
  {
    match r
    case Accept(no) => CountSnoc(s.h.accepted, no, x);
    case AcceptPlain(no, _) => CountSnoc(s.h.accepted, no, x);
    case EvictOne => EvictFates(s, x);
    case Enqueue => RingSnoc(s.ring, s.reader.f, x);
    case _ =>
  }

  lemma PumpFates(s: Flow, p: PumpAct, x: nat)
    requires PumpCan(s, p)
    ensures FatesOf(PumpStep(s, p), x) == FatesOf(s, x) && PumpStep(s, p).h.accepted == s.h.accepted
  {
    match p
    case Pop => RingFirst(s.ring, x);
    case Handover => CountSnoc(s.h.handed, s.pump.f.no, x);
    case Discard => CountSnoc(s.h.discarded, s.pump.f.no, x);
    case _ =>
  }

  lemma StepConserved(s: Flow, a: Action)
    requires Conserved(s)
    ensures Conserved(Step(s, a))
  {
    forall x: nat ensures FatesOf(Step(s, a), x) == Count(Step(s, a).h.accepted, x) {
      assert FatesOf(s, x) == Count(s.h.accepted, x);
      if a.Reads? && ReaderCan(s, a.r) { ReaderFates(s, a.r, x); }
      if a.Pumps? && PumpCan(s, a.p) { PumpFates(s, a.p, x); }
    }
  }

  ghost predicate Inv(s: Flow) {
    Owned(s) && AsrOk(s) && Ordered(s) && Conserved(s)
  }

  lemma StepInv(s: Flow, a: Action)
    requires Inv(s)
    ensures Inv(Step(s, a))
  {
    StepOwned(s, a);
    StepAsr(s, a);
    StepConserved(s, a);
    if a.Reads? && ReaderCan(s, a.r) { ReaderOrdered(s, a.r); }
    if a.Pumps? && PumpCan(s, a.p) { PumpOrdered(s, a.p); }
  }

  lemma {:induction false} ExecInv(s: Flow, run: seq<Action>)
    requires Inv(s)
    ensures Inv(Exec(s, run))
    decreases |run|
  {
    if run == [] {
    } else {
      StepInv(s, run[0]);
      ExecInv(Step(s, run[0]), run[1..]);
    }
  }

  lemma InitInv(ringCap: nat, size: nat)
    ensures Inv(Init(ringCap, size))
  {
    var s := Init(ringCap, size);
    forall b: nat ensures PlacesOf(s, b) == if b < |s.pool.caps| then 1 else 0 {
      FirstNumbers(s.pool.free, b);
    }
  }

  /**
   Every buffer is in exactly one place, and the one ASR may be reading is with the pump: not free,
   not being filled, not in the ring and not given up.
   */
  lemma BuffersHaveOneOwner(ringCap: nat, size: nat, run: seq<Action>)
    ensures var s := Exec(Init(ringCap, size), run);
      && (forall b: nat :: PlacesOf(s, b) == if b < |s.pool.caps| then 1 else 0)
      && (s.asr.Some? ==> var b := s.asr.value;
           && PumpHas(s.pump, b) + PrevHas(s.prev, b) == 1
           && b !in s.pool.free && HandHas(s.reader, b) == 0 && b !in Bufs(s.ring) && b !in s.pool.garbage)
  {
    InitInv(ringCap, size);
    ExecInv(Init(ringCap, size), run);
    var s := Exec(Init(ringCap, size), run);
    if s.asr.Some? {
      OnlyWithPump(s, s.asr.value);
    }
  }

  lemma OnlyWithPump(s: Flow, b: nat)
    requires Owned(s) && PumpHas(s.pump, b) + PrevHas(s.prev, b) >= 1
    ensures PumpHas(s.pump, b) + PrevHas(s.prev, b) == 1
    ensures b !in s.pool.free && HandHas(s.reader, b) == 0 && b !in Bufs(s.ring) && b !in s.pool.garbage
  {
    assert PlacesOf(s, b) <= 1;
    CountPositive(s.pool.free, b);
    CountPositive(Bufs(s.ring), b);
    CountPositive(s.pool.garbage, b);
  }

  /**
   ASR gets frames in strictly increasing order; and every accepted frame is in exactly one of five
   places: handed over, evicted, discarded at a boundary, or in flight with the pump, ring or reader.
   */
  lemma UplinkConserves(ringCap: nat, size: nat, run: seq<Action>)
    ensures var s := Exec(Init(ringCap, size), run);
      && Increasing(s.h.handed)
      && (forall no: nat :: FatesOf(s, no) == if no in s.h.accepted then 1 else 0)
  {
    InitInv(ringCap, size);
    ExecInv(Init(ringCap, size), run);
    var s := Exec(Init(ringCap, size), run);
    HandedOnce(s);
  }

  lemma HandedOnce(s: Flow)
    requires Inv(s)
    ensures Increasing(s.h.handed)
    ensures forall no: nat :: FatesOf(s, no) == if no in s.h.accepted then 1 else 0
  {
    forall i, j | 0 <= i < j < |s.h.handed| ensures s.h.handed[i] < s.h.handed[j] {
      assert Line(s)[i] < Line(s)[j];
    }
    forall no: nat ensures FatesOf(s, no) == if no in s.h.accepted then 1 else 0 {
      CountIncreasing(s.h.accepted, no);
      CountPositive(s.h.accepted, no);
    }
  }

  /** What has left the ring, what is in it, and what is on its way in. */
  ghost predicate InOrder(s: Flow) {
    s.h.accepted == s.h.left + Nos(s.ring) + Entering(s.reader)
  }

  lemma TakesOldest(left: seq<nat>, fs: seq<Frame>, entering: seq<nat>)
    requires fs != []
    ensures left + Nos(fs) + entering == (left + [fs[0].no]) + Nos(fs[1..]) + entering
  {
    assert Nos(fs) == [fs[0].no] + Nos(fs[1..]);
  }

  lemma ReaderInOrder(s: Flow, r: ReaderAct)
    requires InOrder(s) && ReaderCan(s, r)
    ensures InOrder(ReaderStep(s, r))
  {
    match r
    case EvictOne => TakesOldest(s.h.left, s.ring, Entering(s.reader));
    case Enqueue => RingSnoc(s.ring, s.reader.f, 0);
    case _ =>
  }

  lemma PumpInOrder(s: Flow, p: PumpAct)
    requires InOrder(s) && PumpCan(s, p)
    ensures InOrder(PumpStep(s, p))
  {
    if p.Pop? {
      TakesOldest(s.h.left, s.ring, Entering(s.reader));
    }
  }

  lemma {:induction false} ExecInOrder(s: Flow, run: seq<Action>)
    requires InOrder(s)
    ensures InOrder(Exec(s, run))
    decreases |run|
  {
    if run == [] {
    } else {
      if run[0].Reads? && ReaderCan(s, run[0].r) { ReaderInOrder(s, run[0].r); }
      if run[0].Pumps? && PumpCan(s, run[0].p) { PumpInOrder(s, run[0].p); }
      ExecInOrder(Step(s, run[0]), run[1..]);
    }
  }

  /** The ring is first in, first out, for evictions and the pump alike: accepted frames leave it in order. */
  lemma RingIsFifo(ringCap: nat, size: nat, run: seq<Action>)
    ensures var s := Exec(Init(ringCap, size), run); s.h.accepted == s.h.left + Nos(s.ring) + Entering(s.reader)
  {
    ExecInOrder(Init(ringCap, size), run);
  }

  // ---------------------------------------------------------------------------
  // Utterances

  /** How many utterance boundaries the run holds. */
  function Boundaries(s: Flow, run: seq<Action>): nat
    decreases |run|
  {
    if run == [] then 0
    else
      (if run[0].Pumps? && (run[0].p.Boundary? || run[0].p.Discard?) && PumpCan(s, run[0].p) then 1 else 0)
      + Boundaries(Step(s, run[0]), run[1..])
  }

  lemma {:induction false} BoundariesClose(s: Flow, run: seq<Action>)
    ensures var t := Exec(s, run);
      t.h.streams + (if t.pump.Closing? then 1 else 0) == s.h.streams + (if s.pump.Closing? then 1 else 0) + Boundaries(s, run)
    decreases |run|
  {
    if run == [] {
    } else {
      StepCloses(s, run[0]);
      BoundariesClose(Step(s, run[0]), run[1..]);
    }
  }

  lemma StepCloses(s: Flow, a: Action)
    ensures var t := Step(s, a);
      t.h.streams + (if t.pump.Closing? then 1 else 0) == s.h.streams + (if s.pump.Closing? then 1 else 0)
        + if a.Pumps? && (a.p.Boundary? || a.p.Discard?) && PumpCan(s, a.p) then 1 else 0
  {
  }

  /** Each boundary ends one ASR stream, and the next is opened for it once the old one has returned. */
  lemma OneStreamPerUtterance(ringCap: nat, size: nat, run: seq<Action>)
    ensures var s := Exec(Init(ringCap, size), run);
      s.h.streams + (if s.pump.Closing? then 1 else 0) == 1 + Boundaries(Init(ringCap, size), run)
  {
    BoundariesClose(Init(ringCap, size), run);
  }

  /**
   From a boundary on nothing more is handed over until ASR has returned; then the last buffer is
   recycled and a fresh stream starts with an idle pump and nothing in its hands.
   */
  lemma BoundaryStartsNext(ringCap: nat, size: nat, run: seq<Action>)
    ensures var s := Exec(Init(ringCap, size), run); var t := Step(Step(s, Pumps(AsrReturn)), Pumps(Join));
      s.pump.Closing? ==>
        && !PumpCan(s, Pop) && !PumpCan(s, Handover)
        && t.pump.Poll? && t.asrLive && t.asr.None? && t.prev.None?
        && t.ring == s.ring && t.h == s.h.(streams := s.h.streams + 1)
        && |t.pool.free| + |t.pool.garbage| == |s.pool.free| + |s.pool.garbage| + if s.prev.Some? then 1 else 0
  {
    InitInv(ringCap, size);
    ExecInv(Init(ringCap, size), run);
  }

  // ---------------------------------------------------------------------------
  // The pool

  /** Free buffers are big enough and no more than the pool holds; all others that are gone are accounted for. */
  ghost predicate PoolOk(s: Flow) {
    && (forall i :: 0 <= i < |s.pool.free| ==> s.pool.free[i] < |s.pool.caps| && s.pool.caps[s.pool.free[i]] >= s.size)
    && |s.pool.free| + (if s.reader.Claimed? then 1 else 0) <= PoolCap(s)
    && |s.pool.garbage| == |s.h.evicted| + s.pool.rejects + s.h.surrendered
  }

  lemma ReaderPool(s: Flow, r: ReaderAct)
    requires PoolOk(s) && ReaderCan(s, r)
    ensures PoolOk(ReaderStep(s, r))
  {
  }

  lemma PutPool(s: Flow, b: nat)
    requires PoolOk(s)
    ensures var p := Put(s, b);
      && (forall i :: 0 <= i < |p.free| ==> p.free[i] < |p.caps| && p.caps[p.free[i]] >= s.size)
      && |p.free| + (if s.reader.Claimed? then 1 else 0) <= PoolCap(s)
      && |p.garbage| - p.rejects == |s.pool.garbage| - s.pool.rejects
  {
  }

  lemma PumpPool(s: Flow, p: PumpAct)
    requires PoolOk(s) && PumpCan(s, p)
    ensures PoolOk(PumpStep(s, p))
  {
    if s.prev.Some? { PutPool(s, s.prev.value.buf); }
    if p.Discard? { PutPool(s, s.pump.f.buf); }
  }

  lemma {:induction false} ExecPool(s: Flow, run: seq<Action>)
    requires PoolOk(s)
    ensures PoolOk(Exec(s, run))
    decreases |run|
  {
    if run == [] {
    } else {
      if run[0].Reads? && ReaderCan(s, run[0].r) { ReaderPool(s, run[0].r); }
      if run[0].Pumps? && PumpCan(s, run[0].p) { PumpPool(s, run[0].p); }
      ExecPool(Step(s, run[0]), run[1..]);
    }
  }

  /**
   Over every run the free list holds only buffers of full size, never more than twice the ring's
   capacity; and the buffers left to the collector are exactly those of evicted frames, those a Put
   refused, and those the reader gave up.
   */
  lemma PoolIsAccountedFor(ringCap: nat, size: nat, run: seq<Action>)
    ensures var s := Exec(Init(ringCap, size), run); PoolOk(s) && PoolCap(s) == 2 * ringCap
  {
    ExecPool(Init(ringCap, size), run);
    RingCapKept(Init(ringCap, size), run);
  }

  /** A connection without pooled reads stays away from the pool, a pooled one always reads into it. */
  ghost predicate KindOk(s: Flow) {
    if s.pooled then !s.reader.Plain? else s.reader.Off? || s.reader.Plain? || s.reader.Pushing?
  }

  lemma {:induction false} ExecKind(s: Flow, run: seq<Action>)
    requires KindOk(s)
    ensures KindOk(Exec(s, run))
    decreases |run|
  {
    if run == [] {
    } else {
      ExecKind(Step(s, run[0]), run[1..]);
    }
  }

  /**
   Over every run: only a pooled connection takes buffers from the pool; a payload is read into the
   buffer at hand exactly when it fits, otherwise into a new one of its own size, and an unpooled
   payload always is.
   */
  lemma BuffersFit(ringCap: nat, size: nat, run: seq<Action>, no: nat, n: nat)
    ensures var s := Exec(Init(ringCap, size), run);
      && KindOk(s)
      && (s.reader.Ready? && s.reader.b < |s.pool.caps| ==>
            var t := Step(s, Reads(ReadInto(n)));
            && t.reader.Ready? && t.reader.b < |t.pool.caps|
            && (if n <= s.pool.caps[s.reader.b] then t == s else t.reader.b == |s.pool.caps| && t.pool.caps[t.reader.b] == n))
      && (s.reader.Plain? && no > s.h.floor ==>
            var t := Step(s, Reads(AcceptPlain(no, n)));
            t.reader == Pushing(Frame(|s.pool.caps|, no)) && t.pool.caps == s.pool.caps + [n] && t.pool.free == s.pool.free)
  {
    ExecKind(Init(ringCap, size), run);
  }

  lemma {:induction false} RingCapKept(s: Flow, run: seq<Action>)
    ensures Exec(s, run).ringCap == s.ringCap && Exec(s, run).size == s.size
    decreases |run|
  {
    if run == [] {
    } else {
      RingCapKept(Step(s, run[0]), run[1..]);
    }
  }

  // ---------------------------------------------------------------------------
  // Pool sizing

  /** How many buffers are out of the free list. */
  function Out(s: Flow): nat {
    (if s.reader.Claimed? || s.reader.Ready? || s.reader.Pushing? then 1 else 0)
    + |s.ring| + (if s.pump.Has? || s.pump.Sent? then 1 else 0) + (if s.prev.Some? then 1 else 0)
  }

  /** As long as nothing unusual happened, every buffer is a pooled one and none has been given up. */
  ghost predicate Sized(s: Flow) {
    s.h.clean ==>
      && s.pool.misses == 0 && s.pool.rejects == 0 && s.pooled && !s.reader.Plain?
      && |s.pool.caps| == PoolCap(s) && (forall i :: 0 <= i < |s.pool.caps| ==> s.pool.caps[i] == s.size)
      && |s.pool.free| + Out(s) == PoolCap(s) && |s.ring| <= s.ringCap
  }

  lemma HeldExist(s: Flow, b: nat)
    requires Owned(s) && PumpHas(s.pump, b) + PrevHas(s.prev, b) >= 1
    ensures b < |s.pool.caps|
  {
    assert PlacesOf(s, b) > 0;
  }

  lemma ReaderSized(s: Flow, r: ReaderAct)
    requires Sized(s) && s.ringCap >= 3 && ReaderCan(s, r)
    ensures Sized(ReaderStep(s, r))
  {
  }

  lemma PumpSized(s: Flow, p: PumpAct)
    requires Sized(s) && Owned(s) && s.ringCap >= 3 && PumpCan(s, p)
    ensures Sized(PumpStep(s, p))
  {
    if s.pump.Sent? || s.pump.Has? { HeldExist(s, s.pump.f.buf); }
    if s.prev.Some? { HeldExist(s, s.prev.value.buf); }
  }

  lemma StepSized(s: Flow, a: Action)
    requires Sized(s) && Owned(s) && s.ringCap >= 3
    ensures Sized(Step(s, a)) && Step(s, a).ringCap == s.ringCap
  {
    if a.Reads? && ReaderCan(s, a.r) { ReaderSized(s, a.r); }
    if a.Pumps? && PumpCan(s, a.p) { PumpSized(s, a.p); }
  }

  lemma {:induction false} ExecSized(s: Flow, run: seq<Action>)
    requires Inv(s) && Sized(s) && s.ringCap >= 3
    ensures Sized(Exec(s, run))
    decreases |run|
  {
    if run == [] {
    } else {
      StepInv(s, run[0]);
      StepSized(s, run[0]);
      ExecSized(Step(s, run[0]), run[1..]);
    }
  }

  /** A run of one pooled attachment in which all frames fit and none was evicted allocates nothing. */
  ghost predicate NoWaste(ringCap: nat, size: nat, run: seq<Action>) {
    var s := Exec(Init(ringCap, size), run);
    s.h.clean ==> s.pool.misses == 0 && s.pool.rejects == 0
  }

  lemma {:induction false} ExecSnoc(s: Flow, run: seq<Action>, a: Action)
    ensures Exec(s, run + [a]) == Step(Exec(s, run), a)
    decreases |run|
  {
    if run == [] {
      assert Exec(Step(s, a), []) == Step(s, a);
    } else {
      assert (run + [a])[0] == run[0] && (run + [a])[1..] == run[1..] + [a];
      ExecSnoc(Step(s, run[0]), run[1..], a);
    }
  }

  /** One more frame read and enqueued into a ring with room, from a pool with a free buffer. */
  lemma PushOne(i: Flow, run: seq<Action>) returns (more: seq<Action>)
    requires var s := Exec(i, run); s.reader.Fetch? && s.pooled && s.pool.free != [] && |s.ring| < s.ringCap
    ensures var s, t := Exec(i, run), Exec(i, more);
      && t == s.(pool := s.pool.(free := s.pool.free[1..]),
                 ring := s.ring + [Frame(s.pool.free[0], s.h.floor + 1)], h := Accepted(s.h, s.h.floor + 1))
  {
    var no := Exec(i, run).h.floor + 1;
    ExecSnoc(i, run, Reads(Get));          more := run + [Reads(Get)];
    ExecSnoc(i, more, Reads(GetRelease));  more := more + [Reads(GetRelease)];
    ExecSnoc(i, more, Reads(Accept(no)));  more := more + [Reads(Accept(no))];
    ExecSnoc(i, more, Reads(Enqueue));     more := more + [Reads(Enqueue)];
  }

  /** The pump takes the oldest frame off the ring. */
  lemma PopOne(i: Flow, run: seq<Action>) returns (more: seq<Action>)
    requires PumpCan(Exec(i, run), Pop)
    ensures Exec(i, more) == PumpStep(Exec(i, run), Pop)
  {
    ExecSnoc(i, run, Pumps(Pop));
    more := run + [Pumps(Pop)];
  }

  /** With two slots a stalled pump holds two buffers and the ring two more: the pool runs dry. */
  lemma TwoSlotsMiss(size: nat) returns (run: seq<Action>)
    ensures !NoWaste(2, size, run)
  {
    var i := Init(2, size);
    run := FirstHanded(size);
    run := PushOne(i, run);
    run := PopOne(i, run);
    run := PushOne(i, run);
    run := PushOne(i, run);
    ExecSnoc(i, run, Reads(Get));
    run := run + [Reads(Get)];
  }

  lemma FirstHanded(size: nat) returns (run: seq<Action>)
    ensures var s := Exec(Init(2, size), run);
      && s.pool.free == [1, 2, 3] && s.ring == [] && s.pump.Poll? && s.h.clean && s.reader.Fetch? && s.pooled && s.ringCap == 2
      && s.pool.misses == 0
  {
    var i := Init(2, size);
    assert i.pool.free == [0, 1, 2, 3];
    run := [];
    assert Exec(i, run) == i;
    ExecSnoc(i, run, Reads(Start(true)));   run := run + [Reads(Start(true))];
    run := PushOne(i, run);
    run := PopOne(i, run);
    ExecSnoc(i, run, Pumps(Handover));      run := run + [Pumps(Handover)];
    ExecSnoc(i, run, Pumps(RecyclePrev));   run := run + [Pumps(RecyclePrev)];
  }

  /** With one slot the third frame finds no buffer: the ring is empty, but the pump holds both. */
  lemma OneSlotMisses(size: nat) returns (run: seq<Action>)
    ensures !NoWaste(1, size, run)
  {
    var i := Init(1, size);
    assert i.pool.free == [0, 1];
    run := [];
    assert Exec(i, run) == i;
    ExecSnoc(i, run, Reads(Start(true)));   run := run + [Reads(Start(true))];
    run := PushOne(i, run);
    run := PopOne(i, run);
    ExecSnoc(i, run, Pumps(Handover));      run := run + [Pumps(Handover)];
    ExecSnoc(i, run, Pumps(RecyclePrev));   run := run + [Pumps(RecyclePrev)];
    assert Exec(i, run).pool.free == [1] && Exec(i, run).ring == [];
    run := PushOne(i, run);
    run := PopOne(i, run);
    ExecSnoc(i, run, Reads(Get));           run := run + [Reads(Get)];
  }

  lemma NoSlotMisses(size: nat) returns (run: seq<Action>)
    ensures !NoWaste(0, size, run)
  {
    var i := Init(0, size);
    run := [Reads(Start(true)), Reads(Get)];
    assert run[1..] == [Reads(Get)] && run[1..][1..] == [];
    var s := Step(Step(i, run[0]), Reads(Get));
    assert Exec(s, []) == s;
    assert Exec(Step(i, run[0]), run[1..]) == s;
  }

  /** Twice the ring's capacity is enough buffers exactly when the ring has more than two slots. */
  lemma PoolSizingIff(ringCap: nat, size: nat)
    ensures (forall run :: NoWaste(ringCap, size, run)) <==> ringCap >= 3
  {
    if ringCap >= 3 {
      InitInv(ringCap, size);
      forall run ensures NoWaste(ringCap, size, run) {
        ExecSized(Init(ringCap, size), run);
      }
    } else if ringCap == 2 {
      var run := TwoSlotsMiss(size);
    } else if ringCap == 1 {
      var run := OneSlotMisses(size);
    } else {
      var run := NoSlotMisses(size);
    }
  }
}
