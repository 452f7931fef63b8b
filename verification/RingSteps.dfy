/**
 The lock-free bounded ring at the granularity of single atomic accesses.

 One producer runs `Push`; any number of claimants run `pop`, among them the producer itself
 when it evicts.  Every load, store and compare-and-swap is one step, and a run is an arbitrary
 list of actions, so every interleaving is covered.  Atomics are sequentially consistent and
 cursors are unbounded.  Besides the shared memory and the program counters the state carries
 history: every published value, who won each position, and what each completed `pop` returned.
 */
module RingSteps {
  import opened Wrappers

  datatype Policy = Reject | DropOldest

  /** Whoever runs `pop`: the evicting producer, or a claimant (consumer, drain). */
  datatype Who = Producer | Claimant(id: nat)

  /** One slot: its sequence stamp and its value (`None` is the zero value). */
  datatype Slot<T> = Slot(stamp: nat, val: Option<T>)

  /** Where a thread stands inside `pop`; the names say which access comes next. */
  datatype PopPc<T> =
    | LoadHead
    | LoadStamp(h: nat)
    | Cas(h: nat)
    | ReadVal(h: nat)
    | ClearVal(h: nat, v: Option<T>)
    | Release(h: nat, v: Option<T>)
  {
    /** The CAS was won and the slot has not been given back. */
    predicate Holding() {
      ReadVal? || ClearVal? || Release?
    }
  }

  /** Where the producer stands inside `Push(v)`. */
  datatype ProdPc<T> =
    | Idle
    | LoadTail(v: T)
    | Check(v: T, t: nat)
    | Write(v: T, t: nat)
    | Publish(v: T, t: nat)
    | Advance(v: T, t: nat)
    | Evict(v: T, pop: PopPc<T>)
    | Count(v: T)

  /** A completed, successful `pop`: the position it won and the value it returned. */
  datatype Claim<T> = Claim(pos: nat, val: Option<T>)

  datatype State<T> = State(
    cap: nat,
    policy: Policy,
    slots: seq<Slot<T>>,
    tail: nat,
    head: nat,
    dropped: nat,
    prod: ProdPc<T>,
    pops: map<nat, PopPc<T>>,
    pushed: seq<T>,                    // history: published values, in order
    owner: seq<Who>,                   // history: who won each position below head
    log: map<Who, seq<Claim<T>>>,      // history: completed pops of each thread
    mark: nat)                         // history: evictions logged before the current Push

  /** `StartPush` and `StartPop` enter a call; the other two perform one step of it. */
  datatype Action<T> = StartPush(v: T) | ProdStep | StartPop(id: nat) | PopStep(id: nat)

  /** What a step means for the atomic queue. */
  datatype Event<T> = Tau | Enq(v: T) | Deq(who: Who, got: Option<T>) | SawEmpty(who: Who)

  predicate WF<T>(s: State<T>) {
    s.cap >= 1 && |s.slots| == s.cap
  }

  function Init<T>(cap: nat, policy: Policy): (s: State<T>)
    requires cap >= 1
    ensures WF(s)
  {
    State(cap, policy, seq(cap, i requires i >= 0 => Slot(i, None)), 0, 0, 0, Idle, map[], [], [], map[], 0)
  }

  /** The slot of a position: `p & mask`, that is `p % cap`, by repeated subtraction. */
  function SlotIndex(p: nat, cap: nat): (i: nat)
    requires cap >= 1
    ensures i < cap
  {
    if p < cap then p else SlotIndex(p - cap, cap)
  }

  function At<T>(s: State<T>, p: nat): Slot<T>
    requires WF(s)
  {
    s.slots[SlotIndex(p, s.cap)]
  }

  function SetSlot<T>(s: State<T>, p: nat, sl: Slot<T>): (r: State<T>)
    requires WF(s)
    ensures WF(r)
  {
    s.(slots := s.slots[SlotIndex(p, s.cap) := sl])
  }

  function PopOf<T>(s: State<T>, w: Who): Option<PopPc<T>> {
    match w
    case Producer => if s.prod.Evict? then Some(s.prod.pop) else None
    case Claimant(i) => if i in s.pops then Some(s.pops[i]) else None
  }

  function SetPop<T>(s: State<T>, w: Who, pc: PopPc<T>): State<T>
    requires w.Producer? ==> s.prod.Evict?
  {
    match w
    case Producer => s.(prod := Evict(s.prod.v, pc))
    case Claimant(i) => s.(pops := s.pops[i := pc])
  }

  function Log<T>(s: State<T>, w: Who): seq<Claim<T>> {
    if w in s.log then s.log[w] else []
  }

  /** `pop` returns: `None` reports an empty ring, `Some` a claim. */
  function Return<T>(s: State<T>, w: Who, c: Option<Claim<T>>): State<T>
    requires w.Producer? ==> s.prod.Evict?
  {
    var s1 := if c.Some? then s.(log := s.log[w := Log(s, w) + [c.value]]) else s;
    match w
    case Producer => s1.(prod := if c.Some? then Count(s.prod.v) else LoadTail(s.prod.v))
    case Claimant(i) => s1.(pops := s1.pops - {i})
  }

  /** One step of thread `w` inside `pop`. */
  function PopNext<T>(s: State<T>, w: Who): (r: State<T>)
    requires WF(s) && PopOf(s, w).Some?
    ensures WF(r)
  {
    match PopOf(s, w).value
    case LoadHead => SetPop(s, w, LoadStamp(s.head))
    case LoadStamp(h) =>
      var stamp := At(s, h).stamp;
      if stamp < h + 1 then Return(s, w, None)
      else if stamp > h + 1 then SetPop(s, w, LoadHead)
      else SetPop(s, w, Cas(h))
    case Cas(h) =>
      if s.head == h
      then SetPop(s, w, ReadVal(h)).(head := h + 1, owner := s.owner + [w])
      else SetPop(s, w, LoadHead)
    case ReadVal(h) => SetPop(s, w, ClearVal(h, At(s, h).val))
    case ClearVal(h, v) => SetSlot(SetPop(s, w, Release(h, v)), h, At(s, h).(val := None))
    case Release(h, v) => Return(SetSlot(s, h, At(s, h).(stamp := h + s.cap)), w, Some(Claim(h, v)))
  }

  /** One step of the producer inside `Push`. */
  function ProdNext<T>(s: State<T>): (r: State<T>)
    requires WF(s) && !s.prod.Idle?
    ensures WF(r)
  {
    match s.prod
    case LoadTail(v) => s.(prod := Check(v, s.tail))
    case Check(v, t) =>
      if At(s, t).stamp == t then s.(prod := Write(v, t))
      else if s.policy.Reject? then s.(prod := Idle)
      else s.(prod := Evict(v, LoadHead))
    case Write(v, t) => SetSlot(s, t, At(s, t).(val := Some(v))).(prod := Publish(v, t))
    case Publish(v, t) =>
      SetSlot(s, t, At(s, t).(stamp := t + 1)).(prod := Advance(v, t), pushed := s.pushed + [v])
    case Advance(v, t) => s.(tail := t + 1, prod := Idle)
    case Evict(_, _) => PopNext(s, Producer)
    case Count(v) => s.(dropped := s.dropped + 1, prod := LoadTail(v))
  }

  predicate Enabled<T>(s: State<T>, a: Action<T>) {
    match a
    case StartPush(_) => s.prod.Idle?
    case ProdStep => !s.prod.Idle?
    case StartPop(i) => i !in s.pops
    case PopStep(i) => i in s.pops
  }

  /** A disabled action changes nothing, so every list of actions is a run. */
  function Step<T>(s: State<T>, a: Action<T>): (r: State<T>)
    requires WF(s)
    ensures WF(r)
  {
    if !Enabled(s, a) then s else
    match a
    case StartPush(v) => s.(prod := LoadTail(v), mark := |Log(s, Producer)|)
    case ProdStep => ProdNext(s)
    case StartPop(i) => s.(pops := s.pops[i := LoadHead])
    case PopStep(i) => PopNext(s, Claimant(i))
  }

  function Exec<T>(s: State<T>, run: seq<Action<T>>): (r: State<T>)
    requires WF(s)
    ensures WF(r)
    decreases |run|
  {
    if run == [] then s else Exec(Step(s, run[0]), run[1..])
  }

  // ---------------------------------------------------------------------------
  // The atomic FIFO queue that the ring refines

  /** The elements published and not yet claimed. */
  function Queue<T>(s: State<T>): seq<T> {
    if s.head <= |s.pushed| then s.pushed[s.head..] else []
  }

  function PopEvent<T>(s: State<T>, w: Who): Event<T>
    requires WF(s) && PopOf(s, w).Some?
  {
    match PopOf(s, w).value
    case LoadStamp(h) => if At(s, h).stamp < h + 1 then SawEmpty(w) else Tau
    case Cas(h) => if s.head == h then Deq(w, At(s, h).val) else Tau
    case _ => Tau
  }

  function EventOf<T>(s: State<T>, a: Action<T>): Event<T>
    requires WF(s)
  {
    if !Enabled(s, a) then Tau else
    match a
    case ProdStep =>
      if s.prod.Publish? then Enq(s.prod.v)
      else if s.prod.Evict? then PopEvent(s, Producer)
      else Tau
    case PopStep(i) => PopEvent(s, Claimant(i))
    case _ => Tau
  }

  function Events<T>(s: State<T>, run: seq<Action<T>>): seq<Event<T>>
    requires WF(s)
    decreases |run|
  {
    if run == [] then [] else [EventOf(s, run[0])] + Events(Step(s, run[0]), run[1..])
  }

  /** One operation of the atomic queue; `None` when the event is not one it allows. */
  function Atomic<T(==)>(q: seq<T>, e: Event<T>): Option<seq<T>> {
    match e
    case Tau => Some(q)
    case Enq(v) => Some(q + [v])
    case Deq(_, v) => if q != [] && v == Some(q[0]) then Some(q[1..]) else None
    case SawEmpty(_) => if q == [] then Some(q) else None
  }

  function Replay<T(==)>(q: seq<T>, es: seq<Event<T>>): Option<seq<T>>
    decreases |es|
  {
    if es == [] then Some(q) else
    var r := Atomic(q, es[0]);
    if r.None? then None else Replay(r.value, es[1..])
  }

  // ---------------------------------------------------------------------------
  // The invariant

  ghost predicate Held<T>(s: State<T>, w: Who, h: int) {
    PopOf(s, w).Some? && PopOf(s, w).value.Holding() && PopOf(s, w).value.h == h
  }

  ghost predicate InFlight<T>(s: State<T>, p: int) {
    0 <= p < |s.owner| && Held(s, s.owner[p], p)
  }

  ghost predicate Logged<T>(s: State<T>, w: Who, p: nat) {
    exists i :: 0 <= i < |Log(s, w)| && Log(s, w)[i].pos == p
  }

  /** Position `p` of the coming lap and position `p - cap` of the lap before share this slot. */
  ghost predicate SlotOk<T>(s: State<T>, p: nat)
    requires WF(s) && p < |s.pushed| + s.cap
  {
    var q := p - s.cap;
    if q >= s.head then At(s, p) == Slot(q + 1, Some(s.pushed[q]))
    else if InFlight(s, q) then
      && At(s, p).stamp == q + 1
      && (!PopOf(s, s.owner[q]).value.Release? ==> q < |s.pushed| && At(s, p).val == Some(s.pushed[q]))
    else At(s, p).stamp == p
  }

  ghost predicate SlotsOk<T>(s: State<T>)
    requires WF(s)
  {
    forall p :: |s.pushed| <= p < |s.pushed| + s.cap ==> SlotOk(s, p)
  }

  ghost predicate Cursors<T>(s: State<T>) {
    && s.cap >= 2
    && s.head <= |s.pushed| <= s.head + s.cap
    && |s.owner| == s.head
    && |s.pushed| == s.tail + (if s.prod.Advance? then 1 else 0)
  }

  /** Nobody is left on the slot the producer writes next. */
  ghost predicate Free<T>(s: State<T>) {
    |s.pushed| - s.cap < s.head && !InFlight(s, |s.pushed| - s.cap)
  }

  ghost predicate ProdOk<T>(s: State<T>)
    requires WF(s)
  {
    match s.prod
    case Check(_, t) => t == s.tail
    case Write(_, t) => t == s.tail && Free(s)
    case Publish(v, t) => t == s.tail && Free(s) && At(s, t).val == Some(v)
    case Advance(v, t) => t == s.tail && t < |s.pushed| && s.pushed[t] == v
    case Evict(_, _) => s.policy.DropOldest?
    case Count(_) => s.policy.DropOldest?
    case _ => true
  }

  ghost predicate PopOk<T>(s: State<T>, w: Who) {
    PopOf(s, w).Some? ==>
      match PopOf(s, w).value
      case LoadHead => true
      case LoadStamp(h) => h <= s.head
      case Cas(h) => h <= s.head && h < |s.pushed|
      case ReadVal(h) => HoldOk(s, w, h)
      case ClearVal(h, v) => HoldOk(s, w, h) && v == Some(s.pushed[h])
      case Release(h, v) => HoldOk(s, w, h) && v == Some(s.pushed[h])
  }

  ghost predicate HoldOk<T>(s: State<T>, w: Who, h: nat) {
    && h < |s.owner| && s.owner[h] == w
    && h < |s.pushed| <= h + s.cap
    && forall i :: 0 <= i < |Log(s, w)| ==> Log(s, w)[i].pos < h
  }

  /** What `w` was given: positions it won, in increasing order, with the values pushed there. */
  ghost predicate LogOk<T>(s: State<T>, w: Who) {
    var l := Log(s, w);
    && (forall i :: 0 <= i < |l| ==>
          l[i].pos < |s.owner| && l[i].pos < |s.pushed| && s.owner[l[i].pos] == w && l[i].val == Some(s.pushed[l[i].pos]))
    && (forall i, j :: 0 <= i < j < |l| ==> l[i].pos < l[j].pos)
  }

  /** No claimed position is lost. */
  ghost predicate Covered<T>(s: State<T>) {
    forall p :: 0 <= p < |s.owner| ==> InFlight(s, p) || Logged(s, s.owner[p], p)
  }

  ghost predicate HistoryOk<T>(s: State<T>) {
    (forall w :: PopOk(s, w)) && (forall w :: LogOk(s, w)) && Covered(s)
  }

  ghost predicate CountOk<T>(s: State<T>) {
    s.dropped + (if s.prod.Count? then 1 else 0) == |Log(s, Producer)|
  }

  /** The evictions that the current Push has completed. */
  function Evicted<T>(s: State<T>): seq<Claim<T>> {
    if s.mark <= |Log(s, Producer)| then Log(s, Producer)[s.mark..] else []
  }

  /** Evictions of one Push stay within the last lap, and evicting `tail - cap` is the last one. */
  ghost predicate EvictOk<T>(s: State<T>) {
    && s.mark <= |Log(s, Producer)|
    && (!s.prod.Idle? ==>
      && (forall i :: 0 <= i < |Evicted(s)| ==> s.tail - s.cap <= Evicted(s)[i].pos < s.tail)
      && (|Evicted(s)| >= 1 && Evicted(s)[0].pos == s.tail - s.cap ==> |Evicted(s)| == 1 && !s.prod.Evict?))
  }

  ghost predicate Inv<T>(s: State<T>) {
    && WF(s)
    && Cursors(s)
    && SlotsOk(s)
    && ProdOk(s)
    && HistoryOk(s)
    && CountOk(s)
    && EvictOk(s)
  }
}
