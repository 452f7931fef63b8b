/** What the ring promises, over every run of `RingSteps`. */
module RingTheorems {
  import opened Wrappers
  import opened RingSteps
  import opened RingInvariant

  // ---------------------------------------------------------------------------
  // Refinement of the atomic FIFO queue

  lemma PopRefines<T>(s: State<T>, w: Who)
    requires Inv(s) && PopOf(s, w).Some?
    ensures Atomic(Queue(s), PopEvent(s, w)) == Some(Queue(PopNext(s, w)))
  {
    assert PopOk(s, w);
    match PopOf(s, w).value
    case LoadStamp(h) => StampAtHead(s, h);
    case Cas(h) => StampAtHead(s, h); CasRefines(s, w, h);
    case _ => PopQuiet(s, w);
  }

  lemma CasRefines<T>(s: State<T>, w: Who, h: nat)
    requires WF(s) && PopOf(s, w) == Some(Cas(h)) && h < |s.pushed|
    requires h == s.head ==> At(s, h).val == Some(s.pushed[h])
    ensures Atomic(Queue(s), PopEvent(s, w)) == Some(Queue(PopNext(s, w)))
  {
  }

  lemma PopQuiet<T>(s: State<T>, w: Who)
    requires WF(s) && PopOf(s, w).Some? && !PopOf(s, w).value.LoadStamp? && !PopOf(s, w).value.Cas?
    ensures Queue(PopNext(s, w)) == Queue(s) && PopEvent(s, w).Tau?
  {
  }

  /** The step ends a `pop` of `w` that has nothing to show for it. */
  ghost predicate ReportsEmpty<T>(s: State<T>, s': State<T>, w: Who) {
    PopOf(s, w).Some? && PopOf(s', w).None? && |Log(s', w)| == |Log(s, w)|
  }

  /** What an onlooker sees of a step of `w`: an element appears, one is claimed, or a `pop` comes back empty. */
  ghost function Observed<T>(s: State<T>, s': State<T>, w: Who): Event<T>
    requires WF(s)
  {
    if |s'.pushed| > |s.pushed| then Enq(s'.pushed[|s.pushed|])
    else if |s'.owner| > |s.owner| then Deq(s'.owner[|s.owner|], At(s, s.head).val)
    else if ReportsEmpty(s, s', w) then SawEmpty(w)
    else Tau
  }

  function Actor<T>(a: Action<T>): Who {
    match a
    case PopStep(i) => Claimant(i)
    case StartPop(i) => Claimant(i)
    case _ => Producer
  }

  lemma PopObserved<T>(s: State<T>, w: Who)
    requires WF(s) && |s.owner| == s.head && PopOf(s, w).Some?
    ensures PopEvent(s, w) == Observed(s, PopNext(s, w), w)
  {
    if PopOf(s, w).value.Holding() {
      HolderReports(s, w);
    }
  }

  lemma HolderReports<T>(s: State<T>, w: Who)
    requires WF(s) && PopOf(s, w).Some? && PopOf(s, w).value.Holding()
    ensures Observed(s, PopNext(s, w), w).Tau?
  {
  }

  lemma ProdObserved<T>(s: State<T>)
    requires WF(s) && !s.prod.Idle? && !s.prod.Evict?
    ensures EventOf(s, ProdStep) == Observed(s, ProdNext(s), Producer)
  {
  }

  /** An appearing element is the enqueue, a claim the dequeue, and a `pop` comes back empty from an empty queue. */
  lemma StepRefines<T>(s: State<T>, a: Action<T>)
    requires Inv(s)
    ensures EventOf(s, a) == Observed(s, Step(s, a), Actor(a))
    ensures Atomic(Queue(s), EventOf(s, a)) == Some(Queue(Step(s, a)))
  {
    if Enabled(s, a) {
      match a
      case StartPush(_) =>
      case StartPop(_) =>
      case PopStep(i) =>
        PopObserved(s, Claimant(i));
        PopRefines(s, Claimant(i));
      case ProdStep =>
        if s.prod.Evict? {
          PopObserved(s, Producer);
          PopRefines(s, Producer);
        } else {
          ProdRefines(s);
        }
    }
  }

  lemma ProdRefines<T>(s: State<T>)
    requires Inv(s) && !s.prod.Idle? && !s.prod.Evict?
    ensures EventOf(s, ProdStep) == Observed(s, ProdNext(s), Producer)
    ensures Atomic(Queue(s), EventOf(s, ProdStep)) == Some(Queue(ProdNext(s)))
  {
    ProdObserved(s);
    if s.prod.Publish? {
      assert (s.pushed + [s.prod.v])[s.head..] == s.pushed[s.head..] + [s.prod.v];
    }
  }

  lemma {:induction false} RunRefines<T>(s: State<T>, run: seq<Action<T>>)
    requires Inv(s)
    ensures Replay(Queue(s), Events(s, run)) == Some(Queue(Exec(s, run)))
    decreases |run|
  {
    if run == [] {
    } else {
      StepInv(s, run[0]);
      StepRefines(s, run[0]);
      RunRefines(Step(s, run[0]), run[1..]);
      var es := Events(s, run);
      assert es[0] == EventOf(s, run[0]) && es[1..] == Events(Step(s, run[0]), run[1..]);
    }
  }

  /** What an onlooker sees of a run. */
  ghost function Seen<T>(s: State<T>, run: seq<Action<T>>): seq<Event<T>>
    requires WF(s)
    decreases |run|
  {
    if run == [] then [] else [Observed(s, Step(s, run[0]), Actor(run[0]))] + Seen(Step(s, run[0]), run[1..])
  }

  lemma {:induction false} SeenIsEvents<T>(s: State<T>, run: seq<Action<T>>)
    requires Inv(s)
    ensures Seen(s, run) == Events(s, run)
    decreases |run|
  {
    if run == [] {
    } else {
      StepInv(s, run[0]);
      StepRefines(s, run[0]);
      SeenIsEvents(Step(s, run[0]), run[1..]);
    }
  }

  /** The run as seen, replayed on an atomic FIFO queue, is allowed and ends with the ring's contents. */
  ghost predicate Refines<T>(cap: nat, policy: Policy, run: seq<Action<T>>)
    requires cap >= 1
  {
    Replay([], Seen(Init<T>(cap, policy), run)) == Some(Queue(Exec(Init<T>(cap, policy), run)))
  }

  /** Every interleaving, replayed on an atomic queue, is one that the queue allows. */
  lemma RingRefinesQueue<T>(cap: nat, policy: Policy, run: seq<Action<T>>)
    requires cap >= 2
    ensures Refines(cap, policy, run)
  {
    InitInv<T>(cap, policy);
    RunRefines(Init<T>(cap, policy), run);
    SeenIsEvents(Init<T>(cap, policy), run);
  }

  // ---------------------------------------------------------------------------
  // What a `pop` reports

  /** Over every run, a `pop` that returns empty-handed, evicting or not, did so while the queue was empty. */
  lemma EmptyMeansEmpty<T>(cap: nat, policy: Policy, run: seq<Action<T>>, a: Action<T>, w: Who)
    requires cap >= 2
    ensures var s := Exec(Init<T>(cap, policy), run); ReportsEmpty(s, Step(s, a), w) ==> Queue(s) == []
  {
    InitInv<T>(cap, policy);
    ExecInv(Init<T>(cap, policy), run);
    var s := Exec(Init<T>(cap, policy), run);
    if ReportsEmpty(s, Step(s, a), w) {
      MovesItself(s, a, w);
      PopEndsEmpty(s, w);
    }
  }

  /** Only a thread's own step takes it out of `pop`. */
  lemma MovesItself<T>(s: State<T>, a: Action<T>, w: Who)
    requires WF(s) && PopOf(s, w).Some? && PopOf(Step(s, a), w).None?
    ensures Step(s, a) == PopNext(s, w)
  {
    if a.PopStep? && Enabled(s, a) && w != Claimant(a.id) {
      StaysInPop(s, Claimant(a.id), w);
    } else if a.ProdStep? && w.Claimant? {
      ProducerLeavesPops(s);
    }
  }

  lemma StaysInPop<T>(s: State<T>, x: Who, w: Who)
    requires WF(s) && x != w && PopOf(s, x).Some?
    ensures PopOf(PopNext(s, x), w) == PopOf(s, w)
  {
  }

  lemma ProducerLeavesPops<T>(s: State<T>)
    requires WF(s)
    ensures Step(s, ProdStep).pops == s.pops
  {
  }

  lemma PopEndsEmpty<T>(s: State<T>, w: Who)
    requires Inv(s) && PopOf(s, w).Some? && ReportsEmpty(s, PopNext(s, w), w)
    ensures Queue(s) == []
  {
    assert PopOk(s, w);
    match PopOf(s, w).value
    case LoadStamp(h) => StampAtHead(s, h);
    case _ =>
  }

  /** `n` steps of claimant `i` and of nobody else. */
  function Alone<T>(i: nat, n: nat): seq<Action<T>> {
    seq(n, _ => PopStep(i))
  }

  /** How many steps a `pop` needs when left alone. */
  function AloneLeft<T>(pc: PopPc<T>, head: nat): nat {
    match pc
    case LoadHead => 6
    case LoadStamp(h) => if h == head then 5 else 8
    case Cas(h) => if h == head then 4 else 7
    case ReadVal(_) => 3
    case ClearVal(_, _) => 2
    case Release(_, _) => 1
  }

  /** What claimant `i` is given when left alone: the element it holds, else the oldest one, if any. */
  function Due<T>(s: State<T>, i: nat): seq<Claim<T>>
    requires Inv(s) && i in s.pops
  {
    assert PopOk(s, Claimant(i));
    if s.pops[i].Holding() then [Claim(s.pops[i].h, Some(s.pushed[s.pops[i].h]))]
    else if Queue(s) == [] then []
    else [Claim(s.head, Some(Queue(s)[0]))]
  }

  /** What is left in the queue then. */
  function Remaining<T>(s: State<T>, i: nat): seq<T>
    requires i in s.pops
  {
    if s.pops[i].Holding() || Queue(s) == [] then Queue(s) else Queue(s)[1..]
  }

  /**
   Over every run, a claimant left alone at any point of `pop` returns within eight steps of its own,
   with the element it has won or else the oldest one, and empty-handed only if there is none.
   */
  lemma LeftAlonePopReturns<T>(cap: nat, policy: Policy, run: seq<Action<T>>, i: nat)
    requires cap >= 2
    ensures Inv(Exec(Init<T>(cap, policy), run))
    ensures var s := Exec(Init<T>(cap, policy), run); var s' := Exec(s, Alone(i, 8));
      i in s.pops ==> Returned(s, s', i)
  {
    InitInv<T>(cap, policy);
    ExecInv(Init<T>(cap, policy), run);
    var s := Exec(Init<T>(cap, policy), run);
    if i in s.pops {
      AloneReturns(s, i, 8);
    }
  }

  /** The `pop` of claimant `i` that stood in `s` is over, and `i` has got what was due. */
  ghost predicate Returned<T>(s: State<T>, s': State<T>, i: nat)
    requires Inv(s) && i in s.pops
  {
    i !in s'.pops && Log(s', Claimant(i)) == Log(s, Claimant(i)) + Due(s, i) && Queue(s') == Remaining(s, i)
  }

  lemma {:induction false} AloneReturns<T>(s: State<T>, i: nat, n: nat)
    requires Inv(s) && i in s.pops && AloneLeft(s.pops[i], s.head) <= n
    ensures Returned(s, Exec(s, Alone(i, n)), i)
    decreases n
  {
    if n == 0 {
      assert false;
    } else {
      var s' := Step(s, PopStep(i));
      StepInv(s, PopStep(i));
      AloneStep(s, i);
      FirstAlone(s, i, n);
      if i in s'.pops {
        AloneReturns(s', i, n - 1);
      } else {
        NothingLeft(s', i, n - 1);
      }
    }
  }

  lemma FirstAlone<T>(s: State<T>, i: nat, n: nat)
    requires WF(s) && n > 0
    ensures Exec(s, Alone(i, n)) == Exec(Step(s, PopStep(i)), Alone(i, n - 1))
  {
    assert Alone<T>(i, n)[1..] == Alone(i, n - 1);
  }

  lemma {:induction false} NothingLeft<T>(s: State<T>, i: nat, n: nat)
    requires WF(s) && i !in s.pops
    ensures Exec(s, Alone(i, n)) == s
    decreases n
  {
    if n == 0 {
    } else {
      FirstAlone(s, i, n);
      NothingLeft(s, i, n - 1);
    }
  }

  /** What one step alone achieves: what is due stays due, until it is handed over. */
  ghost predicate Progress<T>(s: State<T>, s': State<T>, i: nat)
    requires Inv(s) && i in s.pops && Inv(s')
  {
    if i in s'.pops then
      && AloneLeft(s'.pops[i], s'.head) < AloneLeft(s.pops[i], s.head)
      && Log(s', Claimant(i)) == Log(s, Claimant(i)) && Due(s', i) == Due(s, i) && Remaining(s', i) == Remaining(s, i)
    else Log(s', Claimant(i)) == Log(s, Claimant(i)) + Due(s, i) && Queue(s') == Remaining(s, i)
  }

  lemma AloneStep<T>(s: State<T>, i: nat)
    requires Inv(s) && i in s.pops && Inv(Step(s, PopStep(i)))
    ensures Progress(s, Step(s, PopStep(i)), i)
  {
    assert PopOk(s, Claimant(i));
    match s.pops[i]
    case LoadHead => AloneLoads(s, i);
    case LoadStamp(h) => StampAtHead(s, h); AloneLooks(s, i, h);
    case Cas(h) => AloneClaims(s, i, h);
    case _ => AloneHolds(s, i);
  }

  lemma AloneLoads<T>(s: State<T>, i: nat)
    requires Inv(s) && i in s.pops && s.pops[i].LoadHead? && Inv(PopNext(s, Claimant(i)))
    ensures Progress(s, PopNext(s, Claimant(i)), i)
  {
  }

  lemma AloneLooks<T>(s: State<T>, i: nat, h: nat)
    requires Inv(s) && i in s.pops && s.pops[i] == LoadStamp(h) && Inv(PopNext(s, Claimant(i))) && h <= s.head
    requires h == s.head ==> if h < |s.pushed| then At(s, h).stamp == h + 1 else At(s, h).stamp < h + 1
    requires h < s.head ==> At(s, h).stamp >= h + 1
    ensures Progress(s, PopNext(s, Claimant(i)), i)
  {
  }

  lemma AloneClaims<T>(s: State<T>, i: nat, h: nat)
    requires Inv(s) && i in s.pops && s.pops[i] == Cas(h) && h < |s.pushed| && Inv(PopNext(s, Claimant(i)))
    ensures Progress(s, PopNext(s, Claimant(i)), i)
  {
  }

  lemma AloneHolds<T>(s: State<T>, i: nat)
    requires Inv(s) && i in s.pops && s.pops[i].Holding() && Inv(PopNext(s, Claimant(i)))
    ensures Progress(s, PopNext(s, Claimant(i)), i)
  {
    assert PopOk(s, Claimant(i));
    HeldSlot(s, Claimant(i), s.pops[i].h);
  }

  // ---------------------------------------------------------------------------
  // Conservation

  /** Position `p` was handed to `w` by a `pop` that has returned, with the value pushed there. */
  ghost predicate Received<T>(s: State<T>, w: Who, p: nat) {
    p < |s.pushed| && Claim(p, Some(s.pushed[p])) in Log(s, w)
  }

  /** Nobody has been given position `p`. */
  ghost predicate Untaken<T>(s: State<T>, p: nat) {
    forall w :: !Held(s, w, p) && !Received(s, w, p)
  }

  /** Exactly one thread has position `p`, either in flight or returned to it, and not both. */
  ghost predicate TakenOnce<T>(s: State<T>, p: nat) {
    exists w :: Held(s, w, p) != Received(s, w, p) && forall x :: x != w ==> !Held(s, x, p) && !Received(s, x, p)
  }

  /**
   Every pushed element is in exactly one place: buffered, in flight with one thread, or returned
   to one thread (the producer's share being the evicted ones); each thread sees increasing
   positions; and `dropped` counts the evictions up to one pending increment.
   */
  lemma RingConserves<T>(cap: nat, policy: Policy, run: seq<Action<T>>)
    requires cap >= 2
    ensures var s := Exec(Init<T>(cap, policy), run);
      && s.head <= |s.pushed| && Queue(s) == s.pushed[s.head..] && |Queue(s)| <= cap
      && (forall p: nat :: p < |s.pushed| ==> if p < s.head then TakenOnce(s, p) else Untaken(s, p))
      && (forall w, i, j :: 0 <= i < j < |Log(s, w)| ==> Log(s, w)[i].pos < Log(s, w)[j].pos)
      && s.dropped + (if s.prod.Count? then 1 else 0) == |Log(s, Producer)|
  {
    InitInv<T>(cap, policy);
    ExecInv(Init<T>(cap, policy), run);
    CapKept(Init<T>(cap, policy), run);
    var s := Exec(Init<T>(cap, policy), run);
    forall p: nat | p < |s.pushed| ensures if p < s.head then TakenOnce(s, p) else Untaken(s, p) {
      Placed(s, p);
    }
    forall w, i, j | 0 <= i < j < |Log(s, w)| ensures Log(s, w)[i].pos < Log(s, w)[j].pos {
      assert LogOk(s, w);
    }
  }

  lemma Placed<T>(s: State<T>, p: nat)
    requires Inv(s)
    ensures if p < s.head then TakenOnce(s, p) else Untaken(s, p)
  {
    forall w ensures Held(s, w, p) || Received(s, w, p) ==> p < s.head && s.owner[p] == w {
      OnlyOwner(s, w, p);
    }
    if p < s.head {
      OwnerHasIt(s, p);
    }
  }

  lemma OnlyOwner<T>(s: State<T>, w: Who, p: nat)
    requires Inv(s)
    ensures Held(s, w, p) || Received(s, w, p) ==> p < s.head && s.owner[p] == w
  {
    assert PopOk(s, w);
    assert LogOk(s, w);
  }

  lemma OwnerHasIt<T>(s: State<T>, p: nat)
    requires Inv(s) && p < s.head
    ensures Held(s, s.owner[p], p) != Received(s, s.owner[p], p)
  {
    var w := s.owner[p];
    assert PopOk(s, w);
    assert LogOk(s, w);
    assert InFlight(s, p) || Logged(s, w, p);
    if !InFlight(s, p) {
      var i :| 0 <= i < |Log(s, w)| && Log(s, w)[i].pos == p;
      assert Log(s, w)[i] == Claim(p, Some(s.pushed[p]));
    }
  }

  /** What a holder will return is settled when it wins: nobody rewrites the slot before its release. */
  lemma HolderReadsItsElement<T>(cap: nat, policy: Policy, run: seq<Action<T>>, w: Who, h: nat)
    requires cap >= 2
    ensures var s := Exec(Init<T>(cap, policy), run);
      Held(s, w, h) ==>
        && h < |s.pushed|
        && (PopOf(s, w).value.ReadVal? ==> At(s, h).val == Some(s.pushed[h]))
        && (!PopOf(s, w).value.ReadVal? ==> PopOf(s, w).value.v == Some(s.pushed[h]))
        && |s.pushed| <= h + cap
  {
    InitInv<T>(cap, policy);
    ExecInv(Init<T>(cap, policy), run);
    var s := Exec(Init<T>(cap, policy), run);
    CapKept(Init<T>(cap, policy), run);
    if Held(s, w, h) {
      HeldSlot(s, w, h);
      assert PopOk(s, w);
    }
  }

  lemma CapStays<T>(s: State<T>, a: Action<T>)
    requires WF(s)
    ensures Step(s, a).cap == s.cap && Step(s, a).policy == s.policy
  {
  }

  lemma {:induction false} CapKept<T>(s: State<T>, run: seq<Action<T>>)
    requires WF(s)
    ensures Exec(s, run).cap == s.cap && Exec(s, run).policy == s.policy
    decreases |run|
  {
    if run == [] {
    } else {
      CapStays(s, run[0]);
      CapKept(Step(s, run[0]), run[1..]);
    }
  }

  // ---------------------------------------------------------------------------
  // Retries, refusals and evictions

  /** `w` is about to go round the loop of `pop` again with the head value `h`. */
  ghost predicate Retries<T>(s: State<T>, w: Who, h: nat)
    requires WF(s)
  {
    PopOf(s, w).Some? &&
    match PopOf(s, w).value
    case LoadStamp(g) => g == h && At(s, h).stamp > h + 1
    case Cas(g) => g == h && s.head != h
    case _ => false
  }

  ghost predicate Sound<T>(s: State<T>)
    requires WF(s)
  {
    |Queue(s)| <= s.cap && forall w, h: nat :: Retries(s, w, h) ==> s.head > h
  }

  lemma InvSound<T>(s: State<T>)
    requires Inv(s)
    ensures Sound(s)
  {
    forall w, h: nat | Retries(s, w, h) ensures s.head > h {
      assert PopOk(s, w);
      StampAtHead(s, h);
    }
  }

  /** Under Reject, a Push that is refused found the element of the last lap still on its slot. */
  lemma RefusalMeansOccupied<T>(s: State<T>)
    requires Inv(s) && s.prod.Check? && s.policy.Reject?
    ensures ProdNext(s).prod.Idle? <==> |Queue(s)| == s.cap || InFlight(s, s.tail - s.cap)
  {
    assert SlotOk(s, s.tail);
  }

  lemma {:induction false} IncreasingFits(ps: seq<int>, lo: int, hi: int)
    requires forall i, j :: 0 <= i < j < |ps| ==> ps[i] < ps[j]
    requires forall i :: 0 <= i < |ps| ==> lo < ps[i] < hi
    ensures |ps| <= (if hi > lo then hi - lo - 1 else 0)
  {
    if |ps| == 0 {
    } else {
      IncreasingFits(ps[1..], ps[0], hi);
    }
  }

  /** The step ends a Push. */
  predicate EndsPush<T>(s: State<T>, s': State<T>) {
    !s.prod.Idle? && s'.prod.Idle?
  }

  /**
   Over every run, a Push that ends has published its element as the newest one and announced it,
   except under Reject when the element of the last lap was still on its slot.
   */
  lemma PushEndsPublished<T>(cap: nat, policy: Policy, run: seq<Action<T>>, a: Action<T>)
    requires cap >= 2
    ensures var s := Exec(Init<T>(cap, policy), run);
      EndsPush(s, Step(s, a)) ==> Announced(s, Step(s, a)) || Refused(s, Step(s, a))
  {
    InitInv<T>(cap, policy);
    ExecInv(Init<T>(cap, policy), run);
    var s := Exec(Init<T>(cap, policy), run);
    if EndsPush(s, Step(s, a)) {
      ProducerEnds(s, a);
      if s.prod.Check? { RefusalMeansOccupied(s); }
    }
  }

  /** The element of the Push in `s` is the newest one published, and the tail is past it. */
  ghost predicate Announced<T>(s: State<T>, s': State<T>)
    requires !s.prod.Idle?
  {
    s'.tail == |s.pushed| == |s'.pushed| >= 1 && s.pushed[|s.pushed| - 1] == s.prod.v
  }

  ghost predicate Refused<T>(s: State<T>, s': State<T>) {
    s.policy.Reject? && (|Queue(s)| == s.cap || InFlight(s, s.tail - s.cap)) && s' == s.(prod := Idle)
  }

  lemma ProducerEnds<T>(s: State<T>, a: Action<T>)
    requires Inv(s) && EndsPush(s, Step(s, a))
    ensures Step(s, a) == ProdNext(s)
    ensures Announced(s, Step(s, a)) || (s.prod.Check? && s.policy.Reject? && Step(s, a) == s.(prod := Idle))
  {
    if a.StartPush? || a.StartPop? || a.PopStep? {
      ClaimantStep(s, a);
    } else if s.prod.Evict? {
      EvictionGoesOn(s);
    }
  }

  /** One Push evicts at most `cap - 1` elements, and exactly one when it evicts `tail - cap` itself. */
  lemma PushEvictsAtMost<T>(cap: nat, policy: Policy, run: seq<Action<T>>)
    requires cap >= 2
    ensures var s := Exec(Init<T>(cap, policy), run);
      !s.prod.Idle? ==>
        && |Evicted(s)| <= cap - 1
        && ((exists i :: 0 <= i < |Evicted(s)| && Evicted(s)[i].pos == s.tail - cap) ==> |Evicted(s)| == 1)
  {
    InitInv<T>(cap, policy);
    ExecInv(Init<T>(cap, policy), run);
    CapKept(Init<T>(cap, policy), run);
    var s := Exec(Init<T>(cap, policy), run);
    assert LogOk(s, Producer);
    if !s.prod.Idle? {
      EvictionsFit(s);
    }
  }

  lemma EvictionsFit<T>(s: State<T>)
    requires s.cap >= 2 && LogOk(s, Producer) && EvictOk(s) && !s.prod.Idle?
    ensures |Evicted(s)| <= s.cap - 1
    ensures (exists i :: 0 <= i < |Evicted(s)| && Evicted(s)[i].pos == s.tail - s.cap) ==> |Evicted(s)| == 1
  {
    var e := Evicted(s);
    assert forall i :: 0 <= i < |e| ==> e[i] == Log(s, Producer)[s.mark + i];
    if |e| >= 1 && e[0].pos != s.tail - s.cap {
      IncreasingFits(seq(|e|, i requires 0 <= i < |e| => e[i].pos), s.tail - s.cap, s.tail);
    }
  }

  /** The last lap's element has left the slot of the Push in progress, or the producer holds it itself. */
  ghost predicate Freed<T>(s: State<T>) {
    !s.prod.Idle? && (s.prod.Advance? || Free(s) || OwnVictim(s))
  }

  ghost predicate OwnVictim<T>(s: State<T>) {
    |s.pushed| >= s.cap && Held(s, Producer, |s.pushed| - s.cap)
  }

  /** A producer step inside an eviction; `q` elements are buffered, and a stale `h` costs one round more. */
  function PopLeft<T>(pc: PopPc<T>, q: nat, head: nat): nat {
    match pc
    case LoadHead => 12 + 3 * q
    case LoadStamp(h) => (if h == head then 11 else 14) + 3 * q
    case Cas(h) => (if h == head then 10 else 13) + 3 * q
    case ReadVal(_) => 9
    case ClearVal(_, _) => 8
    case Release(_, _) => 7
  }

  /** How many own steps a Push can still need once its slot is free. */
  function StepsLeft<T>(s: State<T>): nat {
    match s.prod
    case Idle => 0
    case Evict(_, pop) => PopLeft(pop, |Queue(s)|, s.head)
    case Count(_) => 6
    case LoadTail(_) => 5
    case Check(_, _) => 4
    case Write(_, _) => 3
    case Publish(_, _) => 2
    case Advance(_, _) => 1
  }

  /** Nobody takes a position below `head`. */
  lemma NotRetaken<T>(s: State<T>, w: Who, p: int)
    requires WF(s) && PopOf(s, w).Some? && PopOk(s, w) && p < s.head == |s.owner| && !InFlight(s, p)
    ensures !InFlight(PopNext(s, w), p)
  {
    if 0 <= p {
      var s', x := PopNext(s, w), s.owner[p];
      assert s'.owner[p] == x;
      if x != w {
        assert PopOf(s', x) == PopOf(s, x);
      }
    }
  }

  /** A step inside `pop` publishes nothing. */
  lemma PopPublishesNothing<T>(s: State<T>, w: Who)
    requires WF(s) && PopOf(s, w).Some?
    ensures var s' := PopNext(s, w); s'.pushed == s.pushed && s'.cap == s.cap && s.head <= s'.head
  {
  }

  lemma FreeStays<T>(s: State<T>, w: Who)
    requires WF(s) && Cursors(s) && Free(s) && PopOf(s, w).Some? && PopOk(s, w)
    ensures Free(PopNext(s, w))
  {
    PopPublishesNothing(s, w);
    NotRetaken(s, w, |s.pushed| - s.cap);
  }

  /** Entering a call takes no position. */
  lemma CallsTakeNothing<T>(s: State<T>, i: nat)
    requires WF(s) && Free(s) && i !in s.pops
    ensures Free(Step(s, StartPop(i)))
  {
  }

  /** A claimant moves neither the producer nor what has been published, and head only forward. */
  lemma ClaimantStep<T>(s: State<T>, a: Action<T>)
    requires WF(s) && !a.ProdStep? && (a.StartPush? ==> !s.prod.Idle?)
    ensures var s' := Step(s, a); s'.prod == s.prod && s'.pushed == s.pushed && s'.cap == s.cap && s.head <= s'.head <= s.head + 1
    ensures Enabled(s, a) ==> a.PopStep? || a.StartPop?
  {
  }

  /** What costs the producer another round costs the queue an element. */
  lemma RoundPaid<T>(pc: PopPc<T>, q: nat, head: nat)
    requires pc.LoadStamp? || pc.Cas? ==> pc.h <= head
    ensures q > 0 ==> PopLeft(pc, q - 1, head + 1) <= PopLeft(pc, q, head)
  {
  }

  lemma OthersDoNotStop<T>(s: State<T>, a: Action<T>)
    requires Inv(s) && Freed(s) && !a.ProdStep?
    ensures var s' := Step(s, a);
      Inv(s') && Freed(s') && s'.prod == s.prod && s'.pushed == s.pushed && StepsLeft(s') <= StepsLeft(s)
  {
    StepInv(s, a);
    ClaimantStep(s, a);
    assert PopOk(s, Producer);
    OthersCostNothing(s, Step(s, a));
    if Free(s) {
      assert a.PopStep? ==> PopOk(s, Claimant(a.id));
      OthersLeaveFree(s, a);
    }
  }

  lemma OthersLeaveFree<T>(s: State<T>, a: Action<T>)
    requires WF(s) && Cursors(s) && Free(s) && !s.prod.Idle? && !a.ProdStep?
    requires a.PopStep? ==> PopOk(s, Claimant(a.id))
    ensures Free(Step(s, a))
  {
    if Enabled(s, a) {
      if a.StartPop? { CallsTakeNothing(s, a.id); } else { FreeStays(s, Claimant(a.id)); }
    }
  }

  lemma OthersCostNothing<T>(s: State<T>, s': State<T>)
    requires Cursors(s) && Cursors(s') && PopOk(s, Producer)
    requires s'.pushed == s.pushed && s'.prod == s.prod && s.head <= s'.head <= s.head + 1
    ensures StepsLeft(s') <= StepsLeft(s)
  {
    if s.prod.Evict? {
      QueueShrinks(s, s');
      RoundPaid(s.prod.pop, |Queue(s)|, s.head);
    }
  }

  lemma QueueShrinks<T>(s: State<T>, s': State<T>)
    requires Cursors(s) && Cursors(s') && s'.pushed == s.pushed && s.head <= s'.head
    ensures |Queue(s')| == |Queue(s)| - (s'.head - s.head)
  {
  }

  /** A producer step inside an eviction brings it closer to its end and keeps the slot free. */
  lemma EvictionAdvances<T>(s: State<T>)
    requires Inv(s) && s.prod.Evict? && Freed(s)
    ensures var s' := ProdNext(s);
      StepsLeft(s') < StepsLeft(s) && Freed(s') && s'.prod.v == s.prod.v && s'.pushed == s.pushed
  {
    assert PopOk(s, Producer);
    EvictionGoesOn(s);
    if Free(s) {
      FreeStays(s, Producer);
    } else {
      OwnVictimLeaves(s);
    }
    match s.prod.pop
    case LoadStamp(h) => StampAtHead(s, h); LoadedStampCounts(s, h);
    case Cas(h) => CasCountsDown(s, h);
    case _ => QuietCountsDown(s);
  }

  lemma EvictionGoesOn<T>(s: State<T>)
    requires WF(s) && s.prod.Evict?
    ensures var s' := ProdNext(s); !s'.prod.Idle? && !s'.prod.Advance? && s'.prod.v == s.prod.v && s'.pushed == s.pushed
  {
  }

  lemma LoadedStampCounts<T>(s: State<T>, h: nat)
    requires WF(s) && s.prod.Evict? && s.prod.pop == LoadStamp(h) && h <= s.head
    requires if h == s.head then At(s, h).stamp <= h + 1 else At(s, h).stamp >= h + 1
    ensures StepsLeft(ProdNext(s)) < StepsLeft(s)
  {
  }

  lemma CasCountsDown<T>(s: State<T>, h: nat)
    requires WF(s) && s.prod.Evict? && s.prod.pop == Cas(h)
    ensures StepsLeft(ProdNext(s)) < StepsLeft(s)
  {
  }

  lemma QuietCountsDown<T>(s: State<T>)
    requires WF(s) && s.prod.Evict? && (s.prod.pop.LoadHead? || s.prod.pop.Holding())
    ensures StepsLeft(ProdNext(s)) < StepsLeft(s)
  {
  }

  /** The producer gives back what it has evicted. */
  lemma OwnVictimLeaves<T>(s: State<T>)
    requires Inv(s) && OwnVictim(s)
    ensures OwnVictim(ProdNext(s)) || Free(ProdNext(s))
  {
    HeldSlot(s, Producer, |s.pushed| - s.cap);
  }

  lemma OwnStepAdvances<T>(s: State<T>)
    requires Inv(s) && Freed(s)
    ensures var s' := Step(s, ProdStep);
      && StepsLeft(s') < StepsLeft(s) && Inv(s')
      && (if s.prod.Advance? then s'.prod.Idle? else Freed(s') && s'.prod.v == s.prod.v)
      && s'.pushed == (if s.prod.Publish? then s.pushed + [s.prod.v] else s.pushed)
      && (s.prod.Publish? <==> s'.prod.Advance?)
  {
    StepInv(s, ProdStep);
    if s.prod.Evict? {
      EvictionAdvances(s);
      EvictionGoesOn(s);
    } else if s.prod.Check? {
      assert SlotOk(s, s.tail);
    }
  }

  function OwnSteps<T(==)>(run: seq<Action<T>>): nat {
    if run == [] then 0 else OwnSteps(run[1..]) + if run[0] == ProdStep then 1 else 0
  }

  /** At least as many producer steps as the Push in `s` can need, among any steps of claimants. */
  ghost predicate FinishingRun<T>(s: State<T>, run: seq<Action<T>>) {
    OwnSteps(run) >= StepsLeft(s) && forall i :: 0 <= i < |run| ==> !run[i].StartPush?
  }

  /** What will have been published once the Push in progress is over: its element, and no other. */
  function Outcome<T>(s: State<T>): seq<T>
    requires !s.prod.Idle?
  {
    if s.prod.Advance? then s.pushed else s.pushed + [s.prod.v]
  }

  /**
   Once the last lap's element has left its slot, a Push completes after a bounded number of its own
   steps wherever it stands, in the middle of an eviction too, however the claimants interleave; the
   element it publishes is the one it was called with.  Outside an eviction six steps are enough.
   */
  lemma FreedPushCompletes<T>(cap: nat, policy: Policy, prefix: seq<Action<T>>, run: seq<Action<T>>)
    requires cap >= 2
    ensures var s := Exec(Init<T>(cap, policy), prefix);
      Freed(s) ==>
        && StepsLeft(s) <= 3 * cap + 14 && (!s.prod.Evict? ==> StepsLeft(s) <= 6)
        && (FinishingRun(s, run) ==> Exec(s, run).prod.Idle? && Exec(s, run).pushed == Outcome(s))
  {
    InitInv<T>(cap, policy);
    ExecInv(Init<T>(cap, policy), prefix);
    CapKept(Init<T>(cap, policy), prefix);
    var s := Exec(Init<T>(cap, policy), prefix);
    assert |Queue(s)| <= cap;
    if Freed(s) && FinishingRun(s, run) {
      PushCompletesFrom(s, run);
    }
  }

  lemma RestFinishes<T>(s: State<T>, s': State<T>, run: seq<Action<T>>)
    requires run != [] && FinishingRun(s, run) && StepsLeft(s') + (if run[0].ProdStep? then 1 else 0) <= StepsLeft(s)
    ensures FinishingRun(s', run[1..])
  {
  }

  /** Any step brings the Push closer to its outcome, or leaves it where it was. */
  lemma CloserToOutcome<T>(s: State<T>, a: Action<T>)
    requires Inv(s) && Freed(s) && !a.StartPush?
    ensures var s' := Step(s, a);
      && Inv(s') && StepsLeft(s') + (if a.ProdStep? then 1 else 0) <= StepsLeft(s)
      && if s'.prod.Idle? then s'.pushed == Outcome(s) else Freed(s') && Outcome(s') == Outcome(s)
  {
    if a.ProdStep? {
      OwnStepAdvances(s);
    } else {
      OthersDoNotStop(s, a);
    }
  }

  lemma {:induction false} PushCompletesFrom<T>(s: State<T>, run: seq<Action<T>>)
    requires Inv(s) && Freed(s) && FinishingRun(s, run)
    ensures Exec(s, run).prod.Idle? && Exec(s, run).pushed == Outcome(s)
    decreases |run|
  {
    if run == [] {
      assert false;
    } else {
      var s' := Step(s, run[0]);
      CloserToOutcome(s, run[0]);
      RestFinishes(s, s', run);
      if s'.prod.Idle? {
        OnlyPops(s', run[1..]);
      } else {
        PushCompletesFrom(s', run[1..]);
      }
    }
  }

  // A producer left alone

  /** A claimant still holds the element of the last lap. */
  ghost predicate Stalled<T>(s: State<T>) {
    exists i: nat :: Held(s, Claimant(i), |s.pushed| - s.cap)
  }

  /** How many steps a producer in front of a full ring takes until it has claimed its victim. */
  function ToVictim<T>(s: State<T>): nat {
    match s.prod
    case Count(_) => 6
    case LoadTail(_) => 5
    case Check(_, _) => 4
    case Evict(_, LoadHead) => 3
    case Evict(_, LoadStamp(h)) => if h == s.head then 2 else 5
    case Evict(_, Cas(h)) => if h == s.head then 1 else 4
    case _ => 0
  }

  /** Not freed although nobody else holds the slot: the ring is full and its oldest element is the victim. */
  lemma BlockedMeansFull<T>(s: State<T>)
    requires Inv(s) && !s.prod.Idle? && !Freed(s) && !Stalled(s)
    ensures s.head == |s.pushed| - s.cap && ToVictim(s) > 0 && !s.prod.Publish?
  {
    if InFlight(s, |s.pushed| - s.cap) {
      SomeoneHolds(s);
    }
    assert PopOk(s, Producer);
  }

  lemma SomeoneHolds<T>(s: State<T>)
    requires InFlight(s, |s.pushed| - s.cap)
    ensures Stalled(s) || OwnVictim(s)
  {
    match s.owner[|s.pushed| - s.cap]
    case Claimant(i) => assert Held(s, Claimant(i), |s.pushed| - s.cap);
    case Producer =>
  }

  lemma BlockedStep<T>(s: State<T>)
    requires Inv(s) && s.policy.DropOldest? && !s.prod.Idle? && !Freed(s) && !Stalled(s)
    ensures var s' := ProdNext(s);
      && !s'.prod.Idle? && Outcome(s') == Outcome(s) && !Stalled(s')
      && if Freed(s') then StepsLeft(s') <= 9 else ToVictim(s') < ToVictim(s)
  {
    BlockedMeansFull(s);
    var s' := ProdNext(s);
    ProducerLeavesPops(s);
    assert PopOk(s, Producer);
    match s.prod
    case Check(_, t) => assert SlotOk(s, t);
    case Evict(_, _) => BlockedEvicts(s);
    case _ =>
  }

  lemma BlockedEvicts<T>(s: State<T>)
    requires Inv(s) && s.prod.Evict? && s.head == |s.pushed| - s.cap && ToVictim(s) > 0
    ensures var s' := ProdNext(s);
      && s'.pushed == s.pushed && s'.cap == s.cap && s'.prod.Evict? && s'.prod.v == s.prod.v
      && if s.prod.pop == Cas(s.head) then OwnVictim(s') && StepsLeft(s') == 9 else ToVictim(s') < ToVictim(s)
  {
    assert PopOk(s, Producer);
    match s.prod.pop
    case LoadStamp(h) => StampAtHead(s, h);
    case _ =>
  }

  /** `n` producer steps and nothing else. */
  function ProducerAlone<T>(n: nat): seq<Action<T>> {
    seq(n, _ => ProdStep)
  }

  lemma {:induction false} AloneEnds<T>(s: State<T>, n: nat)
    requires Inv(s) && s.policy.DropOldest? && !s.prod.Idle? && !Stalled(s)
    requires n >= if Freed(s) then StepsLeft(s) else 9 + ToVictim(s)
    ensures var s' := Exec(s, ProducerAlone(n)); s'.prod.Idle? && s'.pushed == Outcome(s)
    decreases n
  {
    if Freed(s) {
      AllOwn<T>(n);
      PushCompletesFrom(s, ProducerAlone(n));
    } else {
      BlockedMeansFull(s);
      BlockedStep(s);
      StepInv(s, ProdStep);
      CapStays(s, ProdStep);
      assert ProducerAlone<T>(n)[1..] == ProducerAlone(n - 1);
      AloneEnds(Step(s, ProdStep), n - 1);
    }
  }

  lemma {:induction false} AllOwn<T>(n: nat)
    ensures OwnSteps(ProducerAlone<T>(n)) == n
  {
    if n == 0 {
    } else {
      assert ProducerAlone<T>(n)[1..] == ProducerAlone(n - 1);
      AllOwn<T>(n - 1);
    }
  }

  /**
   Over every run, a DropOldest push left alone at any point ends within a bounded number of its own
   steps and has published its element, unless a claimant still holds the element of the last lap: it
   makes room by itself.
   */
  lemma LeftAlonePushEnds<T>(cap: nat, run: seq<Action<T>>, n: nat)
    requires cap >= 2 && n >= 3 * cap + 15
    ensures var s := Exec(Init<T>(cap, DropOldest), run); var s' := Exec(s, ProducerAlone(n));
      !s.prod.Idle? && !Stalled(s) ==> s'.prod.Idle? && s'.pushed == Outcome(s)
  {
    InitInv<T>(cap, DropOldest);
    ExecInv(Init<T>(cap, DropOldest), run);
    CapKept(Init<T>(cap, DropOldest), run);
    var s := Exec(Init<T>(cap, DropOldest), run);
    if !s.prod.Idle? && !Stalled(s) {
      assert |Queue(s)| <= cap;
      AloneEnds(s, n);
    }
  }

  /** Without a new call and without producer steps, an idle producer stays idle. */
  lemma {:induction false} OnlyPops<T>(s: State<T>, run: seq<Action<T>>)
    requires WF(s) && s.prod.Idle? && forall i :: 0 <= i < |run| ==> !run[i].StartPush?
    ensures Exec(s, run).prod.Idle? && Exec(s, run).pushed == s.pushed
    decreases |run|
  {
    if run == [] {
    } else {
      OnlyPops(Step(s, run[0]), run[1..]);
    }
  }

  // ---------------------------------------------------------------------------
  // The length as a snapshot

  /** What `Len` reports from the two cursors it has loaded, one after the other. */
  function Snapshot(tail: nat, head: nat, cap: nat): nat {
    if tail < head then 0 else if tail - head <= cap then tail - head else cap
  }

  lemma {:induction false} HeadGrows<T>(s: State<T>, run: seq<Action<T>>)
    requires WF(s)
    ensures s.head <= Exec(s, run).head
    decreases |run|
  {
    if run == [] {
    } else {
      HeadMoves(s, run[0]);
      HeadGrows(Step(s, run[0]), run[1..]);
    }
  }

  lemma HeadMoves<T>(s: State<T>, a: Action<T>)
    requires WF(s)
    ensures s.head <= Step(s, a).head
  {
    if Enabled(s, a) && a.ProdStep? && s.prod.Evict? {
      PopPublishesNothing(s, Producer);
    } else if Enabled(s, a) && a.PopStep? {
      PopPublishesNothing(s, Claimant(a.id));
    }
  }

  /**
   `Len` with any steps of others between its two loads: the count at the first load, less the
   element still to be announced by the tail, less what was claimed in between, and never negative.
   */
  lemma LenSnapshot<T>(cap: nat, policy: Policy, prefix: seq<Action<T>>, between: seq<Action<T>>)
    requires cap >= 2
    ensures var s := Exec(Init<T>(cap, policy), prefix); var s' := Exec(s, between);
      var gone := s'.head - s.head + if s.prod.Advance? then 1 else 0;
      Snapshot(s.tail, s'.head, cap) == if gone <= |Queue(s)| then |Queue(s)| - gone else 0
  {
    InitInv<T>(cap, policy);
    ExecInv(Init<T>(cap, policy), prefix);
    CapKept(Init<T>(cap, policy), prefix);
    HeadGrows(Exec(Init<T>(cap, policy), prefix), between);
  }

  // ---------------------------------------------------------------------------
  // Capacity one

  lemma {:induction false} ExecSnoc<T>(s: State<T>, run: seq<Action<T>>, a: Action<T>)
    requires WF(s)
    ensures Exec(s, run + [a]) == Step(Exec(s, run), a)
    decreases |run|
  {
    if run == [] {
    } else {
      assert (run + [a])[0] == run[0] && (run + [a])[1..] == run[1..] + [a];
      ExecSnoc(Step(s, run[0]), run[1..], a);
    }
  }

  /** The first three steps of a Push that finds its slot free. */
  lemma PushReachesWrite<T>(i: State<T>, run: seq<Action<T>>, v: T) returns (more: seq<Action<T>>)
    requires WF(i)
    requires var s := Exec(i, run); s.prod.Idle? && At(s, s.tail).stamp == s.tail
    ensures var s, s' := Exec(i, run), Exec(i, more); s' == s.(prod := Write(v, s.tail), mark := |Log(s, Producer)|)
  {
    ExecSnoc(i, run, StartPush(v));
    more := run + [StartPush(v)];
    ExecSnoc(i, more, ProdStep);
    more := more + [ProdStep];
    ExecSnoc(i, more, ProdStep);
    more := more + [ProdStep];
  }

  /** On a ring of capacity one a Push always finds its slot "free" and overwrites it. */
  lemma OverwritingPush<T>(run: seq<Action<T>>, policy: Policy, v: T) returns (more: seq<Action<T>>)
    requires var s := Exec(Init<T>(1, policy), run); s.prod.Idle? && s.slots[0].stamp == s.tail && |s.slots| == 1
    ensures var s, s' := Exec(Init<T>(1, policy), run), Exec(Init<T>(1, policy), more);
      && s'.prod.Idle? && s'.tail == s.tail + 1 && s'.slots == [Slot(s.tail + 1, Some(v))]
      && s'.head == s.head && s'.pushed == s.pushed + [v] && s'.pops == s.pops && s'.cap == 1
  {
    var i := Init<T>(1, policy);
    CapKept(i, run);
    more := PushReachesWrite(i, run, v);
    ExecSnoc(i, more, ProdStep);
    more := more + [ProdStep];
    ExecSnoc(i, more, ProdStep);
    more := more + [ProdStep];
    ExecSnoc(i, more, ProdStep);
    more := more + [ProdStep];
  }

  /**
   `New` accepts capacity one, where "published at t" and "free for t + 1" are the same stamp: the
   second Push overwrites the first element, and a later `pop` goes round forever on an unmoved head.
   */
  lemma CapacityOneLoses<T>(policy: Policy, v: T, w: T) returns (run: seq<Action<T>>)
    ensures var s := Exec(Init<T>(1, policy), run);
      && Queue(s) == [v, w] && s.slots == [Slot(2, Some(w))]
      && PopOf(s, Claimant(0)) == Some(LoadStamp(0)) && Retries(s, Claimant(0), 0) && s.head == 0
      && Step(Step(s, PopStep(0)), PopStep(0)) == s
  {
    var i := Init<T>(1, policy);
    assert Exec(i, []) == i;
    run := OverwritingPush([], policy, v);
    run := OverwritingPush(run, policy, w);
    ExecSnoc(i, run, StartPop(0));
    run := run + [StartPop(0)];
    ExecSnoc(i, run, PopStep(0));
    run := run + [PopStep(0)];
    var s := Exec(i, run);
    assert s.pops == map[0 := LoadStamp(0)];
  }

  /** The whole of a `pop` that has won: read, clear, release. */
  lemma WinnerLeaves<T>(i: State<T>, run: seq<Action<T>>) returns (more: seq<Action<T>>)
    requires WF(i) && var s := Exec(i, run); s.cap == 1 && s.head == 0 && s.pops == map[0 := Cas(0)] && s.prod.Idle?
    ensures var s, s' := Exec(i, run), Exec(i, more);
      s'.head == 1 && s'.pops == map[] && s'.slots[0].stamp == 1 && s'.pushed == s.pushed && s'.prod.Idle? && s'.cap == 1
  {
    ExecSnoc(i, run, PopStep(0));
    more := run + [PopStep(0)];
    assert Exec(i, more).pops == map[0 := ReadVal(0)];
    more := HolderLeaves(i, more);
  }

  lemma HolderLeaves<T>(i: State<T>, run: seq<Action<T>>) returns (more: seq<Action<T>>)
    requires WF(i) && var s := Exec(i, run); s.cap == 1 && s.pops == map[0 := ReadVal(0)]
    ensures var s, s' := Exec(i, run), Exec(i, more);
      && s'.pops == map[] && s'.slots[0].stamp == 1
      && s'.pushed == s.pushed && s'.prod == s.prod && s'.cap == 1 && s'.head == s.head
  {
    ExecSnoc(i, run, PopStep(0));
    more := run + [PopStep(0)];
    ExecSnoc(i, more, PopStep(0));
    more := more + [PopStep(0)];
    ExecSnoc(i, more, PopStep(0));
    more := more + [PopStep(0)];
  }

  /** A claimant enters `pop` and loads the head. */
  lemma EntersPop<T>(i: State<T>, run: seq<Action<T>>) returns (more: seq<Action<T>>)
    requires WF(i) && Exec(i, run).pops == map[]
    ensures Exec(i, more) == Exec(i, run).(pops := map[0 := LoadStamp(Exec(i, run).head)])
  {
    ExecSnoc(i, run, StartPop(0));
    more := run + [StartPop(0)];
    ExecSnoc(i, more, PopStep(0));
    more := more + [PopStep(0)];
    assert Exec(i, more).pops == map[0 := LoadStamp(Exec(i, run).head)];
  }

  /**
   On capacity one `pop` also reports an empty ring while an element is buffered: a claimant stands
   before its CAS, the second Push overwrites its element, and its release puts the stamp back.
   */
  lemma CapacityOneMisreports<T>(policy: Policy, v: T) returns (run: seq<Action<T>>)
    ensures var s := Exec(Init<T>(1, policy), run);
      Queue(s) == [v] && Observed(s, Step(s, PopStep(0)), Claimant(0)) == SawEmpty(Claimant(0))
  {
    var i := Init<T>(1, policy);
    assert Exec(i, []) == i;
    run := OverwritingPush([], policy, v);
    run := EntersPop(i, run);
    ExecSnoc(i, run, PopStep(0));
    run := run + [PopStep(0)];
    assert Exec(i, run).pops == map[0 := Cas(0)];
    run := OverwritingPush(run, policy, v);
    run := WinnerLeaves(i, run);
    run := EntersPop(i, run);
  }

  lemma {:induction false} SeenSnoc<T>(s: State<T>, run: seq<Action<T>>, a: Action<T>)
    requires WF(s)
    ensures Seen(s, run + [a]) == Seen(s, run) + [Observed(Exec(s, run), Step(Exec(s, run), a), Actor(a))]
    decreases |run|
  {
    if run == [] {
      assert Seen(Step(s, a), []) == [];
    } else {
      assert (run + [a])[0] == run[0] && (run + [a])[1..] == run[1..] + [a];
      SeenSnoc(Step(s, run[0]), run[1..], a);
    }
  }

  lemma {:induction false} ReplaySnoc<T>(q: seq<T>, es: seq<Event<T>>, e: Event<T>)
    ensures Replay(q, es + [e]) ==
      if Replay(q, es).None? then None else Atomic(Replay(q, es).value, e)
    decreases |es|
  {
    if es == [] {
      assert es + [e] == [e];
    } else {
      assert (es + [e])[0] == es[0] && (es + [e])[1..] == es[1..] + [e];
      if Atomic(q, es[0]).Some? {
        ReplaySnoc(Atomic(q, es[0]).value, es[1..], e);
      }
    }
  }

  lemma CapacityOneDoesNotRefine<T>(policy: Policy, v: T) returns (run: seq<Action<T>>)
    ensures !Refines(1, policy, run)
  {
    var i := Init<T>(1, policy);
    run := CapacityOneMisreports(policy, v);
    SeenSnoc(i, run, PopStep(0));
    ReplaySnoc([], Seen(i, run), SawEmpty(Claimant(0)));
    if Refines(1, policy, run) {
      assert Replay([], Seen(i, run + [PopStep(0)])) == None;
      run := run + [PopStep(0)];
    }
  }

  /** The ring refines the queue on every run, and is sound on every run, exactly from capacity two on. */
  lemma CapacityDecides<T>(cap: nat, policy: Policy, v: T)
    requires cap >= 1
    ensures (forall run: seq<Action<T>> :: Refines(cap, policy, run)) <==> cap >= 2
    ensures (forall run :: Sound(Exec(Init<T>(cap, policy), run))) <==> cap >= 2
  {
    if cap >= 2 {
      InitInv<T>(cap, policy);
      forall run: seq<Action<T>> ensures Refines(cap, policy, run) {
        RingRefinesQueue<T>(cap, policy, run);
      }
      forall run ensures Sound(Exec(Init<T>(cap, policy), run)) {
        ExecInv(Init<T>(cap, policy), run);
        InvSound(Exec(Init<T>(cap, policy), run));
      }
    } else {
      var bad := CapacityOneDoesNotRefine(policy, v);
      var run := CapacityOneLoses(policy, v, v);
      assert !Sound(Exec(Init<T>(cap, policy), run));
    }
  }
}
