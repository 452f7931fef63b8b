/**
 An audio edge: the ring of `RingSteps` plus a doorbell of capacity one.

 Claimant 0 is the regular consumer (`await`, or the pump of the ASR loop); other claimants are
 drains.  The producer owes a ring of the bell from the step that publishes an element until its
 non-blocking send.  The consumer waits from the step of `pop` that found the ring empty until it
 takes a token, or gives up because of cancellation or an utterance boundary.
 */
module Edge {
  import opened Wrappers
  import opened RingSteps
  import opened RingInvariant
  import opened RingTheorems

  datatype EdgeState<T> = EdgeState(ring: State<T>, bell: bool, owes: bool, waiting: bool)

  datatype EdgeAction<T> = OnRing(a: Action<T>) | RingBell | TakeToken | GiveUp

  predicate CanDo<T>(e: EdgeState<T>, a: EdgeAction<T>) {
    match a
    case OnRing(StartPush(_)) => !e.owes
    case OnRing(StartPop(i)) => i == 0 ==> !e.waiting
    case OnRing(_) => true
    case RingBell => e.owes && e.ring.prod.Idle?
    case TakeToken => e.waiting && e.bell
    case GiveUp => e.waiting
  }

  function EdgeStep<T>(e: EdgeState<T>, a: EdgeAction<T>): (r: EdgeState<T>)
    requires WF(e.ring)
    ensures WF(r.ring)
  {
    if !CanDo(e, a) then e else
    match a
    case OnRing(b) =>
      var ev := EventOf(e.ring, b);
      EdgeState(Step(e.ring, b), e.bell, e.owes || ev.Enq?, e.waiting || ev == SawEmpty(Claimant(0)))
    case RingBell => e.(bell := true, owes := false)
    case TakeToken => e.(bell := false, waiting := false)
    case GiveUp => e.(waiting := false)
  }

  function EdgeInit<T>(cap: nat, policy: Policy): (e: EdgeState<T>)
    requires cap >= 1
    ensures WF(e.ring)
  {
    EdgeState(Init<T>(cap, policy), false, false, false)
  }

  function EdgeExec<T>(e: EdgeState<T>, run: seq<EdgeAction<T>>): (r: EdgeState<T>)
    requires WF(e.ring)
    ensures WF(r.ring)
    decreases |run|
  {
    if run == [] then e else EdgeExec(EdgeStep(e, run[0]), run[1..])
  }

  /** A waiting consumer with something to read finds a token, unless the producer still owes one. */
  ghost predicate NoLostWakeup<T>(e: EdgeState<T>) {
    e.waiting && Queue(e.ring) != [] && !e.owes ==> e.bell
  }

  ghost predicate EdgeInv<T>(e: EdgeState<T>) {
    && Inv(e.ring)
    && NoLostWakeup(e)
    && (e.waiting ==> 0 !in e.ring.pops)
    && (e.owes ==> e.ring.prod.Idle? || e.ring.prod.Advance?)
  }

  /** What each event of the ring means for the queue decides what is owed and who waits. */
  lemma RingKeepsWakeup<T>(e: EdgeState<T>, b: Action<T>)
    requires WF(e.ring) && NoLostWakeup(e)
    requires Atomic(Queue(e.ring), EventOf(e.ring, b)) == Some(Queue(Step(e.ring, b)))
    ensures NoLostWakeup(EdgeStep(e, OnRing(b)))
  {
  }

  lemma RingKeepsRoles<T>(e: EdgeState<T>, b: Action<T>)
    requires WF(e.ring) && CanDo(e, OnRing(b))
    requires (e.waiting ==> 0 !in e.ring.pops) && (e.owes ==> e.ring.prod.Idle? || e.ring.prod.Advance?)
    ensures var r := EdgeStep(e, OnRing(b));
      (r.waiting ==> 0 !in r.ring.pops) && (r.owes ==> r.ring.prod.Idle? || r.ring.prod.Advance?)
  {
  }

  lemma RingMoves<T>(e: EdgeState<T>, b: Action<T>)
    requires EdgeInv(e) && CanDo(e, OnRing(b))
    ensures EdgeInv(EdgeStep(e, OnRing(b)))
  {
    StepInv(e.ring, b);
    StepRefines(e.ring, b);
    RingKeepsWakeup(e, b);
    RingKeepsRoles(e, b);
  }

  /** For every interleaving of producer, consumer and drains, no wakeup is lost. */
  lemma {:induction false} WakeupsNeverLost<T>(e: EdgeState<T>, run: seq<EdgeAction<T>>)
    requires EdgeInv(e)
    ensures EdgeInv(EdgeExec(e, run))
    decreases |run|
  {
    if run == [] {
    } else {
      if run[0].OnRing? && CanDo(e, run[0]) {
        RingMoves(e, run[0].a);
      }
      WakeupsNeverLost(EdgeStep(e, run[0]), run[1..]);
    }
  }

  lemma EdgeNeverLosesWakeup<T>(cap: nat, policy: Policy, run: seq<EdgeAction<T>>)
    requires cap >= 2
    ensures NoLostWakeup(EdgeExec(EdgeInit<T>(cap, policy), run))
  {
    InitInv<T>(cap, policy);
    WakeupsNeverLost(EdgeInit<T>(cap, policy), run);
  }

  /** The token is there, and with it the consumer is back to popping, in front of the same elements. */
  ghost predicate Wakes<T>(e: EdgeState<T>)
    requires WF(e.ring)
  {
    var awake := EdgeStep(e, TakeToken);
    && CanDo(e, TakeToken)
    && CanDo(awake, OnRing(StartPop(0))) && Enabled(awake.ring, StartPop(0)) && awake.ring == e.ring && !awake.bell
  }

  /** A consumer parked in front of a non-empty ring is woken by the producer's own next steps, and pops. */
  lemma ParkedConsumerWakes<T>(cap: nat, policy: Policy, run: seq<EdgeAction<T>>)
    requires cap >= 2
    ensures var e := EdgeExec(EdgeInit<T>(cap, policy), run);
      e.waiting && Queue(e.ring) != [] ==>
        Wakes(e) || Wakes(EdgeStep(e, RingBell)) || Wakes(EdgeStep(EdgeStep(e, OnRing(ProdStep)), RingBell))
  {
    InitInv<T>(cap, policy);
    WakeupsNeverLost(EdgeInit<T>(cap, policy), run);
    var e := EdgeExec(EdgeInit<T>(cap, policy), run);
    if e.waiting && e.owes && e.ring.prod.Advance? {
      RingKeepsRoles(e, ProdStep);
    }
  }

  /** The bell is rung for an element that the ring has announced; and a waiting consumer can always leave. */
  lemma BellAfterPush<T>(cap: nat, policy: Policy, run: seq<EdgeAction<T>>)
    requires cap >= 2
    ensures var e := EdgeExec(EdgeInit<T>(cap, policy), run);
      && (CanDo(e, RingBell) ==> e.ring.tail == |e.ring.pushed| && EdgeStep(e, RingBell) == e.(bell := true, owes := false))
      && (e.waiting ==> CanDo(e, GiveUp) && EdgeStep(e, GiveUp) == e.(waiting := false))
  {
    InitInv<T>(cap, policy);
    WakeupsNeverLost(EdgeInit<T>(cap, policy), run);
  }

  /** How many tokens the run takes, and how many rings of the bell it holds. */
  function Takes<T>(e: EdgeState<T>, run: seq<EdgeAction<T>>): nat
    requires WF(e.ring)
    decreases |run|
  {
    if run == [] then 0
    else (if run[0].TakeToken? && CanDo(e, run[0]) then 1 else 0) + Takes(EdgeStep(e, run[0]), run[1..])
  }

  function Rings<T>(e: EdgeState<T>, run: seq<EdgeAction<T>>): nat
    requires WF(e.ring)
    decreases |run|
  {
    if run == [] then 0
    else (if run[0].RingBell? && CanDo(e, run[0]) then 1 else 0) + Rings(EdgeStep(e, run[0]), run[1..])
  }

  lemma {:induction false} TokensSpent<T>(e: EdgeState<T>, run: seq<EdgeAction<T>>)
    requires WF(e.ring)
    ensures Takes(e, run) + (if EdgeExec(e, run).bell then 1 else 0) <= Rings(e, run) + (if e.bell then 1 else 0)
    decreases |run|
  {
    if run == [] {
    } else {
      TokensSpent(EdgeStep(e, run[0]), run[1..]);
    }
  }

  /** A token is taken once: there are never more wakeups than rings of the bell. */
  lemma EveryWakeupWasRung<T>(cap: nat, policy: Policy, run: seq<EdgeAction<T>>)
    requires cap >= 1
    ensures var e := EdgeInit<T>(cap, policy); Takes(e, run) + (if EdgeExec(e, run).bell then 1 else 0) <= Rings(e, run)
  {
    TokensSpent(EdgeInit<T>(cap, policy), run);
  }
}
