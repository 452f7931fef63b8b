/** What the ring no longer holds it does not keep alive: slots are cleared before they are given back. */
module RingMemory {
  import opened Wrappers
  import opened RingSteps
  import opened RingInvariant

  /** The slot of `p` is buffered, not yet cleared by its holder, cleared, or just filled by the producer. */
  ghost predicate ClearedAt<T>(s: State<T>, p: nat)
    requires WF(s)
  {
    var q := p - s.cap;
    q < s.head ==>
      if InFlight(s, q) then PopOf(s, s.owner[q]).value.Release? ==> At(s, p).val.None?
      else At(s, p).val.None? || (p == |s.pushed| && s.prod.Publish?)
  }

  ghost predicate Cleared<T>(s: State<T>)
    requires WF(s)
  {
    forall p: nat :: |s.pushed| <= p < |s.pushed| + s.cap ==> ClearedAt(s, p)
  }

  lemma InitCleared<T>(cap: nat, policy: Policy)
    requires cap >= 2
    ensures Cleared(Init<T>(cap, policy))
  {
  }

  /** Memory, claims and everybody else's place are as before. */
  ghost predicate Still<T>(s: State<T>, s': State<T>, w: Who) {
    && WF(s) && WF(s') && s'.cap == s.cap && s'.pushed == s.pushed && s'.head == s.head && s'.owner == s.owner
    && forall x :: x != w ==> PopOf(s', x) == PopOf(s, x)
  }

  lemma QuietCleared<T>(s: State<T>, s': State<T>, w: Who)
    requires Still(s, s', w) && s'.slots == s.slots && s'.prod.Publish? == s.prod.Publish? && Cleared(s)
    requires PopOf(s, w).Some? ==> !PopOf(s, w).value.Holding()
    requires PopOf(s', w).Some? ==> !PopOf(s', w).value.Holding()
    ensures Cleared(s')
  {
    forall p: nat | |s'.pushed| <= p < |s'.pushed| + s'.cap ensures ClearedAt(s', p) {
      assert ClearedAt(s, p);
    }
  }

  lemma ClaimCleared<T>(s: State<T>, s': State<T>, w: Who)
    requires WF(s) && WF(s') && s'.cap == s.cap && s'.pushed == s.pushed && s'.slots == s.slots && s'.prod.Publish? == s.prod.Publish?
    requires |s.owner| == s.head && s'.head == s.head + 1 && s'.owner == s.owner + [w]
    requires PopOf(s, w).Some? && !PopOf(s, w).value.Holding() && PopOf(s', w) == Some(ReadVal(s.head))
    requires forall x :: x != w ==> PopOf(s', x) == PopOf(s, x)
    requires Cleared(s)
    ensures Cleared(s')
  {
    forall p: nat | |s'.pushed| <= p < |s'.pushed| + s'.cap ensures ClearedAt(s', p) {
      assert ClearedAt(s, p);
    }
  }

  /** The holder of `h` moves on; only its slot may have changed. */
  lemma HolderCleared<T>(s: State<T>, s': State<T>, w: Who, h: nat)
    requires Still(s, s', w) && s'.prod.Publish? == s.prod.Publish? && Cleared(s)
    requires Held(s, w, h) && h < |s.owner| && s.owner[h] == w
    requires forall p: nat :: |s.pushed| <= p < |s.pushed| + s.cap && p != h + s.cap ==> At(s', p) == At(s, p)
    requires if PopOf(s', w).None? then At(s', h + s.cap).val.None?
             else Held(s', w, h) && (PopOf(s', w).value.Release? ==> At(s', h + s.cap).val.None?)
    ensures Cleared(s')
  {
    forall p: nat | |s'.pushed| <= p < |s'.pushed| + s'.cap ensures ClearedAt(s', p) {
      assert ClearedAt(s, p);
    }
  }

  lemma HolderStep<T>(s: State<T>, w: Who, h: nat)
    requires Inv(s) && Held(s, w, h) && Cleared(s)
    ensures Cleared(PopNext(s, w))
  {
    HeldSlot(s, w, h);
    assert PopOk(s, w);
    var s' := PopNext(s, w);
    match PopOf(s, w).value
    case ReadVal(_) =>
      HoldingFrame(s, w, h);
      HolderCleared(s, s', w, h);
    case ClearVal(_, _) =>
      HoldingFrame(s, w, h);
      HeldFrame(s, h, At(s, h).(val := None));
      HolderCleared(s, s', w, h);
    case Release(_, v) =>
      ReleaseFrame(s, w, h, v);
      HeldFrame(s, h, At(s, h).(stamp := h + s.cap));
      assert ClearedAt(s, h + s.cap);
      HolderCleared(s, s', w, h);
  }

  lemma PopCleared<T>(s: State<T>, w: Who)
    requires Inv(s) && PopOf(s, w).Some? && Cleared(s)
    ensures Cleared(PopNext(s, w))
  {
    if PopOf(s, w).value.Holding() {
      HolderStep(s, w, PopOf(s, w).value.h);
    } else if PopOf(s, w).value.Cas? && PopOf(s, w).value.h == s.head {
      ClaimCleared(s, PopNext(s, w), w);
    } else {
      SearchStays(s, w);
      QuietCleared(s, PopNext(s, w), w);
    }
  }

  /** Before it wins, a `pop` moves nothing but its own place. */
  lemma SearchStays<T>(s: State<T>, w: Who)
    requires WF(s) && PopOf(s, w).Some? && !PopOf(s, w).value.Holding() && (PopOf(s, w).value.Cas? ==> PopOf(s, w).value.h != s.head)
    ensures var s' := PopNext(s, w);
      && Still(s, s', w) && s'.slots == s.slots && s'.prod.Publish? == s.prod.Publish?
      && (PopOf(s', w).Some? ==> !PopOf(s', w).value.Holding())
  {
  }

  lemma WriteCleared<T>(s: State<T>, v: T, t: nat)
    requires WF(s) && s.prod == Write(v, t) && t == |s.pushed| && Free(s) && Cleared(s)
    ensures Cleared(ProdNext(s))
  {
    var s' := ProdNext(s);
    SetSlotFrame(s, t, At(s, t).(val := Some(v)));
    forall p: nat | |s'.pushed| <= p < |s'.pushed| + s'.cap ensures ClearedAt(s', p) {
      assert ClearedAt(s, p);
    }
  }

  lemma PublishCleared<T>(s: State<T>, v: T, t: nat)
    requires WF(s) && s.prod == Publish(v, t) && t == |s.pushed| && s.head <= t && Cleared(s)
    ensures Cleared(ProdNext(s))
  {
    var s' := ProdNext(s);
    SetSlotFrame(s, t, At(s, t).(stamp := t + 1));
    forall p: nat | |s'.pushed| <= p < |s'.pushed| + s'.cap ensures ClearedAt(s', p) {
      if p < t + s.cap { assert ClearedAt(s, p); }
    }
  }

  lemma StepCleared<T>(s: State<T>, a: Action<T>)
    requires Inv(s) && Cleared(s)
    ensures Cleared(Step(s, a))
  {
    if Enabled(s, a) {
      match a
      case StartPush(_) => QuietCleared(s, Step(s, a), Producer);
      case StartPop(i) => QuietCleared(s, Step(s, a), Claimant(i));
      case PopStep(i) => PopCleared(s, Claimant(i));
      case ProdStep =>
        match s.prod
        case Idle =>
        case Write(v, t) => WriteCleared(s, v, t);
        case Publish(v, t) => PublishCleared(s, v, t);
        case Evict(_, _) => PopCleared(s, Producer);
        case _ => QuietCleared(s, Step(s, a), Producer);
    }
  }

  lemma {:induction false} ExecCleared<T>(s: State<T>, run: seq<Action<T>>)
    requires Inv(s) && Cleared(s)
    ensures Inv(Exec(s, run)) && Cleared(Exec(s, run))
    decreases |run|
  {
    if run == [] {
    } else {
      StepInv(s, run[0]);
      StepCleared(s, run[0]);
      ExecCleared(Step(s, run[0]), run[1..]);
    }
  }

  /**
   Over every run, a slot of the coming lap whose last element has been given back is empty, unless the
   producer has just filled it.
   */
  lemma FreeSlotsAreEmpty<T>(cap: nat, policy: Policy, run: seq<Action<T>>, p: nat)
    requires cap >= 2
    ensures var s := Exec(Init<T>(cap, policy), run);
      |s.pushed| <= p < |s.pushed| + s.cap && p - s.cap < s.head && !InFlight(s, p - s.cap) ==>
        At(s, p).val.None? || (p == |s.pushed| && s.prod.Publish?)
  {
    InitInv<T>(cap, policy);
    InitCleared<T>(cap, policy);
    ExecCleared(Init<T>(cap, policy), run);
    var s := Exec(Init<T>(cap, policy), run);
    if |s.pushed| <= p < |s.pushed| + s.cap {
      assert ClearedAt(s, p);
    }
  }
}
