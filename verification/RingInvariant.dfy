/** Every step of the ring keeps the invariant of `RingSteps`. */
module RingInvariant {
  import opened Wrappers
  import opened RingSteps

  /** Repeated subtraction is the remainder, the source's `p & mask` for a power of two. */
  lemma {:induction false} IndexIsRemainder(p: nat, cap: nat)
    requires cap >= 1
    ensures SlotIndex(p, cap) == p % cap
  {
    if p < cap {
      SameRemainder(cap, 0, p, p / cap, p % cap);
    } else {
      IndexIsRemainder(p - cap, cap);
      LapRemainder(p, cap);
    }
  }

  lemma LapRemainder(p: nat, cap: nat)
    requires 1 <= cap <= p
    ensures (p - cap) % cap == p % cap
  {
    var k := (p - cap) / cap;
    assert cap * (k + 1) == cap * k + cap;
    SameRemainder(cap, k + 1, (p - cap) % cap, p / cap, p % cap);
  }

  /** A number has one remainder. */
  lemma SameRemainder(cap: nat, a: int, r: nat, b: int, s: nat)
    requires r < cap && s < cap && cap * a + r == cap * b + s
    ensures r == s
  {
    assert cap * (a - b) == s - r;
    MulBounds(cap, a - b);
  }

  lemma MulBounds(cap: nat, d: int)
    ensures d >= 1 ==> cap * d >= cap
    ensures d <= -1 ==> cap * d + cap <= 0
  {
    if d >= 1 {
      assert cap * d == cap * (d - 1) + cap;
    } else if d <= -1 {
      assert cap * d == cap * (d + 1) - cap;
    }
  }

  /** Positions less than a lap apart have different slots. */
  lemma {:induction false} IndexDistinct(p: nat, q: nat, cap: nat)
    requires cap >= 1 && p < q < p + cap
    ensures SlotIndex(p, cap) != SlotIndex(q, cap)
  {
    if p < cap {
    } else {
      IndexDistinct(p - cap, q - cap, cap);
    }
  }

  /** Writing the slot of position `p` leaves every other slot of a lap around it alone. */
  lemma SetSlotFrame<T>(s: State<T>, p: nat, sl: Slot<T>)
    requires WF(s)
    ensures At(SetSlot(s, p, sl), p) == sl
    ensures At(SetSlot(s, p, sl), p + s.cap) == sl
    ensures forall q: nat :: p < q < p + s.cap ==> At(SetSlot(s, p, sl), q) == At(s, q)
    ensures forall q: nat :: q < p < q + s.cap ==> At(SetSlot(s, p, sl), q) == At(s, q)
  {
    forall q: nat | p < q < p + s.cap ensures At(SetSlot(s, p, sl), q) == At(s, q) {
      IndexDistinct(p, q, s.cap);
    }
    forall q: nat | q < p < q + s.cap ensures At(SetSlot(s, p, sl), q) == At(s, q) {
      IndexDistinct(q, p, s.cap);
    }
  }

  lemma InitInv<T>(cap: nat, policy: Policy)
    requires cap >= 2
    ensures Inv(Init<T>(cap, policy))
  {
    var s := Init<T>(cap, policy);
    forall p: nat | p < cap ensures SlotOk(s, p) {
    }
  }

  /** Two slots a lap apart are one slot. */
  lemma AtLap<T>(s: State<T>, p: nat)
    requires WF(s)
    ensures At(s, p + s.cap) == At(s, p)
  {
  }

  /** What a claimant holding a possibly stale `h` can find in the slot of `h`. */
  lemma StampAtHead<T>(s: State<T>, h: nat)
    requires Inv(s) && h <= s.head
    ensures h == s.head < |s.pushed| ==> At(s, h) == Slot(h + 1, Some(s.pushed[h]))
    ensures h == s.head == |s.pushed| ==> At(s, h).stamp < h + 1
    ensures h < s.head ==> At(s, h).stamp >= h + 1
  {
    var n := |s.pushed|;
    if h == s.head < n {
      AtLap(s, h);
      assert SlotOk(s, h + s.cap);
    } else if h == n {
      assert SlotOk(s, h);
    } else {
      StaleStamp(s, h);
    }
  }

  /** Below `head` the stamp has moved past "not yet published": it is looked up in the window. */
  lemma StaleStamp<T>(s: State<T>, h: nat)
    requires Inv(s) && h < s.head
    ensures At(s, h).stamp >= h + 1
    decreases |s.pushed| - h
  {
    var n := |s.pushed|;
    var p := InWindow(s, h, h);
    var q := p - s.cap;
    assert SlotOk(s, p);
    if q >= s.head {
    } else if InFlight(s, q) {
    } else {
    }
  }

  /** The one position of the current window `[n, n + cap)` that shares `h`'s slot. */
  lemma InWindow<T>(s: State<T>, h: nat, g: nat) returns (p: nat)
    requires Inv(s) && h <= g < |s.pushed| && At(s, h) == At(s, g) && SlotIndex(g, s.cap) == SlotIndex(h, s.cap)
    ensures |s.pushed| <= p < |s.pushed| + s.cap && At(s, p) == At(s, h) && p >= h + s.cap
    decreases |s.pushed| - g
  {
    if g + s.cap >= |s.pushed| {
      p := g + s.cap;
    } else {
      p := InWindow(s, h, g + s.cap);
    }
  }

  // ---------------------------------------------------------------------------
  // Framing: what a step of one thread leaves alone

  /** Memory and history only grew, and threads other than `w` did not move. */
  ghost predicate Grew<T>(s: State<T>, s': State<T>, w: Who) {
    && s'.cap == s.cap
    && s.head <= s'.head
    && s.owner <= s'.owner
    && s.pushed <= s'.pushed
    && (forall x :: x != w ==> PopOf(s', x) == PopOf(s, x) && Log(s', x) == Log(s, x))
  }

  lemma PopKept<T>(s: State<T>, s': State<T>, w: Who, x: Who)
    requires Grew(s, s', w) && x != w && PopOk(s, x)
    requires forall h :: Held(s, x, h) ==> |s'.pushed| <= h + s.cap
    ensures PopOk(s', x)
  {
    if PopOf(s, x).Some? && PopOf(s, x).value.Holding() {
      assert Held(s, x, PopOf(s, x).value.h);
    }
  }

  lemma LogKept<T>(s: State<T>, s': State<T>, w: Who, x: Who)
    requires Grew(s, s', w) && LogOk(s, x) && Log(s', x) == Log(s, x)
    ensures LogOk(s', x)
  {
  }

  lemma CoverKept<T>(s: State<T>, s': State<T>, w: Who, p: nat)
    requires Grew(s, s', w) && p < |s.owner| && (InFlight(s, p) || Logged(s, s.owner[p], p))
    requires Log(s, w) <= Log(s', w)
    requires Held(s, w, p) ==> Held(s', w, p) || Logged(s', w, p)
    ensures InFlight(s', p) || Logged(s', s'.owner[p], p)
  {
    var x := s.owner[p];
    if Logged(s, x, p) {
      var i :| 0 <= i < |Log(s, x)| && Log(s, x)[i].pos == p;
      assert Log(s', x)[i].pos == p;
    }
  }

  /** The history part of the invariant, once the moving thread has been looked at. */
  lemma OthersKept<T>(s: State<T>, s': State<T>, w: Who)
    requires HistoryOk(s)
    requires Grew(s, s', w) && PopOk(s', w) && LogOk(s', w) && Log(s, w) <= Log(s', w)
    requires forall x, h :: x != w && Held(s, x, h) ==> |s'.pushed| <= h + s.cap
    requires forall p :: |s.owner| <= p < |s'.owner| ==> InFlight(s', p)
    requires forall p :: Held(s, w, p) ==> Held(s', w, p) || Logged(s', w, p)
    ensures HistoryOk(s')
  {
    forall x ensures PopOk(s', x) {
      if x != w { PopKept(s, s', w, x); }
    }
    forall x ensures LogOk(s', x) {
      if x != w { LogKept(s, s', w, x); }
    }
    forall p | 0 <= p < |s'.owner| ensures InFlight(s', p) || Logged(s', s'.owner[p], p) {
      if p < |s.owner| { CoverKept(s, s', w, p); }
    }
  }

  /** A slot that nobody wrote keeps its meaning while its holder, if any, stays as it was. */
  lemma SlotKept<T>(s: State<T>, s': State<T>, p: nat)
    requires WF(s) && WF(s') && s'.cap == s.cap && s'.head == s.head && s'.pushed == s.pushed
    requires |s.pushed| <= p < |s.pushed| + s.cap && SlotOk(s, p) && At(s', p) == At(s, p)
    requires s'.owner == s.owner && InFlight(s', p - s.cap) == InFlight(s, p - s.cap)
    requires InFlight(s, p - s.cap) ==>
      var x := s.owner[p - s.cap]; PopOf(s, x).value.Release? ==> PopOf(s', x).value.Release?
    ensures SlotOk(s', p)
  {
  }

  // ---------------------------------------------------------------------------
  // The steps of `pop`

  /** Nobody gains or loses a slot, and the memory and the history stay as they are. */
  lemma SameHolds<T>(s: State<T>, s': State<T>, w: Who)
    requires WF(s) && SlotsOk(s) && HistoryOk(s) && WF(s') && Grew(s, s', w) && PopOk(s', w)
    requires s'.slots == s.slots && s'.head == s.head && s'.pushed == s.pushed && s'.owner == s.owner && s'.log == s.log
    requires PopOf(s, w).Some? ==> !PopOf(s, w).value.Holding()
    requires PopOf(s', w).Some? ==> !PopOf(s', w).value.Holding()
    ensures forall p :: InFlight(s', p) == InFlight(s, p)
    ensures SlotsOk(s') && HistoryOk(s')
  {
    assert Log(s', w) == Log(s, w);
    HeldAreRecent(s, w);
    assert LogOk(s, w);
    LogKept(s, s', w, w);
    OthersKept(s, s', w);
    SameSlots(s, s', w);
  }

  lemma SameSlots<T>(s: State<T>, s': State<T>, w: Who)
    requires WF(s) && SlotsOk(s) && WF(s') && Grew(s, s', w)
    requires s'.slots == s.slots && s'.head == s.head && s'.pushed == s.pushed && s'.owner == s.owner
    requires PopOf(s, w).Some? ==> !PopOf(s, w).value.Holding()
    requires PopOf(s', w).Some? ==> !PopOf(s', w).value.Holding()
    ensures SlotsOk(s')
  {
    forall p: nat | |s'.pushed| <= p < |s'.pushed| + s'.cap ensures SlotOk(s', p) {
      assert SlotOk(s, p);
      SlotKept(s, s', p);
    }
  }

  lemma HeldAreRecent<T>(s: State<T>, w: Who)
    requires HistoryOk(s)
    ensures forall x, h :: x != w && Held(s, x, h) ==> |s.pushed| <= h + s.cap
  {
    forall x, h | x != w && Held(s, x, h) ensures |s.pushed| <= h + s.cap {
      assert PopOk(s, x);
    }
  }

  lemma QuietPc<T>(s: State<T>, w: Who, pc: PopPc<T>)
    requires Inv(s) && PopOf(s, w).Some? && !PopOf(s, w).value.Holding() && !pc.Holding()
    requires PopOk(SetPop(s, w, pc), w)
    ensures Inv(SetPop(s, w, pc))
  {
    QuietFrame(s, w, pc);
    SameHolds(s, SetPop(s, w, pc), w);
    QuietCounts(s, w, pc);
  }

  lemma QuietFrame<T>(s: State<T>, w: Who, pc: PopPc<T>)
    requires WF(s) && PopOf(s, w).Some?
    ensures var s' := SetPop(s, w, pc); WF(s') && Grew(s, s', w) && PopOf(s', w) == Some(pc)
  {
  }

  lemma QuietCounts<T>(s: State<T>, w: Who, pc: PopPc<T>)
    requires WF(s) && Cursors(s) && ProdOk(s) && CountOk(s) && EvictOk(s) && PopOf(s, w).Some?
    requires forall p :: InFlight(SetPop(s, w, pc), p) == InFlight(s, p)
    ensures var s' := SetPop(s, w, pc); Cursors(s') && ProdOk(s') && CountOk(s') && EvictOk(s')
  {
    var s' := SetPop(s, w, pc);
    assert Log(s', Producer) == Log(s, Producer);
    assert Evicted(s') == Evicted(s);
  }

  lemma StampStep<T>(s: State<T>, w: Who, h: nat)
    requires Inv(s) && PopOf(s, w) == Some(LoadStamp(h))
    ensures Inv(PopNext(s, w))
  {
    assert PopOk(s, w);
    StampAtHead(s, h);
    if At(s, h).stamp < h + 1 {
      EmptyReturn(s, w);
    } else if At(s, h).stamp > h + 1 {
      QuietPc(s, w, LoadHead);
    } else {
      QuietPc(s, w, Cas(h));
    }
  }

  lemma EmptyReturn<T>(s: State<T>, w: Who)
    requires Inv(s) && PopOf(s, w).Some? && !PopOf(s, w).value.Holding()
    ensures Inv(Return(s, w, None))
  {
    var s' := Return(s, w, None);
    EmptyReturnFrame(s, w);
    SameHolds(s, s', w);
    EmptyReturnCounts(s, w);
  }

  lemma EmptyReturnFrame<T>(s: State<T>, w: Who)
    requires WF(s) && PopOf(s, w).Some?
    ensures var s' := Return(s, w, None); WF(s') && Grew(s, s', w) && PopOf(s', w).None?
  {
  }

  lemma EmptyReturnCounts<T>(s: State<T>, w: Who)
    requires WF(s) && Cursors(s) && ProdOk(s) && CountOk(s) && EvictOk(s) && PopOf(s, w).Some?
    requires forall p :: InFlight(Return(s, w, None), p) == InFlight(s, p)
    ensures var s' := Return(s, w, None); Cursors(s') && ProdOk(s') && CountOk(s') && EvictOk(s')
  {
    var s' := Return(s, w, None);
    assert Log(s', Producer) == Log(s, Producer);
    assert Evicted(s') == Evicted(s);
  }

  lemma CasStep<T>(s: State<T>, w: Who)
    requires Inv(s) && PopOf(s, w).Some? && PopOf(s, w).value.Cas?
    ensures Inv(PopNext(s, w))
  {
    var h := PopOf(s, w).value.h;
    assert PopOk(s, w);
    if s.head != h {
      QuietPc(s, w, LoadHead);
    } else {
      CasWon(s, w, h);
    }
  }

  lemma CasWon<T>(s: State<T>, w: Who, h: nat)
    requires Inv(s) && PopOf(s, w) == Some(Cas(h)) && s.head == h < |s.pushed|
    ensures Inv(PopNext(s, w))
  {
    var s' := PopNext(s, w);
    CasHistory(s, s', w, h);
    forall p: nat | |s'.pushed| <= p < |s'.pushed| + s'.cap ensures SlotOk(s', p) {
      SlotClaimed(s, s', w, h, p);
    }
    CasCounts(s, s', w, h);
  }

  lemma CasHistory<T>(s: State<T>, s': State<T>, w: Who, h: nat)
    requires HistoryOk(s)
    requires h == |s.owner| < |s.pushed| <= h + s.cap && s'.owner == s.owner + [w] && s'.pushed == s.pushed
    requires Grew(s, s', w) && s'.log == s.log && PopOf(s, w) == Some(Cas(h)) && PopOf(s', w) == Some(ReadVal(h))
    ensures HistoryOk(s')
  {
    assert Log(s', w) == Log(s, w);
    assert LogOk(s, w);
    assert HoldOk(s', w, h);
    LogKept(s, s', w, w);
    HeldAreRecent(s, w);
    OthersKept(s, s', w);
  }

  lemma CasCounts<T>(s: State<T>, s': State<T>, w: Who, h: nat)
    requires Inv(s) && PopOf(s, w) == Some(Cas(h)) && s.head == h < |s.pushed| && s' == PopNext(s, w)
    ensures ProdOk(s') && CountOk(s') && EvictOk(s')
  {
    assert Log(s', Producer) == Log(s, Producer);
    assert forall p :: InFlight(s', p) ==> p == h || InFlight(s, p);
  }

  /** A won CAS turns the oldest buffered slot into a held one and changes no other. */
  lemma SlotClaimed<T>(s: State<T>, s': State<T>, w: Who, h: nat, p: nat)
    requires WF(s) && WF(s') && s'.cap == s.cap && s'.slots == s.slots && s'.pushed == s.pushed
    requires s.head == h == |s.owner| && s'.head == h + 1 && s'.owner == s.owner + [w]
    requires PopOf(s', w) == Some(ReadVal(h)) && PopOf(s, w) == Some(Cas(h))
    requires forall x :: x != w ==> PopOf(s', x) == PopOf(s, x)
    requires |s.pushed| <= p < |s.pushed| + s.cap && SlotOk(s, p)
    ensures SlotOk(s', p)
  {
  }

  /** While `w` holds `h` its slot is the one at `h + cap` of the window. */
  lemma HeldSlot<T>(s: State<T>, w: Who, h: nat)
    requires Inv(s) && Held(s, w, h)
    ensures InFlight(s, h) && At(s, h) == At(s, h + s.cap) && At(s, h).stamp == h + 1
    ensures !PopOf(s, w).value.Release? ==> At(s, h).val == Some(s.pushed[h])
    ensures HoldOk(s, w, h)
  {
    assert PopOk(s, w);
    AtLap(s, h);
    assert SlotOk(s, h + s.cap);
  }

  lemma ReadStep<T>(s: State<T>, w: Who, h: nat)
    requires Inv(s) && PopOf(s, w) == Some(ReadVal(h))
    ensures Inv(PopNext(s, w))
  {
    HeldSlot(s, w, h);
    var s' := PopNext(s, w);
    HoldingFrame(s, w, h);
    HeldMoves(s, s', w, h);
    WriterKept(s, s', w, h);
    forall p: nat | |s'.pushed| <= p < |s'.pushed| + s'.cap ensures SlotOk(s', p) {
      SlotKept(s, s', p);
    }
  }

  /** Reading and clearing a held slot move no cursor and return nothing. */
  lemma HoldingFrame<T>(s: State<T>, w: Who, h: nat)
    requires WF(s) && Cursors(s) && CountOk(s) && EvictOk(s) && HoldOk(s, w, h)
    requires PopOf(s, w).Some? && (PopOf(s, w).value.ReadVal? || PopOf(s, w).value.ClearVal?) && PopOf(s, w).value.h == h
    ensures var s' := PopNext(s, w);
      && Cursors(s') && CountOk(s') && EvictOk(s') && HoldOk(s', w, h) && Grew(s, s', w)
      && s'.head == s.head && s'.pushed == s.pushed && s'.owner == s.owner && s'.log == s.log && s'.tail == s.tail && s'.policy == s.policy
      && (if w.Producer? then s'.prod.Evict? else s'.prod == s.prod)
  {
    var s' := PopNext(s, w);
    assert Log(s', w) == Log(s, w);
    assert Log(s', Producer) == Log(s, Producer);
    assert Evicted(s') == Evicted(s);
  }

  /** The holder of `h` moves on without giving it back. */
  lemma HeldMoves<T>(s: State<T>, s': State<T>, w: Who, h: nat)
    requires HistoryOk(s) && Held(s, w, h) && Held(s', w, h) && Grew(s, s', w) && PopOk(s', w)
    requires s'.pushed == s.pushed && s'.owner == s.owner && s'.log == s.log
    ensures forall p :: InFlight(s', p) == InFlight(s, p)
    ensures HistoryOk(s')
  {
    assert Log(s', w) == Log(s, w);
    assert LogOk(s, w);
    LogKept(s, s', w, w);
    HeldAreRecent(s, w);
    OthersKept(s, s', w);
  }

  /** Writing the held slot leaves every other slot of the window alone. */
  lemma HeldFrame<T>(s: State<T>, h: nat, sl: Slot<T>)
    requires WF(s) && h < |s.pushed| <= h + s.cap
    ensures At(SetSlot(s, h, sl), h + s.cap) == sl
    ensures forall p: nat :: |s.pushed| <= p < |s.pushed| + s.cap && p != h + s.cap ==> At(SetSlot(s, h, sl), p) == At(s, p)
  {
    SetSlotFrame(s, h, sl);
    SetSlotFrame(s, h + s.cap, sl);
    assert SetSlot(s, h, sl) == SetSlot(s, h + s.cap, sl);
  }

  lemma ClearStep<T>(s: State<T>, w: Who, h: nat, v: Option<T>)
    requires Inv(s) && PopOf(s, w) == Some(ClearVal(h, v))
    ensures Inv(PopNext(s, w))
  {
    HeldSlot(s, w, h);
    assert PopOk(s, w);
    var s' := PopNext(s, w);
    HeldFrame(s, h, At(s, h).(val := None));
    HoldingFrame(s, w, h);
    HeldMoves(s, s', w, h);
    ClearedSlots(s, s', h);
    WriterKept(s, s', w, h);
  }

  lemma ClearedSlots<T>(s: State<T>, s': State<T>, h: nat)
    requires WF(s) && SlotsOk(s) && InFlight(s, h) && h < s.head
    requires WF(s') && s'.cap == s.cap && s'.head == s.head && s'.pushed == s.pushed && s'.owner == s.owner
    requires forall x :: x != s.owner[h] ==> PopOf(s', x) == PopOf(s, x)
    requires forall p :: InFlight(s', p) == InFlight(s, p)
    requires At(s', h + s.cap).stamp == h + 1 && PopOf(s', s.owner[h]).Some? && PopOf(s', s.owner[h]).value.Release?
    requires forall p: nat :: |s.pushed| <= p < |s.pushed| + s.cap && p != h + s.cap ==> At(s', p) == At(s, p)
    ensures SlotsOk(s')
  {
    forall p: nat | |s'.pushed| <= p < |s'.pushed| + s'.cap ensures SlotOk(s', p) {
      assert SlotOk(s, p);
      if p != h + s.cap { SlotKept(s, s', p); }
    }
  }

  /** The slot a holder writes is never the one the producer is filling. */
  lemma WriterKept<T>(s: State<T>, s': State<T>, w: Who, h: nat)
    requires Inv(s) && Held(s, w, h) && HoldOk(s, w, h)
    requires WF(s') && s'.pushed == s.pushed && s'.tail == s.tail && s'.head == s.head && s'.policy == s.policy
    requires s'.cap == s.cap && (s'.prod == s.prod || s'.prod.Evict? || s'.prod.Count?) && (s.prod.Evict? || s'.prod == s.prod)
    requires forall p: nat :: |s.pushed| <= p < |s.pushed| + s.cap && p != h + s.cap ==> At(s', p) == At(s, p)
    requires forall p :: InFlight(s', p) ==> InFlight(s, p)
    ensures ProdOk(s')
  {
    if s.prod.Publish? {
      assert InFlight(s, h);
    }
  }

  lemma ReleaseStep<T>(s: State<T>, w: Who, h: nat, v: Option<T>)
    requires Inv(s) && PopOf(s, w) == Some(Release(h, v))
    ensures Inv(PopNext(s, w))
  {
    HeldSlot(s, w, h);
    assert PopOk(s, w);
    var s' := PopNext(s, w);
    HeldFrame(s, h, At(s, h).(stamp := h + s.cap));
    ReleaseFrame(s, w, h, v);
    Released(s, s', w, h, v);
    ReleasedSlots(s, s', h);
    WriterKept(s, s', w, h);
    if w.Producer? {
      EvictionLogged(s, s', h, v);
    } else {
      OtherReleased(s, s');
    }
  }

  lemma ReleaseFrame<T>(s: State<T>, w: Who, h: nat, v: Option<T>)
    requires WF(s) && PopOf(s, w) == Some(Release(h, v))
    ensures var s' := PopNext(s, w);
      && Grew(s, s', w) && PopOf(s', w).None? && s'.log == s.log[w := Log(s, w) + [Claim(h, v)]]
      && Log(s', w) == Log(s, w) + [Claim(h, v)]
      && s'.head == s.head && s'.pushed == s.pushed && s'.owner == s.owner && s'.tail == s.tail
      && s'.mark == s.mark && s'.dropped == s.dropped && s'.policy == s.policy
      && s'.prod == if w.Producer? then Count(s.prod.v) else s.prod
  {
  }

  lemma ReleasedSlots<T>(s: State<T>, s': State<T>, h: nat)
    requires WF(s) && SlotsOk(s) && InFlight(s, h) && h < s.head
    requires WF(s') && s'.cap == s.cap && s'.head == s.head && s'.pushed == s.pushed && s'.owner == s.owner
    requires forall x :: x != s.owner[h] ==> PopOf(s', x) == PopOf(s, x)
    requires forall p :: InFlight(s', p) == (p != h && InFlight(s, p))
    requires At(s', h + s.cap).stamp == h + s.cap
    requires forall p: nat :: |s.pushed| <= p < |s.pushed| + s.cap && p != h + s.cap ==> At(s', p) == At(s, p)
    ensures SlotsOk(s')
  {
    forall p: nat | |s'.pushed| <= p < |s'.pushed| + s'.cap ensures SlotOk(s', p) {
      assert SlotOk(s, p);
      if p != h + s.cap { SlotKept(s, s', p); }
    }
  }

  /** Somebody else's release leaves the producer's account alone. */
  lemma OtherReleased<T>(s: State<T>, s': State<T>)
    requires CountOk(s) && EvictOk(s) && Log(s', Producer) == Log(s, Producer) && s'.mark == s.mark
    requires s'.dropped == s.dropped && s'.tail == s.tail && s'.cap == s.cap && s'.prod == s.prod
    ensures CountOk(s') && EvictOk(s')
  {
    assert Evicted(s') == Evicted(s);
  }

  /** A completed eviction is the newest in the log; it lies in the last lap, above the earlier ones. */
  lemma EvictionLogged<T>(s: State<T>, s': State<T>, h: nat, v: Option<T>)
    requires EvictOk(s) && HoldOk(s, Producer, h) && s.prod.Evict? && |s.owner| <= |s.pushed| == s.tail
    requires Log(s', Producer) == Log(s, Producer) + [Claim(h, v)] && s'.mark == s.mark
    requires s'.tail == s.tail && s'.cap == s.cap && s'.prod.Count?
    ensures EvictOk(s')
  {
    EvictedGrows(s, s', h, v);
    var e := Evicted(s);
    if |e| >= 1 {
      assert e[0] == Log(s, Producer)[s.mark];
    }
  }

  lemma EvictedGrows<T>(s: State<T>, s': State<T>, h: nat, v: Option<T>)
    requires s.mark <= |Log(s, Producer)| && s'.mark == s.mark && Log(s', Producer) == Log(s, Producer) + [Claim(h, v)]
    ensures Evicted(s') == Evicted(s) + [Claim(h, v)]
  {
  }

  lemma Released<T>(s: State<T>, s': State<T>, w: Who, h: nat, v: Option<T>)
    requires HistoryOk(s) && Held(s, w, h) && HoldOk(s, w, h) && v == Some(s.pushed[h])
    requires Grew(s, s', w) && s'.pushed == s.pushed && s'.owner == s.owner
    requires PopOf(s', w).None? && Log(s', w) == Log(s, w) + [Claim(h, v)]
    ensures forall p :: InFlight(s', p) == (p != h && InFlight(s, p))
    ensures HistoryOk(s')
  {
    assert LogOk(s, w);
    assert LogOk(s', w);
    assert Log(s', w)[|Log(s, w)|].pos == h;
    HeldAreRecent(s, w);
    OthersKept(s, s', w);
  }

  /** Any step inside `pop`. */
  lemma PopInv<T>(s: State<T>, w: Who)
    requires Inv(s) && PopOf(s, w).Some?
    ensures Inv(PopNext(s, w))
  {
    match PopOf(s, w).value
    case LoadHead => QuietPc(s, w, LoadStamp(s.head));
    case LoadStamp(h) => StampStep(s, w, h);
    case Cas(_) => CasStep(s, w);
    case ReadVal(h) => ReadStep(s, w, h);
    case ClearVal(h, v) => ClearStep(s, w, h, v);
    case Release(h, v) => ReleaseStep(s, w, h, v);
  }

  // ---------------------------------------------------------------------------
  // The steps of `Push`

  /** The producer moves outside `pop`; memory and history stay. */
  lemma ProdQuiet<T>(s: State<T>, pc: ProdPc<T>)
    requires Inv(s) && !s.prod.Evict? && !s.prod.Advance? && !s.prod.Count?
    requires !pc.Advance? && !pc.Count? && (pc.Evict? ==> pc.pop.LoadHead?)
    requires ProdOk(s.(prod := pc)) && EvictOk(s.(prod := pc))
    ensures Inv(s.(prod := pc))
  {
    ProdFrame(s, pc);
    ProdHistory(s, s.(prod := pc));
  }

  lemma ProdHistory<T>(s: State<T>, s': State<T>)
    requires WF(s) && SlotsOk(s) && HistoryOk(s) && WF(s') && Grew(s, s', Producer) && PopOk(s', Producer)
    requires s'.slots == s.slots && s'.head == s.head && s'.pushed == s.pushed && s'.owner == s.owner && s'.log == s.log
    requires !s.prod.Evict? && (s'.prod.Evict? ==> s'.prod.pop.LoadHead?)
    ensures SlotsOk(s') && HistoryOk(s')
  {
    SameHolds(s, s', Producer);
  }

  lemma ProdFrame<T>(s: State<T>, pc: ProdPc<T>)
    requires WF(s) && Cursors(s) && CountOk(s) && !s.prod.Evict? && !s.prod.Advance? && !s.prod.Count?
    requires !pc.Advance? && !pc.Count? && (pc.Evict? ==> pc.pop.LoadHead?)
    ensures var s' := s.(prod := pc);
      && WF(s') && Cursors(s') && CountOk(s') && Grew(s, s', Producer) && PopOk(s', Producer)
      && Log(s', Producer) == Log(s, Producer)
  {
  }

  lemma CheckStep<T>(s: State<T>, v: T, t: nat)
    requires Inv(s) && s.prod == Check(v, t)
    ensures Inv(ProdNext(s))
  {
    assert SlotOk(s, t);
    var s' := ProdNext(s);
    assert Log(s', Producer) == Log(s, Producer);
    forall p ensures InFlight(s', p) == InFlight(s, p) { }
    if At(s, t).stamp != t && s.policy.DropOldest? {
      NotEvictedYet(s, t);
    }
    ProdQuiet(s, s'.prod);
  }

  /** A producer that finds its slot occupied has not evicted `t - cap` in this Push. */
  lemma NotEvictedYet<T>(s: State<T>, t: nat)
    requires Inv(s) && s.prod.Check? && t == s.tail && At(s, t).stamp != t
    ensures |Evicted(s)| >= 1 ==> Evicted(s)[0].pos != t - s.cap
  {
    assert SlotOk(s, t);
    if |Evicted(s)| >= 1 {
      assert LogOk(s, Producer);
      assert Evicted(s)[0] == Log(s, Producer)[s.mark];
    }
  }

  lemma WriteStep<T>(s: State<T>, v: T, t: nat)
    requires Inv(s) && s.prod == Write(v, t)
    ensures Inv(ProdNext(s))
  {
    var s' := ProdNext(s);
    SetSlotFrame(s, t, At(s, t).(val := Some(v)));
    HeldAreRecent(s, Producer);
    FilledHistory(s, s');
    WrittenSlots(s, s', t);
    assert InFlight(s', t - s.cap) == InFlight(s, t - s.cap);
  }

  /** Filling the free slot changes no stamp. */
  lemma WrittenSlots<T>(s: State<T>, s': State<T>, t: nat)
    requires WF(s) && SlotsOk(s) && t == |s.pushed| && Free(s)
    requires WF(s') && s'.cap == s.cap && s'.head == s.head && s'.owner == s.owner && s'.pushed == s.pushed
    requires At(s', t).stamp == At(s, t).stamp && forall p: nat :: t < p < t + s.cap ==> At(s', p) == At(s, p)
    requires forall x :: PopOf(s', x) == PopOf(s, x)
    ensures SlotsOk(s')
  {
    forall p: nat | |s'.pushed| <= p < |s'.pushed| + s'.cap ensures SlotOk(s', p) {
      assert SlotOk(s, p);
      if p != t { SlotKept(s, s', p); }
    }
  }

  lemma FilledHistory<T>(s: State<T>, s': State<T>)
    requires HistoryOk(s)
    requires Grew(s, s', Producer) && s'.log == s.log && s'.owner == s.owner && !s.prod.Evict? && !s'.prod.Evict?
    requires forall x, h :: Held(s, x, h) ==> |s'.pushed| <= h + s.cap
    ensures HistoryOk(s')
    ensures Log(s', Producer) == Log(s, Producer)
  {
    LogKept(s, s', Producer, Producer);
    OthersKept(s, s', Producer);
  }

  lemma PublishStep<T>(s: State<T>, v: T, t: nat)
    requires Inv(s) && s.prod == Publish(v, t)
    ensures Inv(ProdNext(s))
  {
    var s' := ProdNext(s);
    assert SlotOk(s, t);
    SetSlotFrame(s, t, At(s, t).(stamp := t + 1));
    PublishFrame(s, v, t);
    PublishCounts(s, s');
    HeldLeaveRoom(s);
    FilledHistory(s, s');
    PublishedSlots(s, s', v, t);
  }

  /** Publishing moves the cursors and the program counter of the producer, and no claim. */
  lemma PublishFrame<T>(s: State<T>, v: T, t: nat)
    requires WF(s) && s.prod == Publish(v, t) && t == s.tail
    ensures var s' := ProdNext(s);
      && Grew(s, s', Producer) && s'.pushed == s.pushed + [v] && s'.log == s.log && s'.owner == s.owner && s'.head == s.head
      && s'.tail == s.tail && s'.mark == s.mark && s'.dropped == s.dropped && s'.prod == Advance(v, t)
  {
  }

  lemma PublishCounts<T>(s: State<T>, s': State<T>)
    requires Cursors(s) && CountOk(s) && EvictOk(s) && s.prod.Publish? && |s.pushed| - s.cap < s.head
    requires s'.log == s.log && s'.owner == s.owner && s'.head == s.head && s'.tail == s.tail && s'.mark == s.mark
    requires s'.dropped == s.dropped && s'.cap == s.cap && s'.prod.Advance? && |s'.pushed| == |s.pushed| + 1
    ensures Cursors(s') && CountOk(s') && EvictOk(s')
  {
    assert Log(s', Producer) == Log(s, Producer);
    assert Evicted(s') == Evicted(s);
  }

  /** With the next slot free, whoever holds a slot will not be lapped by one more element. */
  lemma HeldLeaveRoom<T>(s: State<T>)
    requires HistoryOk(s) && Free(s)
    ensures forall x, h :: Held(s, x, h) ==> |s.pushed| + 1 <= h + s.cap
  {
    forall x, h | Held(s, x, h) ensures |s.pushed| + 1 <= h + s.cap {
      assert PopOk(s, x);
      assert InFlight(s, h);
    }
  }

  /** The window moves on by one: its new last slot is the one just published. */
  lemma PublishedSlots<T>(s: State<T>, s': State<T>, v: T, t: nat)
    requires WF(s) && SlotsOk(s) && t == |s.pushed| && At(s, t).val == Some(v) && s.head <= t && |s.owner| == s.head
    requires WF(s') && s'.cap == s.cap && s'.head == s.head && s'.owner == s.owner && s'.pushed == s.pushed + [v]
    requires At(s', t + s.cap) == Slot(t + 1, Some(v))
    requires forall p: nat :: t < p < t + s.cap ==> At(s', p) == At(s, p)
    requires forall x :: x != Producer ==> PopOf(s', x) == PopOf(s, x)
    requires PopOf(s, Producer).None? && PopOf(s', Producer).None?
    ensures SlotsOk(s')
  {
    forall p: nat | |s'.pushed| <= p < |s'.pushed| + s'.cap ensures SlotOk(s', p) {
      if p < t + s.cap { assert SlotOk(s, p); }
    }
  }

  lemma AdvanceStep<T>(s: State<T>, v: T, t: nat)
    requires Inv(s) && (s.prod == Advance(v, t) || s.prod == Count(v))
    ensures Inv(ProdNext(s))
  {
    var s' := ProdNext(s);
    SameHolds(s, s', Producer);
    assert Log(s', Producer) == Log(s, Producer);
  }

  lemma ProdInv<T>(s: State<T>)
    requires Inv(s) && !s.prod.Idle?
    ensures Inv(ProdNext(s))
  {
    match s.prod
    case LoadTail(v) => ProdQuiet(s, Check(v, s.tail));
    case Check(v, t) => CheckStep(s, v, t);
    case Write(v, t) => WriteStep(s, v, t);
    case Publish(v, t) => PublishStep(s, v, t);
    case Advance(v, t) => AdvanceStep(s, v, t);
    case Evict(_, _) => PopInv(s, Producer);
    case Count(v) => AdvanceStep(s, v, 0);
  }

  /** Entering a call changes nothing but the caller's program counter. */
  lemma StartPushInv<T>(s: State<T>, v: T)
    requires Inv(s) && s.prod.Idle?
    ensures Inv(Step(s, StartPush(v)))
  {
    var s' := Step(s, StartPush(v));
    assert Log(s', Producer) == Log(s, Producer);
    SameHolds(s, s', Producer);
  }

  lemma StartPopInv<T>(s: State<T>, i: nat)
    requires Inv(s) && i !in s.pops
    ensures Inv(Step(s, StartPop(i)))
  {
    var s' := Step(s, StartPop(i));
    assert Log(s', Producer) == Log(s, Producer);
    SameHolds(s, s', Claimant(i));
  }

  /** Every action keeps the invariant. */
  lemma StepInv<T>(s: State<T>, a: Action<T>)
    requires Inv(s)
    ensures Inv(Step(s, a))
  {
    if Enabled(s, a) {
      match a
      case StartPush(v) => StartPushInv(s, v);
      case ProdStep => ProdInv(s);
      case StartPop(i) => StartPopInv(s, i);
      case PopStep(i) => PopInv(s, Claimant(i));
    }
  }

  /** Every reachable state satisfies the invariant. */
  lemma {:induction false} ExecInv<T>(s: State<T>, run: seq<Action<T>>)
    requires Inv(s)
    ensures Inv(Exec(s, run))
    decreases |run|
  {
    if run == [] {
    } else {
      StepInv(s, run[0]);
      ExecInv(Step(s, run[0]), run[1..]);
    }
  }
}
