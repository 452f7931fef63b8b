/**
 The ring and the buffer pool as objects, run by one goroutine at a time.

 Each method performs the source's accesses on real slots, and beside every access it performs the
 matching step of `RingSteps` on the ghost field `st`.  So the code of `tryPush`, `pop` and `Push`
 is one run of the step machine, and what is proved of that machine holds of this code.
 */
module RingBuffer {
  import opened Wrappers
  import opened RingSteps
  import opened RingInvariant
  import opened RingTheorems

  predicate PowerOfTwo(n: int) {
    n > 0 && (n == 1 || (n % 2 == 0 && PowerOfTwo(n / 2)))
  }

  function PowTwo(k: nat): nat {
    if k == 0 then 1 else 2 * PowTwo(k - 1)
  }

  lemma {:induction false} PowerOfTwoMeans(n: int)
    ensures PowerOfTwo(n) <==> exists k: nat :: n == PowTwo(k)
    decreases if n > 0 then n else 0
  {
    if n <= 0 {
      forall k: nat ensures n != PowTwo(k) { PowTwoPositive(k); }
    } else if n == 1 {
      assert n == PowTwo(0);
    } else {
      PowerOfTwoMeans(n / 2);
      if PowerOfTwo(n) {
        var k: nat :| n / 2 == PowTwo(k);
        assert n == PowTwo(k + 1);
      }
      forall k: nat | n == PowTwo(k) ensures PowerOfTwo(n) {
        assert n / 2 == PowTwo(k - 1);
      }
    }
  }

  lemma {:induction false} PowTwoPositive(k: nat)
    ensures PowTwo(k) > 0
  {
    if k == 0 {
    } else {
      PowTwoPositive(k - 1);
    }
  }

  /** A Push onto a ring of capacity `cap` holding `q`. */
  function Pushed<T>(q: seq<T>, v: T, cap: nat, policy: Policy): (r: seq<T>)
    ensures |q| < cap ==> r == q + [v]
  {
    if |q| < cap then q + [v]
    else if policy.Reject? || q == [] then q
    else q[1..] + [v]
  }

  function PushedAll<T>(q: seq<T>, vs: seq<T>, cap: nat, policy: Policy): seq<T> {
    if vs == [] then q else Pushed(PushedAll(q, vs[..|vs| - 1], cap, policy), vs[|vs| - 1], cap, policy)
  }

  /** How many of the pushes of `vs` onto `q` evicted something. */
  function EvictedBy<T>(q: seq<T>, vs: seq<T>, cap: nat): nat {
    if vs == [] then 0
    else
      EvictedBy(q, vs[..|vs| - 1], cap) +
      (if |PushedAll(q, vs[..|vs| - 1], cap, DropOldest)| == cap then 1 else 0)
  }

  /** The last `cap` elements. */
  function Newest<T>(q: seq<T>, cap: nat): seq<T> {
    if |q| <= cap then q else q[|q| - cap..]
  }

  /** With nobody popping, a run of pushes keeps exactly the newest `cap` elements, in order. */
  lemma {:induction false} KeepsNewest<T>(q: seq<T>, vs: seq<T>, cap: nat)
    requires 1 <= cap && |q| <= cap
    ensures PushedAll(q, vs, cap, DropOldest) == Newest(q + vs, cap)
    ensures EvictedBy(q, vs, cap) == (if |q| + |vs| <= cap then 0 else |q| + |vs| - cap)
  {
    if vs == [] {
      assert q + vs == q;
    } else {
      var front := vs[..|vs| - 1];
      KeepsNewest(q, front, cap);
      assert q + vs == (q + front) + [vs[|vs| - 1]];
      Shift(q + front, vs[|vs| - 1], cap);
    }
  }

  lemma Shift<T>(q: seq<T>, v: T, cap: nat)
    requires 1 <= cap
    ensures Newest(q + [v], cap) == Pushed(Newest(q, cap), v, cap, DropOldest)
  {
  }

  class Ring<T> {
    const cap: nat
    const policy: Policy
    const stamps: array<nat>
    const vals: array<Option<T>>
    var tail: nat
    var head: nat
    var dropped: nat
    ghost var st: State<T>

    /** The slots and cursors are the shared memory of the step machine. */
    ghost predicate Coupled()
      reads this, stamps, vals
    {
      && WF(st) && st.cap == cap && st.policy == policy
      && stamps.Length == cap && vals.Length == cap
      && (forall i :: 0 <= i < cap ==> st.slots[i] == Slot(stamps[i], vals[i]))
      && tail == st.tail && head == st.head && dropped == st.dropped
    }

    /** No call is in progress. */
    ghost predicate Valid()
      reads this, stamps, vals
    {
      Coupled() && Inv(st) && st.prod.Idle? && st.pops == map[]
    }

    ghost function Contents(): (q: seq<T>)
      reads this
    {
      Queue(st)
    }

    constructor Make(capacity: nat, policy: Policy)
      requires capacity >= 1
      ensures fresh(stamps) && fresh(vals)
      ensures Coupled() && st == Init<T>(capacity, policy)
    {
      cap := capacity;
      this.policy := policy;
      stamps := new nat[capacity](i => i);
      vals := new Option<T>[capacity](_ => None);
      tail, head, dropped := 0, 0, 0;
      st := Init<T>(capacity, policy);
    }

    /** Refuses what is not a positive power of two; capacity one passes, though it is not sound. */
    static method New(capacity: int, policy: Policy) returns (r: Option<Ring<T>>)
      ensures r.Some? <==> exists k: nat :: capacity == PowTwo(k)
      ensures r.Some? ==> capacity >= 1
      ensures r.Some? ==> fresh(r.value) && fresh(r.value.stamps) && fresh(r.value.vals)
      ensures r.Some? ==> r.value.cap == capacity && r.value.policy == policy && r.value.Contents() == []
      ensures r.Some? && capacity >= 2 ==> r.value.Valid()
    {
      PowerOfTwoMeans(capacity);
      if !PowerOfTwo(capacity) {
        return None;
      }
      var ring := new Ring<T>.Make(capacity, policy);
      if capacity >= 2 {
        InitInv<T>(capacity, policy);
      }
      r := Some(ring);
    }

    // The accesses of `Push`, one atomic step each

    method LoadTailOnce() returns (t: nat)
      requires Coupled() && Inv(st) && st.prod.LoadTail?
      modifies this`st
      ensures Coupled() && Inv(st) && t == tail
      ensures st.prod == Check(old(st.prod.v), t) && st.pops == old(st.pops) && Contents() == old(Contents())
    {
      t := tail;
      ProdInv(st);
      st := ProdNext(st);
    }

    /** `free` says whether the slot's stamp is `t`; with nobody in flight that means there is room. */
    method LoadStampOnce(t: nat) returns (free: bool)
      requires Coupled() && Inv(st) && st.prod.Check? && st.prod.t == t && st.pops == map[]
      modifies this`st
      ensures Coupled() && Inv(st) && st.pops == map[] && Contents() == old(Contents())
      ensures free == (|Contents()| < cap)
      ensures st.prod == (if free then Write(old(st.prod.v), t) else if policy.Reject? then Idle else Evict(old(st.prod.v), LoadHead))
    {
      free := stamps[SlotIndex(t, cap)] == t;
      SoloStamp(st, t);
      ProdInv(st);
      st := ProdNext(st);
    }

    method WriteOnce(v: T, t: nat)
      requires Coupled() && Inv(st) && st.prod == Write(v, t)
      modifies this`st, vals
      ensures Coupled() && Inv(st)
      ensures st.prod == Publish(v, t) && st.pops == old(st.pops) && Contents() == old(Contents())
    {
      vals[SlotIndex(t, cap)] := Some(v);
      ProdInv(st);
      st := ProdNext(st);
    }

    method PublishOnce(v: T, t: nat)
      requires Coupled() && Inv(st) && st.prod == Publish(v, t)
      modifies this`st, stamps
      ensures Coupled() && Inv(st)
      ensures st.prod == Advance(v, t) && st.pops == old(st.pops) && Contents() == old(Contents()) + [v]
    {
      stamps[SlotIndex(t, cap)] := t + 1;
      ProdInv(st);
      st := ProdNext(st);
    }

    method AdvanceOnce(v: T, t: nat)
      requires Coupled() && Inv(st) && st.prod == Advance(v, t)
      modifies this`st, this`tail
      ensures Coupled() && Inv(st)
      ensures st.prod == Idle && st.pops == old(st.pops) && Contents() == old(Contents())
    {
      tail := t + 1;
      ProdInv(st);
      st := ProdNext(st);
    }

    method TryPush(v: T) returns (ok: bool)
      requires Coupled() && Inv(st) && st.prod == LoadTail(v) && st.pops == map[]
      modifies this`tail, this`st, stamps, vals
      ensures Coupled() && Inv(st) && st.pops == map[]
      ensures ok == (|old(Contents())| < cap)
      ensures ok ==> st.prod.Idle? && Contents() == old(Contents()) + [v]
      ensures !ok ==> st.prod == (if policy.Reject? then Idle else Evict(v, LoadHead)) && Contents() == old(Contents())
    {
      var t := LoadTailOnce();
      ok := LoadStampOnce(t);
      if ok {
        WriteOnce(v, t);
        PublishOnce(v, t);
        AdvanceOnce(v, t);
      }
    }
  
    // The accesses of `pop`, one atomic step each

    /** The thread stands at `pc` and nobody else is inside `pop`. */
    ghost predicate Alone(w: Who, pc: PopPc<T>)
      reads this, stamps, vals
    {
      && Coupled() && Inv(st)
      && match w
         case Producer => st.prod.Evict? && st.prod.pop == pc && st.pops == map[]
         case Claimant(i) => st.prod.Idle? && st.pops == map[i := pc]
    }

    /** An evicting producer keeps the value it is pushing. */
    static ghost predicate SameItem(s: State<T>, s': State<T>) {
      s.prod.Evict? ==> s'.prod.Evict? && s'.prod.v == s.prod.v
    }

    method LoadHeadOnce(ghost w: Who) returns (h: nat)
      requires Alone(w, LoadHead)
      modifies this`st
      ensures Alone(w, LoadStamp(h)) && SameItem(old(st), st) && h == head && Contents() == old(Contents())
    {
      h := head;
      PopInv(st, w);
      st := PopNext(st, w);
    }

    method CasOnce(h: nat, ghost w: Who) returns (won: bool)
      requires Alone(w, Cas(h)) && h == head
      modifies this`st, this`head
      ensures won && Alone(w, ReadVal(h)) && SameItem(old(st), st) && old(Contents()) != [] && Contents() == old(Contents())[1..]
      ensures st.pushed == old(st.pushed) && h < |st.pushed| && old(Contents())[0] == st.pushed[h]
    {
      won := head == h;
      if won {
        head := h + 1;
      }
      assert PopOk(st, w);
      PopInv(st, w);
      st := PopNext(st, w);
    }

    method ReadOnce(h: nat, ghost w: Who) returns (v: Option<T>)
      requires Alone(w, ReadVal(h))
      modifies this`st
      ensures Alone(w, ClearVal(h, v)) && SameItem(old(st), st) && Contents() == old(Contents())
      ensures st.pushed == old(st.pushed) && h < |st.pushed| && v == Some(st.pushed[h])
    {
      v := vals[SlotIndex(h, cap)];
      HeldSlot(st, w, h);
      PopInv(st, w);
      st := PopNext(st, w);
    }

    method ClearOnce(h: nat, ghost v: Option<T>, ghost w: Who)
      requires Alone(w, ClearVal(h, v))
      modifies this`st, vals
      ensures Alone(w, Release(h, v)) && SameItem(old(st), st) && Contents() == old(Contents())
    {
      vals[SlotIndex(h, cap)] := None;
      PopInv(st, w);
      st := PopNext(st, w);
    }

    method ReleaseOnce(h: nat, ghost v: Option<T>, ghost w: Who)
      requires Alone(w, Release(h, v))
      modifies this`st, stamps
      ensures Coupled() && Inv(st) && st.pops == map[] && Contents() == old(Contents())
      ensures st.prod == if w.Producer? then Count(old(st.prod.v)) else Idle
    {
      stamps[SlotIndex(h, cap)] := h + cap;
      PopInv(st, w);
      st := PopNext(st, w);
    }

    /** What the stamp of a freshly loaded head says when nobody else is inside `pop`. */
    method LoadHeadStampOnce(h: nat, ghost w: Who) returns (stamp: nat)
      requires Alone(w, LoadStamp(h)) && h == head
      modifies this`st
      ensures Coupled() && Inv(st) && Contents() == old(Contents()) && stamp <= h + 1
      ensures stamp == h + 1 ==> Alone(w, Cas(h)) && SameItem(old(st), st) && Contents() != []
      ensures stamp < h + 1 ==> Contents() == [] && st.pops == map[]
      ensures stamp < h + 1 ==> st.prod == if w.Producer? then LoadTail(old(st.prod.v)) else Idle
    {
      stamp := stamps[SlotIndex(h, cap)];
      StampAtHead(st, h);
      PopInv(st, w);
      st := PopNext(st, w);
    }

    /** `pop`, shared by `Pop` and by the evicting producer. */
    method PopAs(ghost w: Who) returns (r: Option<T>)
      requires Alone(w, LoadHead)
      modifies this`head, this`st, stamps, vals
      ensures Coupled() && Inv(st) && st.pops == map[]
      ensures if old(Contents()) == [] then r == None && Contents() == []
              else r == Some(old(Contents())[0]) && Contents() == old(Contents())[1..]
      ensures st.prod == if w.Claimant? then Idle else if r.Some? then Count(old(st.prod.v)) else LoadTail(old(st.prod.v))
    {
      var looping := true;
      r := None;
      ghost var q := Contents();
      ghost var p := st.prod;
      while looping
        invariant looping ==> Alone(w, LoadHead) && Contents() == q && st.prod == p && r == None
        invariant !looping ==> Coupled() && Inv(st) && st.pops == map[]
        invariant !looping ==> if q == [] then r == None && Contents() == [] else r == Some(q[0]) && Contents() == q[1..]
        invariant !looping ==>
          st.prod == if w.Claimant? then Idle else if r.Some? then Count(p.v) else LoadTail(p.v)
        decreases looping
      {
        var h := LoadHeadOnce(w);
        var stamp := LoadHeadStampOnce(h, w);
        if stamp < h + 1 {
          looping := false;
        } else if stamp > h + 1 {
          assert false;
        } else {
          var won := CasOnce(h, w);
          if won {
            r := ReadOnce(h, w);
            ClearOnce(h, r, w);
            ReleaseOnce(h, r, w);
            looping := false;
          } else {
            assert false;
          }
        }
      }
    }

    method Pop() returns (r: Option<T>)
      requires Valid()
      modifies this`head, this`st, stamps, vals
      ensures Valid()
      ensures if old(Contents()) == [] then r == None && Contents() == []
              else r == Some(old(Contents())[0]) && Contents() == old(Contents())[1..]
    {
      StepInv(st, StartPop(0));
      st := Step(st, StartPop(0));
      r := PopAs(Claimant(0));
    }

    method CountOnce()
      requires Coupled() && Inv(st) && st.prod.Count? && st.pops == map[]
      modifies this`dropped, this`st
      ensures Coupled() && Inv(st) && st.pops == map[] && st.prod == LoadTail(old(st.prod.v))
      ensures Contents() == old(Contents()) && dropped == old(dropped) + 1
    {
      dropped := dropped + 1;
      ProdInv(st);
      st := ProdNext(st);
    }

    /** The producer pops the oldest element and counts it. */
    method EvictOnce()
      requires Alone(Producer, LoadHead) && Contents() != []
      modifies this`head, this`dropped, this`st, stamps, vals
      ensures Coupled() && Inv(st) && st.pops == map[] && st.prod == LoadTail(old(st.prod.v))
      ensures Contents() == old(Contents())[1..] && dropped == old(dropped) + 1
    {
      var victim := PopAs(Producer);
      if victim.Some? {
        CountOnce();
      }
    }

    method Push(v: T) returns (ok: bool)
      requires Valid()
      modifies this, stamps, vals
      ensures Valid()
      ensures ok == (policy.DropOldest? || |old(Contents())| < cap)
      ensures Contents() == Pushed(old(Contents()), v, cap, policy)
      ensures dropped == old(dropped) + if policy.DropOldest? && |old(Contents())| == cap then 1 else 0
    {
      StepInv(st, StartPush(v));
      st := Step(st, StartPush(v));
      ok := TryPush(v);
      if ok || policy.Reject? {
        return;
      }
      ghost var q := old(Contents());
      while !ok
        invariant Coupled() && Inv(st) && st.pops == map[]
        invariant !ok ==> st.prod == Evict(v, LoadHead) && Contents() == q && |q| == cap && dropped == old(dropped)
        invariant ok ==> st.prod.Idle? && Contents() == q[1..] + [v] && |q| == cap && dropped == old(dropped) + 1
        decreases !ok
      {
        EvictOnce();
        ok := TryPush(v);
      }
    }

    /** Pushes one after the other with nobody popping: the newest stay, in order, the rest is counted. */
    method PushAll(vs: seq<T>)
      requires Valid() && policy.DropOldest?
      modifies this, stamps, vals
      ensures Valid() && Contents() == Newest(old(Contents()) + vs, cap)
      ensures dropped == old(dropped) + var n := |old(Contents())| + |vs|; if n <= cap then 0 else n - cap
    {
      ghost var q := Contents();
      InvSound(st);
      for i := 0 to |vs|
        invariant Valid() && Contents() == PushedAll(q, vs[..i], cap, DropOldest)
        invariant dropped == old(dropped) + EvictedBy(q, vs[..i], cap)
      {
        var ok := Push(vs[i]);
        assert vs[..i + 1][..i] == vs[..i];
      }
      assert vs[..|vs|] == vs;
      KeepsNewest(q, vs, cap);
    }

    /** Exact when no call is in progress; what it means otherwise is said by `LenSnapshot`. */
    method Len() returns (n: int)
      requires Valid()
      ensures n == |Contents()|
      ensures n == Snapshot(tail, head, cap)
    {
      if tail < head {
        return 0;
      }
      n := if tail - head <= cap then tail - head else cap;
    }
  }

  /** With nobody inside `pop`, the stamp says exactly whether there is room. */
  lemma SoloStamp<T>(s: State<T>, t: nat)
    requires Inv(s) && s.prod.Check? && s.prod.t == t && s.pops == map[]
    ensures At(s, t).stamp == t <==> |Queue(s)| < s.cap
  {
    assert SlotOk(s, t);
  }

  /** The ring with its doorbell, a channel of capacity one. */
  class AudioEdge<T> {
    const ring: Ring<T>
    var bell: bool

    constructor (ring: Ring<T>)
      ensures this.ring == ring && !bell
    {
      this.ring := ring;
      bell := false;
    }

    /** A push that is kept rings the bell; an unread token stays. */
    method Push(v: T) returns (ok: bool)
      requires ring.Valid()
      modifies this, ring, ring.stamps, ring.vals
      ensures ring.Valid() && ring.Contents() == Pushed(old(ring.Contents()), v, ring.cap, ring.policy)
      ensures ok == (ring.policy.DropOldest? || |old(ring.Contents())| < ring.cap)
      ensures bell == (old(bell) || ok)
    {
      ok := ring.Push(v);
      if ok {
        bell := true;
      }
    }

    /** Empties the ring, reports how many elements that took, and leaves the bell alone. */
    method Drain() returns (n: nat)
      requires ring.Valid()
      modifies ring`head, ring`st, ring.stamps, ring.vals
      ensures ring.Valid() && ring.Contents() == [] && n == |old(ring.Contents())|
    {
      n := 0;
      var more := true;
      while more
        invariant ring.Valid() && n + |ring.Contents()| == |old(ring.Contents())|
        invariant !more ==> ring.Contents() == []
        decreases more, |ring.Contents()|
      {
        var r := ring.Pop();
        more := r.Some?;
        if more {
          n := n + 1;
        }
      }
    }
  }

  /** A byte buffer: its identity and its capacity. */
  datatype Buffer = Buffer(id: nat, cap: nat)

  /** The free list of an audio edge, itself a ring under Reject. */
  class BufferPool {
    const free: Ring<Buffer>
    const size: nat
    var misses: nat
    var made: nat          // how many buffers have been made; gives fresh ones their identity

    ghost predicate Valid()
      reads this, free, free.stamps, free.vals
    {
      free.Valid() && free.policy.Reject?
    }

    constructor Over(ring: Ring<Buffer>, size: nat, count: nat)
      requires ring.Valid() && ring.policy.Reject?
      ensures Valid() && free == ring && this.size == size && misses == 0 && made == count
    {
      free := ring;
      this.size := size;
      misses := 0;
      made := count;
    }

    /** Preallocates `count` buffers, in order. */
    static method New(count: nat, size: nat) returns (r: Option<BufferPool>)
      requires count != 1
      ensures r.Some? <==> exists k: nat :: count == PowTwo(k)
      ensures r.Some? ==> fresh(r.value) && r.value.Valid() && r.value.misses == 0 && r.value.size == size
      ensures r.Some? ==> r.value.free.Contents() == seq(count, i requires 0 <= i => Buffer(i, size))
    {
      var ring := Ring<Buffer>.New(count, Reject);
      if ring.None? {
        return None;
      }
      var free := ring.value;
      for i := 0 to count
        invariant free.Valid() && free.cap == count && free.policy.Reject?
        invariant free.Contents() == seq(i, j requires 0 <= j => Buffer(j, size))
      {
        var _ := free.Push(Buffer(i, size));
      }
      var pool := new BufferPool.Over(free, size, count);
      r := Some(pool);
    }

    /** The oldest free buffer, or a new one counted as a miss. */
    method Get() returns (b: Buffer)
      requires Valid()
      modifies this, free`head, free`st, free.stamps, free.vals
      ensures Valid()
      ensures if old(free.Contents()) != []
              then b == old(free.Contents())[0] && free.Contents() == old(free.Contents())[1..] && misses == old(misses)
              else b == Buffer(old(made), size) && free.Contents() == [] && misses == old(misses) + 1
      ensures made == old(made) + misses - old(misses)
    {
      var r := free.Pop();
      if r.Some? {
        return r.value;
      }
      misses := misses + 1;
      b := Buffer(made, size);
      made := made + 1;
    }

    /** Keeps the buffer unless it is too small or the list is full. */
    method Put(b: Buffer)
      requires Valid()
      modifies free, free.stamps, free.vals
      ensures Valid()
      ensures free.Contents() ==
              if b.cap >= size && |old(free.Contents())| < free.cap then old(free.Contents()) + [b] else old(free.Contents())
    {
      if b.cap < size {
        return;
      }
      var _ := free.Push(b);
    }
  }
}
