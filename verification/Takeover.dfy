/**
 Session takeover: attachments come and go, one read loop at a time.

 `attach` holds the session mutex from its checks until the new read loop is spawned; in between it
 marks the old attachment stale, which its read loop looks at without the mutex, and waits for that
 loop to exit.  `detach` and `close` need the mutex.  Read loops
 step through read, stale check and processing; a STOP frame goes through `reclaim` and `close`.
 The watermark `floor` and the log of ingested frames belong to the session.
 */
module Takeover {
  import opened Wrappers

  datatype Msg = Audio(no: nat) | Stop | Other

  /** Where a read loop stands. */
  datatype ReadPc =
    | Reading
    | Got(m: Msg)        // a frame arrived; the stale flag is to be loaded
    | Passed(m: Msg)     // the attachment was not stale
    | Reclaiming         // about to remove the session from the manager's table
    | Closing            // inside `close`, about to take the mutex
    | Exited

  datatype Att = Att(epoch: nat, stale: bool, pc: ReadPc, writerDone: bool)

  /** The mutex: free, taken by an attach that has yet to mark the old attachment, or that waits for it. */
  datatype Lock = Unlocked | Marking(claim: nat) | Attaching(claim: nat, prior: Option<nat>)

  /** A frame that got past the watermark, and the attachment it came from. */
  datatype Entry = Entry(att: nat, no: nat)

  datatype Sess = Sess(
    epoch: nat,
    closed: bool,
    listed: bool,           // still in the manager's table
    closers: nat,           // other goroutines between `reclaim` and `close`
    lock: Lock,
    cur: Option<nat>,
    atts: seq<Att>,
    floor: nat,
    ingested: seq<Entry>,   // history
    dups: nat,
    staleFrames: nat,
    controls: nat)          // history: other frames dealt with

  datatype Action =
    | AttachBegin(claim: nat)
    | AttachMark
    | AttachEnd
    | Detach(i: nat)
    | WriterExit(i: nat)
    | Reclaim
    | Close
    | Read(i: nat, m: Msg)
    | ReadFail(i: nat)
    | ReaderStep(i: nat)

  function Init(): Sess {
    Sess(0, false, true, 0, Unlocked, None, [], 0, [], 0, 0, 0)
  }

  predicate HasExited(s: Sess, i: nat) {
    i < |s.atts| && s.atts[i].pc.Exited?
  }

  predicate Enabled(s: Sess, a: Action) {
    match a
    case AttachBegin(_) => s.lock.Unlocked?
    case AttachMark => s.lock.Marking?
    case AttachEnd => s.lock.Attaching? && (s.lock.prior.Some? ==> HasExited(s, s.lock.prior.value))
    case Detach(i) => s.lock.Unlocked? && HasExited(s, i) && s.atts[i].writerDone
    case WriterExit(i) => i < |s.atts|
    case Reclaim => s.listed
    case Close => s.closers > 0 && s.lock.Unlocked?
    case Read(i, _) => i < |s.atts| && s.atts[i].pc.Reading?
    case ReadFail(i) => i < |s.atts| && s.atts[i].pc.Reading?
    case ReaderStep(i) =>
      i < |s.atts| &&
      match s.atts[i].pc
      case Reading => false
      case Exited => false
      case Closing => s.lock.Unlocked?
      case _ => true
  }

  function SetPc(s: Sess, i: nat, pc: ReadPc): Sess
    requires i < |s.atts|
  {
    s.(atts := s.atts[i := s.atts[i].(pc := pc)])
  }

  /** `advanceFloor`: a frame is taken only above the watermark, which it then becomes. */
  function Ingest(s: Sess, i: nat, no: nat): Sess {
    if no <= s.floor then s.(dups := s.dups + 1)
    else s.(floor := no, ingested := s.ingested + [Entry(i, no)])
  }

  function ReaderNext(s: Sess, i: nat): Sess
    requires i < |s.atts|
  {
    match s.atts[i].pc
    case Got(m) =>
      if s.atts[i].stale then SetPc(s, i, Reading).(staleFrames := s.staleFrames + 1) else SetPc(s, i, Passed(m))
    case Passed(Audio(no)) => Ingest(SetPc(s, i, Reading), i, no)
    case Passed(Stop) => SetPc(s, i, Reclaiming).(controls := s.controls + 1)
    case Passed(Other) => SetPc(s, i, Reading).(controls := s.controls + 1)
    case Reclaiming => if s.listed then SetPc(s, i, Closing).(listed := false) else SetPc(s, i, Exited)
    case Closing => SetPc(s, i, Exited).(closed := true)
    case _ => s
  }

  function Step(s: Sess, a: Action): Sess {
    if !Enabled(s, a) then s else
    match a
    case AttachBegin(claim) => if s.closed || claim <= s.epoch then s else s.(lock := Marking(claim))
    case AttachMark =>
      if s.cur.Some? && s.cur.value < |s.atts| then
        s.(atts := s.atts[s.cur.value := s.atts[s.cur.value].(stale := true)], lock := Attaching(s.lock.claim, s.cur))
      else s.(lock := Attaching(s.lock.claim, None))
    case AttachEnd =>
      s.(epoch := s.lock.claim, atts := s.atts + [Att(s.lock.claim, false, Reading, false)], cur := Some(|s.atts|), lock := Unlocked)
    case Detach(i) => if s.cur == Some(i) then s.(cur := None) else s
    case WriterExit(i) => s.(atts := s.atts[i := s.atts[i].(writerDone := true)])
    case Reclaim => s.(listed := false, closers := s.closers + 1)
    case Close => s.(closed := true, closers := s.closers - 1)
    case Read(i, m) => SetPc(s, i, Got(m))
    case ReadFail(i) => SetPc(s, i, Exited)
    case ReaderStep(i) => ReaderNext(s, i)
  }

  function Exec(s: Sess, run: seq<Action>): Sess
    decreases |run|
  {
    if run == [] then s else Exec(Step(s, run[0]), run[1..])
  }

  // ---------------------------------------------------------------------------
  // Invariant

  predicate Running(s: Sess, i: int) {
    0 <= i < |s.atts| && !s.atts[i].pc.Exited?
  }

  /** Only the current attachment, which is the newest, may have a live read loop. */
  predicate OneReader(s: Sess) {
    && (s.cur.Some? ==> s.cur.value + 1 == |s.atts|)
    && (forall i :: 0 <= i < |s.atts| && !s.atts[i].pc.Exited? ==> s.cur == Some(i))
  }

  predicate Epochs(s: Sess) {
    && (forall i, j :: 0 <= i < j < |s.atts| ==> s.atts[i].epoch < s.atts[j].epoch)
    && (forall i :: 0 <= i < |s.atts| ==> s.atts[i].epoch <= s.epoch)
    && (|s.atts| > 0 ==> s.atts[|s.atts| - 1].epoch == s.epoch)
  }

  /** The attach in progress is a newer one on an open session; the current attachment is stale once it is marked. */
  predicate LockOk(s: Sess) {
    && (!s.lock.Unlocked? ==> s.lock.claim > s.epoch && !s.closed)
    && (s.lock.Attaching? ==> s.lock.prior == s.cur)
    && (s.cur.Some? && s.cur.value < |s.atts| ==> s.atts[s.cur.value].stale == s.lock.Attaching?)
  }

  /** Ingested numbers strictly increase up to the watermark, and attachments never go back. */
  predicate LogOk(s: Sess) {
    var l := s.ingested;
    && (forall i, j :: 0 <= i < j < |l| ==> l[i].no < l[j].no && l[i].att <= l[j].att)
    && (forall i :: 0 <= i < |l| ==> l[i].no <= s.floor && l[i].att < |s.atts|)
  }

  predicate Inv(s: Sess) {
    OneReader(s) && Epochs(s) && LockOk(s) && LogOk(s)
  }

  /** Moving one read loop that is alive keeps everything but the log, which it may extend. */
  lemma PcInv(s: Sess, i: nat, pc: ReadPc)
    requires Inv(s) && i < |s.atts| && !s.atts[i].pc.Exited?
    ensures Inv(SetPc(s, i, pc))
  {
  }

  lemma IngestInv(s: Sess, i: nat, no: nat)
    requires Inv(s) && i + 1 == |s.atts|
    ensures Inv(Ingest(s, i, no))
  {
  }

  lemma ControlInv(s: Sess, i: nat, pc: ReadPc)
    requires Inv(s) && i < |s.atts| && !s.atts[i].pc.Exited?
    ensures Inv(SetPc(s, i, pc).(controls := s.controls + 1))
  {
    PcInv(s, i, pc);
  }

  lemma AudioInv(s: Sess, i: nat, no: nat)
    requires Inv(s) && i < |s.atts| && !s.atts[i].pc.Exited?
    ensures Inv(Ingest(SetPc(s, i, Reading), i, no))
  {
    PcInv(s, i, Reading);
    IngestInv(SetPc(s, i, Reading), i, no);
  }

  lemma PassedInv(s: Sess, i: nat)
    requires Inv(s) && i < |s.atts| && s.atts[i].pc.Passed?
    ensures Inv(ReaderNext(s, i))
  {
    match s.atts[i].pc.m
    case Audio(no) => AudioInv(s, i, no);
    case Stop => ControlInv(s, i, Reclaiming);
    case Other => ControlInv(s, i, Reading);
  }

  lemma ReaderInv(s: Sess, i: nat)
    requires Inv(s) && Enabled(s, ReaderStep(i))
    ensures Inv(ReaderNext(s, i))
  {
    if s.atts[i].pc.Passed? {
      PassedInv(s, i);
    } else {
      PcInv(s, i, ReaderNext(s, i).atts[i].pc);
    }
  }

  lemma AttachInv(s: Sess, a: Action)
    requires Inv(s) && (a.AttachBegin? || a.AttachMark? || a.AttachEnd?)
    ensures Inv(Step(s, a))
  {
  }

  /** Steps that move no read loop. */
  lemma StillInv(s: Sess, a: Action)
    requires Inv(s) && Enabled(s, a) && (a.Detach? || a.WriterExit? || a.Reclaim? || a.Close?)
    ensures Inv(Step(s, a))
  {
  }

  lemma ReadInv(s: Sess, a: Action)
    requires Inv(s) && Enabled(s, a) && (a.Read? || a.ReadFail?)
    ensures Inv(Step(s, a))
  {
    PcInv(s, a.i, if a.Read? then Got(a.m) else Exited);
  }

  lemma StepInv(s: Sess, a: Action)
    requires Inv(s)
    ensures Inv(Step(s, a))
  {
    if Enabled(s, a) {
      if a.AttachBegin? || a.AttachMark? || a.AttachEnd? {
        AttachInv(s, a);
      } else if a.Read? || a.ReadFail? {
        ReadInv(s, a);
      } else if a.ReaderStep? {
        ReaderInv(s, a.i);
      } else {
        StillInv(s, a);
      }
    }
  }

  lemma InitInv()
    ensures Inv(Init()) && !InHand(Init())
  {
  }

  lemma {:induction false} ExecInv(s: Sess, run: seq<Action>)
    requires Inv(s)
    ensures Inv(Exec(s, run))
    decreases |run|
  {
    if run == [] {
    } else {
      StepInv(s, run[0]);
      ExecInv(Step(s, run[0]), run[1..]);
    }
  }

  /**
   The watermark as the read loop advances it, with the source's compare-and-swap loop.  Before each
   access another caller may have raised it; `rivals` counts how often, `own` the claims of this one.
   */
  class Watermark {
    var floor: nat
    ghost var rivals: nat
    ghost var own: nat

    constructor ()
      ensures floor == 0 && rivals == 0 && own == 0
    {
      floor, rivals, own := 0, 0, 0;
    }

    /** The mark only rises. */
    twostate predicate Raised()
      reads this
    {
      && floor >= old(floor) && rivals >= old(rivals)
      && (rivals == old(rivals) ==> floor == old(floor))
      && (rivals > old(rivals) ==> floor > old(floor))
    }

    method Others()
      modifies this`floor, this`rivals
      ensures Raised()
    {
      var up: nat :| true;
      if up > 0 {
        floor, rivals := floor + up, rivals + 1;
      }
    }

    method Load() returns (cur: nat)
      modifies this`floor, this`rivals
      ensures Raised() && cur == floor
    {
      Others();
      cur := floor;
    }

    /** Succeeds exactly when nobody raised the mark since it was `was`. */
    method CompareAndSwap(was: nat, next: nat) returns (ok: bool)
      requires was == floor
      modifies this
      ensures ok <==> rivals == old(rivals)
      ensures ok ==> floor == next && own == old(own) + 1
      ensures !ok ==> Raised() && own == old(own)
    {
      Others();
      ok := floor == was;
      if ok {
        floor, own := next, own + 1;
      }
    }

    /**
     Claims `no` at most once and only above the mark; undisturbed, exactly when it is above the mark,
     which it then becomes.  A lost swap is retried, and a frame is refused only below the mark.
     */
    method Advance(no: nat) returns (news: bool)
      modifies this
      ensures own == old(own) + if news then 1 else 0
      ensures if news then floor == no > old(floor) else floor >= no && floor >= old(floor)
      ensures rivals == old(rivals) ==> news == (no > old(floor)) && floor == if no > old(floor) then no else old(floor)
    {
      var done := false;
      news := false;
      while !done
        invariant own == old(own) + if news then 1 else 0
        invariant rivals >= old(rivals)
        invariant !done ==> !news && floor >= old(floor) && (rivals == old(rivals) ==> floor == old(floor))
        invariant done ==> if news then floor == no > old(floor) else floor >= no && floor >= old(floor)
        invariant done && rivals == old(rivals) ==> news == (no > old(floor)) && (!news ==> floor == old(floor))
        decreases !done, if no > floor then no - floor else 0
      {
        var cur := Load();
        if no <= cur {
          done := true;
        } else {
          var ok := CompareAndSwap(cur, no);
          if ok {
            news, done := true, true;
          }
        }
      }
    }
  }

  // ---------------------------------------------------------------------------
  // The fence

  /** At most one read loop is alive, and it is that of the newest attachment, at the current epoch. */
  lemma TakeoverFence(run: seq<Action>)
    ensures var s := Exec(Init(), run);
      && (forall i, j :: Running(s, i) && Running(s, j) ==> i == j)
      && (forall i :: Running(s, i) ==> s.cur == Some(i) && i + 1 == |s.atts| && s.atts[i].epoch == s.epoch)
      && (forall i, j :: 0 <= i < j < |s.atts| ==> s.atts[i].epoch < s.atts[j].epoch)
      && (forall i, j :: 0 <= i < j < |s.ingested| ==>
            s.ingested[i].no < s.ingested[j].no && s.ingested[i].att <= s.ingested[j].att)
  {
    ExecInv(Init(), run);
  }

  /**
   An accepted attach raises the epoch and marks what it replaces; and a frame is ingested only from
   the newest attachment ever started, so none of an older epoch gets in after a newer reader starts.
   */
  lemma StepFence(run: seq<Action>, a: Action)
    ensures var s := Exec(Init(), run); var s' := Step(s, a);
      && s'.epoch >= s.epoch
      && (|s'.atts| > |s.atts| ==> !s.closed && s'.epoch > s.epoch && forall i :: 0 <= i < |s.atts| ==> s.atts[i].pc.Exited?)
      && IngestsNewest(s, s')
  {
    ExecInv(Init(), run);
    AttachFence(Exec(Init(), run), a);
    IngestFence(Exec(Init(), run), a);
  }

  lemma AttachFence(s: Sess, a: Action)
    requires Inv(s)
    ensures Step(s, a).epoch >= s.epoch
    ensures |Step(s, a).atts| > |s.atts| ==>
      !s.closed && Step(s, a).epoch > s.epoch && forall i :: 0 <= i < |s.atts| ==> s.atts[i].pc.Exited?
  {
    if !a.AttachEnd? {
      SameAttachments(s, a);
    }
  }

  lemma SameAttachments(s: Sess, a: Action)
    requires !a.AttachEnd?
    ensures |Step(s, a).atts| == |s.atts| && Step(s, a).epoch == s.epoch
  {
  }

  /** If the log grew, it is by one frame of the newest attachment, above the watermark it becomes. */
  predicate IngestsNewest(s: Sess, s': Sess) {
    s'.ingested != s.ingested ==>
      && |s.atts| > 0 && s.atts[|s.atts| - 1].epoch == s.epoch
      && s'.floor > s.floor && s'.ingested == s.ingested + [Entry(|s.atts| - 1, s'.floor)]
  }

  lemma IngestFence(s: Sess, a: Action)
    requires Inv(s)
    ensures IngestsNewest(s, Step(s, a))
  {
  }

  // ---------------------------------------------------------------------------
  // What becomes of a frame

  /** A read loop is alive with a frame in its hand. */
  predicate InHand(s: Sess) {
    s.cur.Some? && s.cur.value < |s.atts| && (s.atts[s.cur.value].pc.Got? || s.atts[s.cur.value].pc.Passed?)
  }

  /** How many frames the run reads. */
  function Reads(s: Sess, run: seq<Action>): nat
    decreases |run|
  {
    if run == [] then 0
    else (if run[0].Read? && Enabled(s, run[0]) then 1 else 0) + Reads(Step(s, run[0]), run[1..])
  }

  /** The frames accounted for: ingested, dropped as duplicate or stale, dealt with, or in hand. */
  function Fates(s: Sess): nat {
    |s.ingested| + s.dups + s.staleFrames + s.controls + if InHand(s) then 1 else 0
  }

  lemma ReaderFates(s: Sess, i: nat)
    requires OneReader(s) && Enabled(s, ReaderStep(i))
    ensures Fates(ReaderNext(s, i)) == Fates(s)
  {
  }

  lemma StepFates(s: Sess, a: Action)
    requires Inv(s)
    ensures Fates(Step(s, a)) == Fates(s) + if a.Read? && Enabled(s, a) then 1 else 0
  {
    if a.ReaderStep? && Enabled(s, a) {
      ReaderFates(s, a.i);
    }
  }

  lemma {:induction false} RunFates(s: Sess, run: seq<Action>)
    requires Inv(s)
    ensures Fates(Exec(s, run)) == Fates(s) + Reads(s, run)
    decreases |run|
  {
    if run == [] {
    } else {
      StepInv(s, run[0]);
      StepFates(s, run[0]);
      RunFates(Step(s, run[0]), run[1..]);
    }
  }

  /**
   Over every run each frame that was read is ingested, counted as duplicate, counted as stale, dealt
   with as a control frame, or still in the hand of the one live read loop.
   */
  lemma EveryFrameHasAFate(run: seq<Action>)
    ensures Fates(Exec(Init(), run)) == Reads(Init(), run)
  {
    InitInv();
    RunFates(Init(), run);
  }

  /**
   What two steps of its read loop make of an audio frame that has just arrived: on a stale attachment
   it is only counted; otherwise it is ingested exactly when it is above the watermark, and else
   counted as a duplicate.
   */
  lemma AudioFate(run: seq<Action>, i: nat, no: nat)
    ensures var s := Exec(Init(), run); var t := Step(Step(s, ReaderStep(i)), ReaderStep(i));
      i < |s.atts| && s.atts[i].pc == Got(Audio(no)) ==>
        && t.atts == s.atts[i := s.atts[i].(pc := Reading)]
        && t.ingested == s.ingested + (if !s.atts[i].stale && no > s.floor then [Entry(i, no)] else [])
        && t.staleFrames == s.staleFrames + (if s.atts[i].stale then 1 else 0)
        && t.dups == s.dups + (if !s.atts[i].stale && no <= s.floor then 1 else 0)
  {
  }

  /** A frame past the stale check is ingested exactly when it is above the watermark. */
  lemma PassedFate(run: seq<Action>, i: nat, no: nat)
    ensures var s := Exec(Init(), run); var t := Step(s, ReaderStep(i));
      i < |s.atts| && s.atts[i].pc == Passed(Audio(no)) ==>
        && t.ingested == s.ingested + (if no > s.floor then [Entry(i, no)] else [])
        && t.floor == (if no > s.floor then no else s.floor)
        && t.dups == s.dups + (if no > s.floor then 0 else 1)
  {
  }

  // What an attach claims

  /** An attach gets past its checks exactly with a newer claim on an open session; otherwise it changes nothing. */
  lemma AttachIsChecked(run: seq<Action>, claim: nat)
    ensures var s := Exec(Init(), run); var t := Step(s, AttachBegin(claim));
      s.lock.Unlocked? ==> if !s.closed && claim > s.epoch then t == s.(lock := Marking(claim)) else t == s
  {
  }

  /** A completed attach has its claim as epoch and is the current one, with a read loop at its first read. */
  lemma AttachTakesItsClaim(run: seq<Action>)
    ensures var s := Exec(Init(), run); var t := Step(s, AttachEnd);
      Enabled(s, AttachEnd) ==>
        && t.epoch == s.lock.claim > s.epoch && t.lock.Unlocked? && t.cur == Some(|s.atts|)
        && t.atts == s.atts + [Att(s.lock.claim, false, Reading, false)]
        && t.floor == s.floor && t.ingested == s.ingested
  {
    ExecInv(Init(), run);
  }

  // The end of a session

  /** The one right to close the session: with the table, with whoever removed it from there, or spent. */
  function CloseRight(s: Sess): nat {
    (if s.listed then 1 else 0) + s.closers + (if s.closed then 1 else 0)
    + if s.cur.Some? && s.cur.value < |s.atts| && s.atts[s.cur.value].pc.Closing? then 1 else 0
  }

  lemma ReaderRight(s: Sess, i: nat)
    requires OneReader(s) && Enabled(s, ReaderStep(i)) && CloseRight(s) == 1
    ensures CloseRight(ReaderNext(s, i)) == 1
  {
  }

  lemma StepRight(s: Sess, a: Action)
    requires Inv(s) && CloseRight(s) == 1
    ensures CloseRight(Step(s, a)) == 1
  {
    if a.ReaderStep? && Enabled(s, a) {
      ReaderRight(s, a.i);
    }
  }

  lemma {:induction false} RunRight(s: Sess, run: seq<Action>)
    requires Inv(s) && CloseRight(s) == 1
    ensures Inv(Exec(s, run)) && CloseRight(Exec(s, run)) == 1
    decreases |run|
  {
    if run == [] {
    } else {
      StepInv(s, run[0]);
      StepRight(s, run[0]);
      RunRight(Step(s, run[0]), run[1..]);
    }
  }

  /** However many reclaim it, a session is removed from the table once and closed at most once. */
  lemma ClosedOnce(run: seq<Action>)
    ensures CloseRight(Exec(Init(), run)) == 1
  {
    InitInv();
    RunRight(Init(), run);
  }

  lemma {:induction false} StaysClosed(s: Sess, run: seq<Action>)
    requires Inv(s) && s.closed
    ensures var t := Exec(s, run); t.closed && t.epoch == s.epoch && |t.atts| == |s.atts| && t.lock.Unlocked?
    decreases |run|
  {
    if run == [] {
    } else {
      StepInv(s, run[0]);
      AttachFence(s, run[0]);
      ClosedKept(s, run[0]);
      StaysClosed(Step(s, run[0]), run[1..]);
    }
  }

  lemma ClosedKept(s: Sess, a: Action)
    requires Inv(s) && s.closed
    ensures var t := Step(s, a); t.closed && t.epoch == s.epoch && |t.atts| == |s.atts|
  {
    if !a.AttachEnd? {
      SameAttachments(s, a);
    }
  }

  /** Once `close` has had the mutex the session is closed, and from then on no attach is ever accepted. */
  lemma ClosedRefusesAll(prefix: seq<Action>, run: seq<Action>)
    ensures var s := Exec(Init(), prefix);
      && (Enabled(s, Close) ==> Step(s, Close).closed)
      && (s.closed ==> Refuses(s, Exec(s, run)))
  {
    ExecInv(Init(), prefix);
    var s := Exec(Init(), prefix);
    if s.closed {
      StaysClosed(s, run);
    }
  }

  /** Still closed, and no attachment more than before. */
  predicate Refuses(s: Sess, t: Sess) {
    t.closed && t.lock.Unlocked? && t.epoch == s.epoch && |t.atts| == |s.atts|
  }

  /** The read loop after it has read `m` and taken `n` more steps. */
  function After(s: Sess, i: nat, m: Msg, n: nat): Sess {
    if n == 0 then Step(s, Read(i, m)) else Step(After(s, i, m, n - 1), ReaderStep(i))
  }

  /** With nobody attaching, a STOP on a current attachment ends the session and its read loop. */
  lemma StopEndsSession(run: seq<Action>, i: nat)
    ensures var s := Exec(Init(), run); var t := After(s, i, Stop, 4);
      s.lock.Unlocked? && s.listed && i < |s.atts| && s.atts[i].pc.Reading? ==>
        t.closed && !t.listed && HasExited(t, i)
  {
    ExecInv(Init(), run);
    var s := Exec(Init(), run);
    if s.lock.Unlocked? && s.listed && i < |s.atts| && s.atts[i].pc.Reading? {
      var t0 := After(s, i, Stop, 0);
      assert t0.atts[i] == s.atts[i].(pc := Got(Stop)) && !s.atts[i].stale;
      var t1 := After(s, i, Stop, 1);
      assert t1.atts[i].pc == Passed(Stop);
      var t2 := After(s, i, Stop, 2);
      assert t2.atts[i].pc.Reclaiming?;
      var t3 := After(s, i, Stop, 3);
      assert t3.atts[i].pc.Closing? && t3.lock.Unlocked?;
    }
  }

  /** An attachment stops being the current one only when both its loops are over, or another attach completes. */
  lemma StaysCurrent(run: seq<Action>, a: Action, i: nat)
    ensures var s := Exec(Init(), run);
      s.cur == Some(i) && Step(s, a).cur != Some(i) ==> HasExited(s, i) && (s.atts[i].writerDone || s.lock.Attaching?)
  {
    ExecInv(Init(), run);
    var s := Exec(Init(), run);
    if s.cur == Some(i) && Step(s, a).cur != Some(i) {
      CurrentMoves(s, a, i);
    }
  }

  lemma CurrentMoves(s: Sess, a: Action, i: nat)
    requires OneReader(s) && LockOk(s) && s.cur == Some(i) && Step(s, a).cur != Some(i)
    ensures HasExited(s, i) && (s.atts[i].writerDone || s.lock.Attaching?)
  {
  }

  /** Once both loops of an attachment are over it is let go, and no other one is. */
  lemma DetachLetsGo(run: seq<Action>, i: nat)
    ensures var s := Exec(Init(), run); var t := Step(Step(s, WriterExit(i)), Detach(i));
      s.lock.Unlocked? && HasExited(s, i) ==> t.cur == if s.cur == Some(i) then None else s.cur
  {
  }

  // What a superseded attachment can still add

  /** Of the entries beyond `base`, only the first can come from `prior` or an earlier attachment. */
  predicate OneLeftover(t: Sess, base: seq<Entry>, prior: nat, pc: ReadPc, floor: nat) {
    && base <= t.ingested
    && forall k :: |base| <= k < |t.ingested| && t.ingested[k].att <= prior ==>
         k == |base| && pc == Passed(Audio(t.ingested[k].no)) && t.ingested[k].no > floor
  }

  /** The old attachment is stale; an audio frame past its stale check is the one it had when it was marked. */
  predicate Superseded(t: Sess, base: seq<Entry>, prior: nat, pc: ReadPc, floor: nat) {
    && OneLeftover(t, base, prior, pc, floor)
    && prior < |t.atts| && t.atts[prior].stale
    && (t.atts[prior].pc.Passed? && t.atts[prior].pc.m.Audio? ==> t.atts[prior].pc == pc && t.ingested == base && t.floor == floor)
  }

  lemma ReaderSuperseded(t: Sess, i: nat, base: seq<Entry>, prior: nat, pc: ReadPc, floor: nat)
    requires Superseded(t, base, prior, pc, floor) && Enabled(t, ReaderStep(i)) && i >= prior
    requires i > prior ==> t.atts[prior].pc.Exited?
    ensures Superseded(ReaderNext(t, i), base, prior, pc, floor)
  {
    if i == prior {
      LeftoverStep(t, base, prior, pc, floor);
    }
  }

  lemma LeftoverStep(t: Sess, base: seq<Entry>, prior: nat, pc: ReadPc, floor: nat)
    requires Superseded(t, base, prior, pc, floor) && Enabled(t, ReaderStep(prior))
    ensures Superseded(ReaderNext(t, prior), base, prior, pc, floor)
  {
  }

  lemma StepSuperseded(t: Sess, a: Action, base: seq<Entry>, prior: nat, pc: ReadPc, floor: nat)
    requires Inv(t) && Superseded(t, base, prior, pc, floor)
    ensures Superseded(Step(t, a), base, prior, pc, floor)
  {
    if a.ReaderStep? && Enabled(t, a) {
      ReaderSuperseded(t, a.i, base, prior, pc, floor);
    }
  }

  lemma {:induction false} RunSuperseded(t: Sess, run: seq<Action>, base: seq<Entry>, prior: nat, pc: ReadPc, floor: nat)
    requires Inv(t) && Superseded(t, base, prior, pc, floor)
    ensures Superseded(Exec(t, run), base, prior, pc, floor)
    decreases |run|
  {
    if run == [] {
    } else {
      StepInv(t, run[0]);
      StepSuperseded(t, run[0], base, prior, pc, floor);
      RunSuperseded(Step(t, run[0]), run[1..], base, prior, pc, floor);
    }
  }

  /**
   Once an attach has marked the old attachment, that one and all before it add at most one frame to
   what is ingested, ever: the one that had already passed the stale check, if it was above the
   watermark, and before anything of the new attachment.
   */
  lemma MarkedAddsAtMostOne(prefix: seq<Action>, run: seq<Action>)
    ensures var s := Exec(Init(), prefix); var t := Exec(Step(s, AttachMark), run);
      s.lock.Marking? && s.cur.Some? ==>
        s.cur.value < |s.atts| && OneLeftover(t, s.ingested, s.cur.value, s.atts[s.cur.value].pc, s.floor)
  {
    ExecInv(Init(), prefix);
    var s := Exec(Init(), prefix);
    if s.lock.Marking? && s.cur.Some? {
      StepInv(s, AttachMark);
      RunSuperseded(Step(s, AttachMark), run, s.ingested, s.cur.value, s.atts[s.cur.value].pc, s.floor);
    }
  }

  // ---------------------------------------------------------------------------
  // When a takeover can deadlock

  /** The read loop that `attach` waits for, or is about to, itself waits for the mutex that `attach` holds. */
  predicate Deadlocked(s: Sess) {
    !s.lock.Unlocked? && s.cur.Some? && s.cur.value < |s.atts| && s.atts[s.cur.value].pc.Closing?
  }

  /** The attach with this claim holds the mutex; there is only one, since claims grow. */
  predicate HeldBy(lock: Lock, claim: nat) {
    !lock.Unlocked? && lock.claim == claim
  }

  /** The run leads into the deadlock while the attach with this claim holds the mutex. */
  predicate Wedges(s: Sess, claim: nat, run: seq<Action>) {
    HeldBy(Exec(s, run).lock, claim) && Deadlocked(Exec(s, run))
  }

  lemma DeadlockStays(s: Sess, a: Action)
    requires Inv(s) && Deadlocked(s)
    ensures Deadlocked(Step(s, a)) && HeldBy(Step(s, a).lock, s.lock.claim)
  {
  }

  lemma {:induction false} DeadlockLasts(s: Sess, run: seq<Action>)
    requires Inv(s) && Deadlocked(s)
    ensures Wedges(s, s.lock.claim, run)
    decreases |run|
  {
    if run == [] {
    } else {
      StepInv(s, run[0]);
      DeadlockStays(s, run[0]);
      DeadlockLasts(Step(s, run[0]), run[1..]);
    }
  }

  /** A read loop that is inside `close`, or that no longer checks for staleness and may win the race to reclaim. */
  predicate Risky(s: Sess, i: nat) {
    i < |s.atts| &&
    (s.atts[i].pc.Closing? || (s.listed && (s.atts[i].pc.Reclaiming? || s.atts[i].pc == Passed(Stop))))
  }

  /** A read loop that will not get into `close`: gone, too late to reclaim, or told to stop in time. */
  predicate SafeLoop(s: Sess, i: nat) {
    i < |s.atts| ==> s.atts[i].pc.Exited? || (!s.listed && !s.atts[i].pc.Closing?) || (s.atts[i].stale && !Risky(s, i))
  }

  /** While the attach with this claim holds the mutex, the loop it waits for is safe. */
  predicate Harmless(s: Sess, claim: nat) {
    if HeldBy(s.lock, claim) then s.cur.Some? ==> SafeLoop(s, s.cur.value) else s.epoch >= claim
  }

  lemma LoopStaysSafe(s: Sess, i: nat)
    requires s.cur.Some? ==> SafeLoop(s, s.cur.value)
    requires i < |s.atts| && Enabled(s, ReaderStep(i))
    ensures var s' := ReaderNext(s, i); s'.cur == s.cur && s'.lock == s.lock && (s.cur.Some? ==> SafeLoop(s', s.cur.value))
  {
  }

  lemma StepHarmless(s: Sess, claim: nat, a: Action)
    requires Inv(s) && Harmless(s, claim)
    ensures Harmless(Step(s, a), claim)
  {
    if a.AttachBegin? || a.AttachMark? || a.AttachEnd? {
      AttachFence(s, a);
    } else if a.ReaderStep? && Enabled(s, a) && HeldBy(s.lock, claim) {
      LoopStaysSafe(s, a.i);
    } else {
      AttachFence(s, a);
    }
  }

  lemma {:induction false} NeverWedges(s: Sess, claim: nat, run: seq<Action>)
    requires Inv(s) && Harmless(s, claim)
    ensures !Wedges(s, claim, run)
    decreases |run|
  {
    if run == [] {
    } else {
      StepInv(s, run[0]);
      StepHarmless(s, claim, run[0]);
      NeverWedges(Step(s, run[0]), claim, run[1..]);
    }
  }

  lemma {:induction false} ExecSnoc(s: Sess, run: seq<Action>, a: Action)
    ensures Exec(s, run + [a]) == Step(Exec(s, run), a)
    decreases |run|
  {
    if run == [] {
      assert Exec(Step(s, a), []) == Step(s, a);
    } else {
      assert (run + [a])[0] == run[0] && (run + [a])[1..] == run[1..] + [a];
      ExecSnoc(Step(s, run[0]), run[1..], a);
    }
  }

  /** Moves the read loop on. */
  lemma Next(s: Sess, run: seq<Action>, i: nat) returns (more: seq<Action>)
    requires i < |Exec(s, run).atts|
    ensures Exec(s, more) == Step(Exec(s, run), ReaderStep(i))
  {
    ExecSnoc(s, run, ReaderStep(i));
    more := run + [ReaderStep(i)];
  }

  /** A risky read loop gets into `close` by itself while the attach holds the mutex. */
  lemma RiskyWedges(s: Sess, run: seq<Action>, i: nat) returns (more: seq<Action>)
    requires var t := Exec(s, run); !t.lock.Unlocked? && t.cur == Some(i) && Risky(t, i)
    ensures Wedges(s, Exec(s, run).lock.claim, more)
  {
    more := run;
    if Exec(s, more).atts[i].pc == Passed(Stop) {
      more := Next(s, more, i);
    }
    if Exec(s, more).atts[i].pc.Reclaiming? {
      more := Next(s, more, i);
    }
  }

  /** A read loop that is alive, and inside `close` or not too late to get there. */
  predicate MayStillClose(s: Sess, i: nat) {
    i < |s.atts| && !s.atts[i].pc.Exited? && (s.atts[i].pc.Closing? || s.listed)
  }

  /** What the read loop has in its hand it finishes first. */
  lemma FinishFrame(s: Sess, i: nat) returns (run: seq<Action>)
    requires i < |s.atts| && !s.atts[i].stale && (s.atts[i].pc.Got? || s.atts[i].pc.Passed?) && s.atts[i].pc.m != Stop
    ensures var t := Exec(s, run); t.lock == s.lock && t.cur == s.cur && t.listed == s.listed && |t.atts| == |s.atts|
    ensures Exec(s, run).atts[i] == s.atts[i].(pc := Reading)
  {
    run := [];
    assert Exec(s, run) == s;
    if s.atts[i].pc.Got? {
      run := Next(s, run, i);
    }
    run := Next(s, run, i);
  }

  /** A read loop that has not been marked can still take a STOP past the stale check. */
  lemma StopSlipsIn(s: Sess, i: nat) returns (run: seq<Action>)
    requires s.lock.Marking? && s.cur == Some(i) && MayStillClose(s, i) && !s.atts[i].stale
    ensures var t := Exec(s, run); t.lock == s.lock && t.cur == Some(i) && Risky(t, i)
  {
    run := [];
    assert Exec(s, run) == s;
    if (s.atts[i].pc.Got? || s.atts[i].pc.Passed?) && s.atts[i].pc.m != Stop {
      run := FinishFrame(s, i);
    }
    if Exec(s, run).atts[i].pc.Reading? {
      ExecSnoc(s, run, Read(i, Stop));
      run := run + [Read(i, Stop)];
    }
    if Exec(s, run).atts[i].pc.Got? {
      run := Next(s, run, i);
    }
  }

  /**
   An attach with a newer claim on an open session can end in the deadlock exactly when, as it takes
   the mutex, the current read loop is alive and is inside `close` or the session is still listed: a
   STOP may always slip in before the attachment is marked stale.
   */
  lemma AttachDeadlocksIff(prefix: seq<Action>, claim: nat)
    ensures var s := Exec(Init(), prefix);
      s.lock.Unlocked? && !s.closed && claim > s.epoch ==>
        ((exists run :: Wedges(Step(s, AttachBegin(claim)), claim, run)) <==>
          s.cur.Some? && MayStillClose(s, s.cur.value))
  {
    ExecInv(Init(), prefix);
    var s := Exec(Init(), prefix);
    if s.lock.Unlocked? && !s.closed && claim > s.epoch {
      var s1 := Step(s, AttachBegin(claim));
      StepInv(s, AttachBegin(claim));
      if s.cur.Some? && MayStillClose(s, s.cur.value) {
        var run := StopSlipsIn(s1, s.cur.value);
        run := RiskyWedges(s1, run, s.cur.value);
      } else {
        forall run ensures !Wedges(s1, claim, run) {
          NeverWedges(s1, claim, run);
        }
      }
    }
  }

  /**
   Once the old attachment is marked, that is so exactly when its read loop is inside `close`, or got
   a STOP past the stale check while the session is still listed.
   */
  lemma MarkedDeadlocksIff(prefix: seq<Action>)
    ensures var s := Exec(Init(), prefix);
      s.lock.Marking? ==>
        ((exists run :: Wedges(Step(s, AttachMark), s.lock.claim, run)) <==> s.cur.Some? && Risky(s, s.cur.value))
  {
    ExecInv(Init(), prefix);
    var s := Exec(Init(), prefix);
    if s.lock.Marking? {
      var s1 := Step(s, AttachMark);
      StepInv(s, AttachMark);
      if s.cur.Some? && Risky(s, s.cur.value) {
        assert Exec(s1, []) == s1;
        var run := RiskyWedges(s1, [], s.cur.value);
      } else {
        forall run ensures !Wedges(s1, s.lock.claim, run) {
          NeverWedges(s1, s.lock.claim, run);
        }
      }
    }
  }

  // ---------------------------------------------------------------------------
  // When a takeover can complete

  predicate Completes(s: Sess, run: seq<Action>) {
    Exec(s, run).lock.Unlocked?
  }

  /** Drives the old read loop to its exit; anything but the mutex can be passed. */
  lemma ReaderCanExit(s: Sess, i: nat) returns (run: seq<Action>)
    requires Inv(s) && s.lock.Attaching? && s.cur == Some(i) && i < |s.atts| && !Deadlocked(s)
    ensures HasExited(Exec(s, run), i) && Exec(s, run).lock == s.lock
  {
    run := [];
    assert Exec(s, run) == s;
    if s.atts[i].pc.Passed? || s.atts[i].pc.Got? {
      run := Next(s, run, i);
    }
    if Exec(s, run).atts[i].pc.Reclaiming? {
      ExecSnoc(s, run, Reclaim);
      run := run + [Reclaim];
      run := Next(s, run, i);
    } else if Exec(s, run).atts[i].pc.Reading? {
      ExecSnoc(s, run, ReadFail(i));
      run := run + [ReadFail(i)];
    }
  }

  lemma WaitingCompletes(s: Sess) returns (run: seq<Action>)
    requires Inv(s) && s.lock.Attaching? && !Deadlocked(s)
    ensures Completes(s, run)
  {
    run := [];
    assert Exec(s, run) == s;
    if s.lock.prior.Some? {
      run := ReaderCanExit(s, s.lock.prior.value);
    }
    ExecSnoc(s, run, AttachEnd);
    run := run + [AttachEnd];
  }

  /** An attach that holds the mutex can still complete exactly when the old read loop is not inside `close`. */
  lemma TakeoverCompletesIff(prefix: seq<Action>)
    ensures var s := Exec(Init(), prefix);
      !s.lock.Unlocked? ==> ((exists run :: Completes(s, run)) <==> !Deadlocked(s))
  {
    ExecInv(Init(), prefix);
    var s := Exec(Init(), prefix);
    if Deadlocked(s) {
      forall run ensures !Completes(s, run) { DeadlockLasts(s, run); }
    } else if s.lock.Attaching? {
      var run := WaitingCompletes(s);
    } else if s.lock.Marking? {
      StepInv(s, AttachMark);
      var run := WaitingCompletes(Step(s, AttachMark));
      assert ([AttachMark] + run)[1..] == run;
      assert Completes(s, [AttachMark] + run);
    }
  }

  /** A client that sends STOP while another connection takes the session over reaches that deadlock. */
  lemma DeadlockHappens() returns (run: seq<Action>)
    ensures Deadlocked(Exec(Init(), run)) && Exec(Init(), run).lock == Attaching(2, Some(0))
  {
    var i := Init();
    run := [];
    assert Exec(i, run) == i;
    ExecSnoc(i, run, AttachBegin(1));  run := run + [AttachBegin(1)];
    ExecSnoc(i, run, AttachMark);      run := run + [AttachMark];
    ExecSnoc(i, run, AttachEnd);       run := run + [AttachEnd];
    ExecSnoc(i, run, Read(0, Stop));   run := run + [Read(0, Stop)];
    ExecSnoc(i, run, AttachBegin(2));  run := run + [AttachBegin(2)];
    assert Exec(i, run).atts == [Att(1, false, Got(Stop), false)];
    run := Next(i, run, 0);
    ExecSnoc(i, run, AttachMark);      run := run + [AttachMark];
    run := Next(i, run, 0);
    run := Next(i, run, 0);
  }
}
