/**
 The barge-in control plane: detector, conversation machine, latched `bargeIn` and the orchestrator.

 Two goroutines move it.  The reader runs the detector on each frame, applies the event to the
 machine (one step, under its mutex) and performs the action (another step).  The orchestrator
 stands at its select, starts a turn and applies ResponseStarted, or ends a turn and applies
 ResponseDone.  A run is any list of actions, so every interleaving and every choice of a ready
 select arm is covered.
 */
module ControlPlane {
  import opened Vad

  datatype Reader = RIdle | RApply(ev: Event) | RPerform(act: Act)

  datatype After = ToActive | ToIdle | ToExit

  /**
   `Select(active)` is the select of `Run`; `Hook` has spawned a turn and is about to apply
   ResponseStarted; `Ending` is inside `cancelTurn` or `finishTurn`; `Perform` carries out an action.
   */
  datatype Orch = Select(active: bool) | Hook | Perform(act: Act, after: After) | Ending(exit: bool) | Exited

  datatype State = State(
    c: Thresholds,
    det: Det,
    mach: Talk,
    illegal: nat,
    latch: bool,      // the bargeIn channel holds its one token
    endUtt: bool,     // the endUtt channel holds its one token
    reader: Reader,
    orch: Orch,
    accepted: seq<Event>,   // history: the events that the machine has accepted
    turn: nat,        // history: turns started
    heard: bool)      // history: the user has been speaking during the current turn

  datatype Action =
    | Frame(level: real)
    | ReaderStep
    | Cancelled
    | AsrFailed
    | BargeIn
    | Final(empty: bool)
    | TurnDone
    | OrchStep

  function Init(c: Thresholds): State {
    State(c, Det(false, 0), Listening, 0, false, false, RIdle, Select(false), [], 0, false)
  }

  function Performed(s: State, act: Act): State {
    match act
    case ActNone => s
    case ActEndUtterance => s.(endUtt := true)
    case ActCancelTurn => s.(latch := true)
  }

  function Land(after: After): Orch {
    match after
    case ToActive => Select(true)
    case ToIdle => Select(false)
    case ToExit => Exited
  }

  /** The orchestrator applies `ev`; an illegal event skips the action. */
  function Applied(s: State, ev: Event, after: After): State {
    match Table(s.mach, ev)
    case Illegal => s.(illegal := s.illegal + 1, orch := Land(after))
    case Legal(next, act) => s.(mach := next, orch := Perform(act, after), accepted := s.accepted + [ev])
  }

  predicate Enabled(s: State, a: Action) {
    match a
    case Frame(_) => s.reader.RIdle?
    case ReaderStep => !s.reader.RIdle?
    case Cancelled => s.orch.Select?
    case AsrFailed => s.orch.Select?
    case BargeIn => s.orch.Select? && s.latch
    case Final(_) => s.orch == Select(false)
    case TurnDone => s.orch == Select(true)
    case OrchStep => s.orch.Hook? || s.orch.Perform? || s.orch.Ending?
  }

  function Step(s: State, a: Action): State {
    if !Enabled(s, a) then s else
    match a
    case Frame(level) =>
      var (d, ev) := Detect(s.c, s.det, level);
      s.(det := d, reader := if ev.NoEvent? then RIdle else RApply(ev))
    case ReaderStep =>
      (match s.reader
       case RApply(ev) =>
         (match Table(s.mach, ev)
          case Illegal => s.(illegal := s.illegal + 1, reader := RIdle)
          case Legal(next, act) => 
            s.(mach := next, reader := RPerform(act), accepted := s.accepted + [ev], heard := s.heard || next.SpeakingUser?))
       case RPerform(act) => Performed(s, act).(reader := RIdle)
       case RIdle => s)
    case Cancelled => s.(orch := if s.orch.active then Ending(true) else Exited)
    case AsrFailed => s.(orch := if s.orch.active then Ending(true) else Exited)
    case BargeIn => s.(latch := false, orch := if s.orch.active then Ending(false) else s.orch)
    case Final(empty) => if empty then s else s.(orch := Hook, turn := s.turn + 1, heard := s.mach.SpeakingUser?)
    case TurnDone => s.(orch := Ending(false))
    case OrchStep =>
      match s.orch
      case Hook => Applied(s, ResponseStarted, ToActive)
      case Ending(exit) => Applied(s, ResponseDone, if exit then ToExit else ToIdle)
      case Perform(act, after) => Performed(s, act).(orch := Land(after))
      case _ => s
  }

  function Exec(s: State, run: seq<Action>): State
    decreases |run|
  {
    if run == [] then s else Exec(Step(s, run[0]), run[1..])
  }

  // ---------------------------------------------------------------------------
  // Invariant

  /** The turn exists and its ResponseStarted has been applied. */
  predicate Hooked(o: Orch) {
    o == Select(true) || o.Ending? || (o.Perform? && o.after.ToActive?)
  }

  predicate TurnActive(o: Orch) {
    Hooked(o) || o.Hook?
  }

  /** A cancellation is latched, about to be latched, or the turn is being ended already. */
  predicate BeingInterrupted(s: State) {
    || s.latch
    || s.reader == RPerform(ActCancelTurn)
    || s.orch == Perform(ActCancelTurn, ToActive)
    || s.orch.Ending?
  }

  /** The machine is in SPEAKING_USER exactly when the detector is, up to the event in the reader's hand. */
  predicate SpeechAgrees(s: State) {
    && (s.mach.SpeakingUser? <==> s.det.inSpeech != s.reader.RApply?)
    && (s.reader.RApply? ==> s.reader.ev == if s.det.inSpeech then SpeechStart else SpeechEnd)
    && (s.reader == RPerform(ActCancelTurn) ==> s.mach.SpeakingUser?)
  }

  /** The machine stands where the accepted events put it, and a speech end leaves an end of utterance. */
  predicate HistoryAgrees(s: State) {
    s.mach == Meaning(s.accepted) && EndUttOk(s)
  }

  predicate EndUttOk(s: State) {
    && (s.endUtt || s.reader == RPerform(ActEndUtterance) <==> SpeechEnd in s.accepted)
    && (s.orch.Perform? ==> !s.orch.act.ActEndUtterance?)
  }

  function One(b: bool): nat {
    if b then 1 else 0
  }

  /** Each turn is announced to the machine once when it starts and once when it ends. */
  predicate TurnsAnnounced(s: State) {
    && multiset(s.accepted)[ResponseStarted] + One(s.orch.Hook?) == s.turn
    && multiset(s.accepted)[ResponseDone] + One(TurnActive(s.orch)) == s.turn
  }

  predicate Inv(s: State) {
    && s.illegal == 0
    && SpeechAgrees(s)
    && (s.mach.RespondingAgent? ==> Hooked(s.orch))
    && (Hooked(s.orch) ==> !s.mach.Listening?)
    && (Hooked(s.orch) && (s.mach.SpeakingUser? || s.mach.Thinking?) ==> BeingInterrupted(s))
    && (TurnActive(s.orch) && s.mach.SpeakingUser? ==> s.heard)
    && (s.orch.Perform? && !s.orch.after.ToActive? ==> s.orch.act.ActNone?)
  }

  lemma ReaderInv(s: State, a: Action)
    requires Inv(s) && (a.Frame? || a.ReaderStep?)
    ensures Inv(Step(s, a))
  {
  }

  lemma SelectInv(s: State, a: Action)
    requires Inv(s) && !a.Frame? && !a.ReaderStep? && !a.OrchStep?
    ensures Inv(Step(s, a))
  {
  }

  lemma OrchStepInv(s: State)
    requires Inv(s)
    ensures Inv(Step(s, OrchStep))
  {
  }

  lemma OrchInv(s: State, a: Action)
    requires Inv(s) && !a.Frame? && !a.ReaderStep?
    ensures Inv(Step(s, a))
  {
    if a.OrchStep? {
      OrchStepInv(s);
    } else {
      SelectInv(s, a);
    }
  }

  lemma StepInv(s: State, a: Action)
    requires Inv(s)
    ensures Inv(Step(s, a))
  {
    if a.Frame? || a.ReaderStep? {
      ReaderInv(s, a);
    } else {
      OrchInv(s, a);
    }
  }

  /** The event that the step applies to the machine, if any. */
  function Applying(s: State, a: Action): Event {
    if a.ReaderStep? && s.reader.RApply? then s.reader.ev
    else if a.OrchStep? && s.orch.Hook? then ResponseStarted
    else if a.OrchStep? && s.orch.Ending? then ResponseDone
    else NoEvent
  }

  /** A step accepts the event it applies, since none is illegal, and asks for what the history asks for. */
  lemma StepAccepts(s: State, a: Action)
    requires Inv(s) && Inv(Step(s, a)) && s.mach == Meaning(s.accepted)
    ensures var ev, s' := Applying(s, a), Step(s, a);
      if ev.NoEvent? then s'.accepted == s.accepted && s'.mach == s.mach
      else
        && s'.accepted == s.accepted + [ev] && s'.mach == Meaning(s'.accepted)
        && (a.ReaderStep? ==> s'.reader == RPerform(Asks(s.accepted, ev)))
        && (a.OrchStep? ==> s'.orch.Perform? && s'.orch.act == Asks(s.accepted, ev))
  {
    TableMeans(s.accepted, Applying(s, a));
  }

  /** Where the event comes from a step accepts it; this is what the reader does with it. */
  lemma ReaderEndUtt(s: State, a: Action)
    requires EndUttOk(s) && (a.Frame? || a.ReaderStep?)
    requires var ev, s' := Applying(s, a), Step(s, a);
      if ev.NoEvent? then s'.accepted == s.accepted
      else s'.accepted == s.accepted + [ev] && s'.reader == RPerform(Asks(s.accepted, ev))
    ensures EndUttOk(Step(s, a))
  {
  }

  lemma OrchEndUtt(s: State, a: Action)
    requires EndUttOk(s) && !a.Frame? && !a.ReaderStep?
    requires var ev, s' := Applying(s, a), Step(s, a);
      if ev.NoEvent? then s'.accepted == s.accepted
      else s'.accepted == s.accepted + [ev] && s'.orch.Perform? && s'.orch.act == Asks(s.accepted, ev)
    ensures EndUttOk(Step(s, a))
  {
  }

  lemma StepHistory(s: State, a: Action)
    requires Inv(s) && Inv(Step(s, a)) && HistoryAgrees(s)
    ensures HistoryAgrees(Step(s, a))
  {
    StepAccepts(s, a);
    if a.Frame? || a.ReaderStep? {
      ReaderEndUtt(s, a);
    } else {
      OrchEndUtt(s, a);
    }
  }

  /** The orchestrator's place says which announcements of the turns so far are still to come. */
  predicate PlacesMove(s: State, s': State, ev: Event) {
    && s'.turn - One(s'.orch.Hook?) == s.turn - One(s.orch.Hook?) + One(ev.ResponseStarted?)
    && s'.turn - One(TurnActive(s'.orch)) == s.turn - One(TurnActive(s.orch)) + One(ev.ResponseDone?)
  }

  lemma OrchPlaces(s: State)
    ensures PlacesMove(s, Step(s, OrchStep), Applying(s, OrchStep))
  {
  }

  lemma StepPlaces(s: State, a: Action)
    requires s.reader.RApply? ==> s.reader.ev.SpeechStart? || s.reader.ev.SpeechEnd?
    ensures PlacesMove(s, Step(s, a), Applying(s, a))
  {
    if a.OrchStep? {
      OrchPlaces(s);
    }
  }

  lemma CountSnoc(evs: seq<Event>, ev: Event, x: Event)
    ensures multiset(evs + [ev])[x] == multiset(evs)[x] + One(ev == x)
  {
  }

  lemma StepAnnounces(s: State, a: Action)
    requires TurnsAnnounced(s) && (s.reader.RApply? ==> s.reader.ev.SpeechStart? || s.reader.ev.SpeechEnd?)
    requires var ev := Applying(s, a); Step(s, a).accepted == if ev.NoEvent? then s.accepted else s.accepted + [ev]
    ensures TurnsAnnounced(Step(s, a))
  {
    StepPlaces(s, a);
    CountSnoc(s.accepted, Applying(s, a), ResponseStarted);
    CountSnoc(s.accepted, Applying(s, a), ResponseDone);
  }

  lemma {:induction false} ExecInv(s: State, run: seq<Action>)
    requires Inv(s)
    ensures Inv(Exec(s, run))
    decreases |run|
  {
    if run == [] {
    } else {
      StepInv(s, run[0]);
      ExecInv(Step(s, run[0]), run[1..]);
    }
  }

  /** No interleaving of the detector with the turn lifecycle ever produces an illegal event. */
  lemma NeverIllegal(c: Thresholds, run: seq<Action>)
    ensures Exec(Init(c), run).illegal == 0
  {
    ExecInv(Init(c), run);
  }

  lemma {:induction false} ExecHistory(s: State, run: seq<Action>)
    requires Inv(s) && HistoryAgrees(s) && TurnsAnnounced(s)
    ensures HistoryAgrees(Exec(s, run)) && TurnsAnnounced(Exec(s, run))
    decreases |run|
  {
    if run == [] {
    } else {
      StepInv(s, run[0]);
      StepHistory(s, run[0]);
      StepAccepts(s, run[0]);
      StepAnnounces(s, run[0]);
      ExecHistory(Step(s, run[0]), run[1..]);
    }
  }

  /** How many turns the run starts: one for each non-empty final that the idle orchestrator takes. */
  function Finals(s: State, run: seq<Action>): nat
    decreases |run|
  {
    if run == [] then 0
    else One(s.orch == Select(false) && run[0] == Final(false)) + Finals(Step(s, run[0]), run[1..])
  }

  lemma {:induction false} FinalsStartTurns(s: State, run: seq<Action>)
    ensures Exec(s, run).turn == s.turn + Finals(s, run)
    decreases |run|
  {
    if run == [] {
    } else {
      FinalsStartTurns(Step(s, run[0]), run[1..]);
    }
  }

  /**
   Over every run: the machine is in SPEAKING_USER exactly when the last accepted speech event is a
   start, and otherwise stands where the last accepted event puts it; turns are started by non-empty
   finals only, and each is announced to the machine once at its start and once at its end; and an end
   of utterance is latched, or about to be, exactly if a speech end has been accepted.
   */
  lemma HistoryDecides(c: Thresholds, run: seq<Action>)
    ensures var s := Exec(Init(c), run);
      && s.mach == Meaning(s.accepted)
      && s.turn == Finals(Init(c), run) && TurnsAnnounced(s)
      && (s.endUtt || s.reader == RPerform(ActEndUtterance) <==> SpeechEnd in s.accepted)
  {
    ExecHistory(Init(c), run);
    FinalsStartTurns(Init(c), run);
  }

  // What becomes of a request to cancel

  /** How many of the accepted events asked for a cancellation. */
  function Requests(evs: seq<Event>): nat {
    if evs == [] then 0
    else Requests(evs[..|evs| - 1]) + One(Asks(evs[..|evs| - 1], evs[|evs| - 1]).ActCancelTurn?)
  }

  /** How many times the select takes the latch. */
  function BargeIns(s: State, run: seq<Action>): nat
    decreases |run|
  {
    if run == [] then 0 else One(Enabled(s, run[0]) && run[0].BargeIn?) + BargeIns(Step(s, run[0]), run[1..])
  }

  /** Requests made and not yet spent. */
  function Unspent(s: State): nat {
    One(s.latch) + One(s.reader == RPerform(ActCancelTurn)) + One(s.orch.Perform? && s.orch.act.ActCancelTurn?)
  }

  /** What a step does to the requests it can see: taking the latch spends one, an event may make one. */
  lemma ReaderSpends(s: State, a: Action)
    requires a.Frame? || a.ReaderStep?
    requires var ev := Applying(s, a); !ev.NoEvent? ==> Step(s, a).reader == RPerform(Asks(s.accepted, ev))
    ensures var ev := Applying(s, a); Unspent(Step(s, a)) <= Unspent(s) + One(!ev.NoEvent? && Asks(s.accepted, ev).ActCancelTurn?)
  {
  }

  lemma OrchSpends(s: State, a: Action)
    requires !a.Frame? && !a.ReaderStep?
    requires var ev, s' := Applying(s, a), Step(s, a); !ev.NoEvent? ==> s'.orch.Perform? && s'.orch.act == Asks(s.accepted, ev)
    ensures var ev := Applying(s, a);
      One(Enabled(s, a) && a.BargeIn?) + Unspent(Step(s, a)) <= Unspent(s) + One(!ev.NoEvent? && Asks(s.accepted, ev).ActCancelTurn?)
  {
  }

  lemma RequestsSnoc(evs: seq<Event>, ev: Event)
    ensures Requests(evs + [ev]) == Requests(evs) + One(Asks(evs, ev).ActCancelTurn?)
  {
    assert (evs + [ev])[..|evs|] == evs;
  }

  lemma StepSpends(s: State, a: Action)
    requires Inv(s) && Inv(Step(s, a)) && s.mach == Meaning(s.accepted)
    ensures var s' := Step(s, a);
      One(Enabled(s, a) && a.BargeIn?) + Unspent(s') + Requests(s.accepted) <= Unspent(s) + Requests(s'.accepted)
  {
    StepAccepts(s, a);
    RequestsSnoc(s.accepted, Applying(s, a));
    if a.Frame? || a.ReaderStep? {
      ReaderSpends(s, a);
    } else {
      OrchSpends(s, a);
    }
  }

  lemma {:induction false} BargeInsSpend(s: State, run: seq<Action>)
    requires Inv(s) && HistoryAgrees(s)
    ensures var s' := Exec(s, run); BargeIns(s, run) + Unspent(s') + Requests(s.accepted) <= Unspent(s) + Requests(s'.accepted)
    decreases |run|
  {
    if run == [] {
    } else {
      StepInv(s, run[0]);
      StepHistory(s, run[0]);
      StepSpends(s, run[0]);
      BargeInsSpend(Step(s, run[0]), run[1..]);
    }
  }

  /** Every barge-in that is taken spends a request of its own; requests may coalesce, none is spent twice. */
  lemma BargeInsAreAskedFor(c: Thresholds, run: seq<Action>)
    ensures var s := Exec(Init(c), run); BargeIns(Init(c), run) + Unspent(s) <= Requests(s.accepted)
  {
    BargeInsSpend(Init(c), run);
  }

  /**
   Whenever the user is speaking over an active turn, that turn is being interrupted, or it is so
   new that its own ResponseStarted is still to come and will ask for the cancellation itself.
   */
  lemma SpeakingInterrupts(c: Thresholds, run: seq<Action>)
    ensures var s := Exec(Init(c), run);
      s.mach.SpeakingUser? && TurnActive(s.orch) ==>
        BeingInterrupted(s) || (s.orch.Hook? && Step(s, OrchStep).orch == Perform(ActCancelTurn, ToActive))
  {
    ExecInv(Init(c), run);
  }

  /** Some prefix of the run brings the orchestrator into `cancelTurn` or `finishTurn` of that turn. */
  ghost predicate EndedWithin(s: State, run: seq<Action>, turn: nat) {
    exists i :: 0 <= i <= |run| && Exec(s, run[..i]).orch.Ending? && Exec(s, run[..i]).turn == turn
  }

  /**
   With the latch set and a turn running, the orchestrator's next move ends that turn, whichever
   ready arm its select takes, and until then the latch stays set.
   */
  lemma {:induction false} LatchEndsTurn(s: State, run: seq<Action>)
    requires s.orch == Select(true) && s.latch
    ensures Enabled(s, BargeIn)
    ensures var s' := Exec(s, run); (s'.orch == s.orch && s'.latch && s'.turn == s.turn) || EndedWithin(s, run, s.turn)
    decreases |run|
  {
    if run == [] {
    } else {
      var s1, rest := Step(s, run[0]), run[1..];
      assert Exec(s, run[..1]) == s1 by {
        assert run[..1][0] == run[0] && run[..1][1..] == [];
        assert Exec(s1, []) == s1;
      }
      if s1.orch == s.orch {
        LatchEndsTurn(s1, rest);
        if EndedWithin(s1, rest, s.turn) {
          var i :| 0 <= i <= |rest| && Exec(s1, rest[..i]).orch.Ending? && Exec(s1, rest[..i]).turn == s.turn;
          assert run[..i + 1][0] == run[0] && run[..i + 1][1..] == rest[..i];
          assert Exec(s, run[..i + 1]) == Exec(s1, rest[..i]);
        }
      } else {
        assert Exec(s, run[..1]).orch.Ending?;
      }
    }
  }

  /** The orchestrator after `a` and its next two steps of its own. */
  function Settled(s: State, a: Action): State {
    Step(Step(Step(s, a), OrchStep), OrchStep)
  }

  /**
   Where the select leads: an ended context or recognizer ends the loop, a finished or interrupted
   turn leads back to idle, a final to a running turn, and an idle barge-in is consumed without effect.
   */
  lemma SelectLeads(c: Thresholds, run: seq<Action>)
    ensures var s := Exec(Init(c), run);
      && (s.orch.Select? ==> Settled(s, Cancelled).orch.Exited? && Settled(s, AsrFailed).orch.Exited?)
      && (s.orch == Select(true) ==> Settled(s, TurnDone).orch == Select(false))
      && (s.orch == Select(true) && s.latch ==> Settled(s, BargeIn).orch == Select(false) && !Settled(s, BargeIn).latch)
      && (s.orch == Select(false) ==> Settled(s, Final(false)).orch == Select(true) && Step(s, Final(true)) == s)
      && (s.orch == Select(false) ==> Step(s, BargeIn) == s.(latch := false))
  {
    ExecInv(Init(c), run);
    var s := Exec(Init(c), run);
    if s.orch.Select? {
      Ends(s, Cancelled);
      Ends(s, AsrFailed);
      if Enabled(s, TurnDone) { Ends(s, TurnDone); }
      if Enabled(s, BargeIn) { Ends(s, BargeIn); }
      if Enabled(s, Final(false)) { Ends(s, Final(false)); }
    }
  }

  lemma Ends(s: State, a: Action)
    requires Inv(s) && s.orch.Select? && Enabled(s, a) && !a.Frame? && !a.ReaderStep?
    ensures var o := Settled(s, a).orch;
      match a
      case Cancelled => o.Exited?
      case AsrFailed => o.Exited?
      case TurnDone => o == Select(false)
      case BargeIn => o == Select(false) && !Settled(s, a).latch
      case Final(false) => o == Select(true)
      case _ => true
  {
    OrchInv(s, a);
  }

  // ---------------------------------------------------------------------------
  // A latch that outlives its turn

  /** After `run` the select is ready to cancel a turn during which the user has not said a word. */
  predicate CancelsUnheard(s: State, run: seq<Action>, turn: nat) {
    ReadyToCancelUnheard(Exec(s, run), turn)
  }

  predicate ReadyToCancelUnheard(s: State, turn: nat) {
    s.turn == turn && s.orch == Select(true) && s.latch && !s.heard
  }

  /** Nothing has asked to cancel the current turn before the user was heard in it. */
  predicate Clean(s: State, turn: nat) {
    s.turn == turn && TurnActive(s.orch) ==>
      s.heard || (!s.latch && s.reader != RPerform(ActCancelTurn) && s.orch != Perform(ActCancelTurn, ToActive))
  }

  lemma CleanStep(s: State, a: Action, turn: nat)
    requires Inv(s) && s.turn >= turn && Clean(s, turn)
    ensures Step(s, a).turn >= turn && Clean(Step(s, a), turn)
  {
  }

  lemma {:induction false} CleanKept(s: State, run: seq<Action>, turn: nat)
    requires Inv(s) && s.turn >= turn && Clean(s, turn)
    ensures !CancelsUnheard(s, run, turn)
    decreases |run|
  {
    if run == [] {
    } else {
      StepInv(s, run[0]);
      CleanStep(s, run[0], turn);
      CleanKept(Step(s, run[0]), run[1..], turn);
    }
  }

  /**
   A turn can be cancelled although the user never spoke during it exactly when it is started with
   the latch already set while the user is silent: the latch then outlived the turn it was meant for.
   */
  lemma StaleLatchIff(c: Thresholds, run: seq<Action>)
    ensures var s := Exec(Init(c), run); var started := Step(s, Final(false));
      s.orch == Select(false) ==>
        ((exists more :: CancelsUnheard(started, more, started.turn)) <==> s.latch && !s.mach.SpeakingUser?)
  {
    ExecInv(Init(c), run);
    var s := Exec(Init(c), run);
    if s.orch == Select(false) {
      var started := Step(s, Final(false));
      StepInv(s, Final(false));
      if s.latch && !s.mach.SpeakingUser? {
        var more := [OrchStep, OrchStep];
        assert more[1..] == [OrchStep] && [OrchStep][1..] == [];
        var s1 := Step(started, OrchStep);
        assert Exec(s1, [OrchStep]) == Exec(Step(s1, OrchStep), []);
        assert CancelsUnheard(started, more, started.turn);
      } else {
        forall more ensures !CancelsUnheard(started, more, started.turn) {
          CleanKept(started, more, started.turn);
        }
      }
    }
  }

  lemma {:induction false} ExecSnoc(s: State, run: seq<Action>, a: Action)
    ensures Exec(s, run + [a]) == Step(Exec(s, run), a)
    decreases |run|
  {
    if run == [] {
      assert Exec(Step(s, a), []) == Step(s, a);
    } else {
      assert (run + [a])[0] == run[0] && (run + [a])[1..] == run[1..] + [a];
      ExecSnoc(Step(s, run[0]), run[1..], a);
    }
  }

  /** The RMS of a frame lies between silence and full scale. */
  predicate Audible(run: seq<Action>) {
    forall i :: 0 <= i < |run| && run[i].Frame? ==> 0.0 <= run[i].level <= 1.0
  }

  /** The orchestrator is ready for the next turn while a stale barge-in is latched. */
  predicate StaleLatch(s: State) {
    s.orch == Select(false) && s.latch && !s.mach.SpeakingUser?
  }

  /** `n` frames at `level`, too few in a row for the detector to report anything. */
  lemma {:induction false} Streak(i: State, run: seq<Action>, level: real, n: nat) returns (more: seq<Action>)
    requires Audible(run) && 0.0 <= level <= 1.0
    requires var s := Exec(i, run); s.reader.RIdle? && s.det.run == 0
    requires var s := Exec(i, run);
      if s.det.inSpeech then level < s.c.exit && n < AtLeastOne(s.c.hangover) else level >= s.c.enter && n < AtLeastOne(s.c.minSpeech)
    ensures Exec(i, more) == Exec(i, run).(det := Det(Exec(i, run).det.inSpeech, n)) && Audible(more)
  {
    if n == 0 {
      more := run;
    } else {
      more := Streak(i, run, level, n - 1);
      ExecSnoc(i, more, Frame(level));
      more := more + [Frame(level)];
    }
  }

  /** A whole streak, after which the detector reports the change and the reader acts on it. */
  lemma Reports(i: State, run: seq<Action>, level: real) returns (more: seq<Action>)
    requires Audible(run) && 0.0 <= level <= 1.0
    requires var s := Exec(i, run); s.reader.RIdle? && s.det.run == 0
    requires var s := Exec(i, run); if s.det.inSpeech then level < s.c.exit else level >= s.c.enter
    ensures var s := Exec(i, run);
      Exec(i, more) == Step(s.(det := Det(!s.det.inSpeech, 0), reader := RApply(if s.det.inSpeech then SpeechEnd else SpeechStart)), ReaderStep)
    ensures Audible(more)
  {
    var s := Exec(i, run);
    more := Streak(i, run, level, AtLeastOne(if s.det.inSpeech then s.c.hangover else s.c.minSpeech) - 1);
    ExecSnoc(i, more, Frame(level));
    more := more + [Frame(level)];
    ExecSnoc(i, more, ReaderStep);
    more := more + [ReaderStep];
  }

  /** A turn that finishes by itself just as the user interrupts it leaves such a latch behind. */
  lemma StaleLatchHappens(c: Thresholds) returns (run: seq<Action>)
    requires 0.0 < c.exit && c.enter <= 1.0
    ensures Audible(run) && StaleLatch(Exec(Init(c), run))
  {
    var i := Init(c);
    run := InterruptedTurn(c);
    ExecSnoc(i, run, TurnDone);  run := run + [TurnDone];
    ExecSnoc(i, run, OrchStep);  run := run + [OrchStep];
    ExecSnoc(i, run, OrchStep);  run := run + [OrchStep];
    assert Exec(i, run).latch && Exec(i, run).orch == Select(false);
    run := Reports(i, run, 0.0);
  }

  lemma InterruptedTurn(c: Thresholds) returns (run: seq<Action>)
    requires c.enter <= 1.0
    ensures Exec(Init(c), run) == Init(c).(det := Det(true, 0), mach := SpeakingUser, latch := true, orch := Select(true),
                                           accepted := [ResponseStarted, SpeechStart], turn := 1, heard := true)
    ensures Audible(run)
  {
    var i := Init(c);
    run := [];
    assert Exec(i, run) == i;
    ExecSnoc(i, run, Final(false));  run := run + [Final(false)];
    ExecSnoc(i, run, OrchStep);      run := run + [OrchStep];
    ExecSnoc(i, run, OrchStep);      run := run + [OrchStep];
    assert Exec(i, run).orch == Select(true) && Exec(i, run).mach == RespondingAgent;
    run := Reports(i, run, 1.0);
    ExecSnoc(i, run, ReaderStep);    run := run + [ReaderStep];
  }

  /** With thresholds that no frame can cross twice: speech, once started, is never seen to end. */
  predicate Endless(s: State) {
    && (s.c.exit <= 0.0 || s.c.enter > 1.0)
    && (s.det.inSpeech ==> s.c.enter <= 1.0)
    && (s.reader.RApply? ==> s.reader.ev.SpeechStart?)
    && (s.latch || s.reader == RPerform(ActCancelTurn) || (s.orch.Perform? && s.orch.act.ActCancelTurn?) ==> s.mach.SpeakingUser?)
  }

  lemma EndlessKept(s: State, a: Action)
    requires Inv(s) && Endless(s) && (a.Frame? ==> 0.0 <= a.level <= 1.0)
    ensures Endless(Step(s, a))
  {
  }

  lemma {:induction false} NoStaleLatch(s: State, run: seq<Action>)
    requires Inv(s) && Endless(s) && Audible(run)
    ensures !StaleLatch(Exec(s, run))
    decreases |run|
  {
    if run == [] {
    } else {
      assert run[0].Frame? ==> 0.0 <= run[0].level <= 1.0;
      StepInv(s, run[0]);
      EndlessKept(s, run[0]);
      NoStaleLatch(Step(s, run[0]), run[1..]);
    }
  }

  /** Audible frames can lead to a stale latch exactly when a frame can be loud and a frame can be quiet. */
  lemma StaleLatchReachableIff(c: Thresholds)
    ensures (exists run :: Audible(run) && StaleLatch(Exec(Init(c), run))) <==> 0.0 < c.exit && c.enter <= 1.0
  {
    if 0.0 < c.exit && c.enter <= 1.0 {
      var run := StaleLatchHappens(c);
    } else {
      forall run | Audible(run) ensures !StaleLatch(Exec(Init(c), run)) {
        NoStaleLatch(Init(c), run);
      }
    }
  }

  // ---------------------------------------------------------------------------
  // The controller as an object

  /** The slice of the pipeline that the controller drives. */
  class Sink<F> {
    var latch: bool
    var endUtt: bool
    var audio: seq<F>

    constructor ()
      ensures !latch && !endUtt && audio == []
    {
      latch, endUtt, audio := false, false, [];
    }
  }

  class Controller<F> {
    const det: Energy
    const machine: Machine
    const sink: Sink<F>

    constructor (c: Thresholds, sink: Sink<F>)
      ensures fresh(det) && fresh(machine) && this.sink == sink && det.c == c
      ensures det.Memory() == Det(false, 0) && machine.Valid() && machine.accepted == [] && machine.illegal == 0
    {
      this.sink := sink;
      det := new Energy(c);
      machine := new Machine();
    }

    /** The objects hold what the model state says, and no reader step is pending. */
    ghost predicate Shows(s: State)
      reads det, machine, sink
    {
      && s.c == det.c && s.det == det.Memory()
      && machine.Valid() && s.accepted == machine.accepted
      && s.mach == machine.state && s.illegal == machine.illegal
      && s.latch == sink.latch && s.endUtt == sink.endUtt
      && s.reader.RIdle?
    }

    method Act(act: Act)
      modifies sink`latch, sink`endUtt
      ensures sink.latch == (old(sink.latch) || act.ActCancelTurn?)
      ensures sink.endUtt == (old(sink.endUtt) || act.ActEndUtterance?)
    {
      match act {
        case ActEndUtterance => sink.endUtt := true;
        case ActCancelTurn => sink.latch := true;
        case ActNone =>
      }
    }

    /** `Ingest` is the reader's run of at most three steps, followed by forwarding the frame. */
    method Ingest(level: real, f: F, ghost s: State)
      requires Shows(s)
      modifies det, machine, sink
      ensures Shows(Step(Step(Step(s, Frame(level)), ReaderStep), ReaderStep))
      ensures sink.audio == old(sink.audio) + [f]
    {
      var ev := det.Process(level);
      if ev != NoEvent {
        var ok, act := machine.Apply(ev);
        if ok {
          Act(act);
        }
      }
      sink.audio := sink.audio + [f];
    }

    /** The turn hooks run on the orchestrator: apply the event, then its action. */
    method Notify(ev: Event, ghost s: State)
      requires Shows(s) && (ev.ResponseStarted? || ev.ResponseDone?)
      requires if ev.ResponseStarted? then s.orch.Hook? else s.orch.Ending?
      modifies machine, sink`latch, sink`endUtt
      ensures Shows(Step(Step(s, OrchStep), OrchStep))
    {
      var ok, act := machine.Apply(ev);
      if ok {
        Act(act);
      }
    }
  }
}
