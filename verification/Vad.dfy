/** Voice activity: the energy detector and the conversation state machine, as objects and as functions. */
module Vad {

  datatype Event = NoEvent | SpeechStart | SpeechEnd | ResponseStarted | ResponseDone

  datatype Talk = Listening | SpeakingUser | Thinking | RespondingAgent

  datatype Act = ActNone | ActEndUtterance | ActCancelTurn

  // ---------------------------------------------------------------------------
  // Conversation state machine

  datatype Cell = Illegal | Legal(next: Talk, act: Act)

  /** The transition table of the design. */
  function Table(t: Talk, ev: Event): Cell {
    match (t, ev)
    case (Listening, SpeechStart) => Legal(SpeakingUser, ActNone)
    case (Listening, ResponseStarted) => Legal(RespondingAgent, ActNone)
    case (Listening, ResponseDone) => Legal(Listening, ActNone)
    case (SpeakingUser, SpeechEnd) => Legal(Thinking, ActEndUtterance)
    case (SpeakingUser, ResponseStarted) => Legal(SpeakingUser, ActCancelTurn)
    case (SpeakingUser, ResponseDone) => Legal(SpeakingUser, ActNone)
    case (Thinking, SpeechStart) => Legal(SpeakingUser, ActCancelTurn)
    case (Thinking, ResponseStarted) => Legal(RespondingAgent, ActNone)
    case (Thinking, ResponseDone) => Legal(Listening, ActNone)
    case (RespondingAgent, SpeechStart) => Legal(SpeakingUser, ActCancelTurn)
    case (RespondingAgent, ResponseDone) => Legal(Listening, ActNone)
    case _ => Illegal
  }

  /** Whether the last speech event was a start. */
  function UserSpeaks(evs: seq<Event>): bool {
    if evs == [] then false
    else
      var last := evs[|evs| - 1];
      if last.SpeechStart? then true else if last.SpeechEnd? then false else UserSpeaks(evs[..|evs| - 1])
  }

  /** What the accepted events so far mean: the user is speaking, or the last event decides. */
  function Meaning(evs: seq<Event>): Talk {
    if UserSpeaks(evs) then SpeakingUser
    else if evs == [] then Listening
    else
      match evs[|evs| - 1]
      case SpeechEnd => Thinking
      case ResponseStarted => RespondingAgent
      case _ => Listening
  }

  /** The events that make sense next: speech changes, and a response starts only once. */
  predicate Sensible(evs: seq<Event>, ev: Event) {
    match ev
    case NoEvent => false
    case SpeechStart => !UserSpeaks(evs)
    case SpeechEnd => UserSpeaks(evs)
    case ResponseStarted => Meaning(evs) != RespondingAgent
    case ResponseDone => true
  }

  /** What the next event asks for: to end the utterance, or to cancel what the user talks over. */
  function Asks(evs: seq<Event>, ev: Event): Act {
    if ev.SpeechEnd? then ActEndUtterance
    else if (ev.SpeechStart? && Meaning(evs) != Listening) || (ev.ResponseStarted? && UserSpeaks(evs)) then ActCancelTurn
    else ActNone
  }

  /** One event keeps the state in step with the meaning of the history, and acts as the history asks. */
  lemma TableMeans(evs: seq<Event>, ev: Event)
    ensures Table(Meaning(evs), ev).Legal? <==> Sensible(evs, ev)
    ensures Sensible(evs, ev) ==> Table(Meaning(evs), ev) == Legal(Meaning(evs + [ev]), Asks(evs, ev))
  {
    assert (evs + [ev])[..|evs|] == evs;
  }

  class Machine {
    var state: Talk
    var illegal: nat
    ghost var accepted: seq<Event>

    ghost predicate Valid()
      reads this
    {
      state == Meaning(accepted)
    }

    constructor ()
      ensures Valid() && state == Listening && illegal == 0 && accepted == []
    {
      state, illegal, accepted := Listening, 0, [];
    }

    /**
     Accepts the events that make sense after those accepted so far, and asks for what they ask for;
     any other event is counted and leaves the state alone.  In the product's terms it follows the table.
     */
    method Apply(ev: Event) returns (ok: bool, act: Act)
      requires Valid()
      modifies this
      ensures Valid() && ok == Sensible(old(accepted), ev)
      ensures accepted == if ok then old(accepted) + [ev] else old(accepted)
      ensures act == if ok then Asks(old(accepted), ev) else ActNone
      ensures ok == Table(old(state), ev).Legal?
      ensures ok ==> Legal(state, act) == Table(old(state), ev) && illegal == old(illegal)
      ensures !ok ==> state == old(state) && act == ActNone && illegal == old(illegal) + 1
    {
      TableMeans(accepted, ev);
      var next := state;
      act, ok := ActNone, true;
      match state {
        case Listening =>
          match ev {
            case SpeechStart => next := SpeakingUser;
            case ResponseStarted => next := RespondingAgent;
            case ResponseDone => next := Listening;
            case _ => ok := false;
          }
        case SpeakingUser =>
          match ev {
            case SpeechEnd => next, act := Thinking, ActEndUtterance;
            case ResponseStarted => next, act := SpeakingUser, ActCancelTurn;
            case ResponseDone => next := SpeakingUser;
            case _ => ok := false;
          }
        case Thinking =>
          match ev {
            case SpeechStart => next, act := SpeakingUser, ActCancelTurn;
            case ResponseStarted => next := RespondingAgent;
            case ResponseDone => next := Listening;
            case _ => ok := false;
          }
        case RespondingAgent =>
          match ev {
            case SpeechStart => next, act := SpeakingUser, ActCancelTurn;
            case ResponseDone => next := Listening;
            case _ => ok := false;
          }
      }
      if !ok {
        illegal := illegal + 1;
        return;
      }
      TableMeans(accepted, ev);
      state, accepted := next, accepted + [ev];
    }
  }

  // ---------------------------------------------------------------------------
  // Energy detector

  datatype Thresholds = Thresholds(enter: real, exit: real, minSpeech: int, hangover: int)

  /** A duration in frames: rounded up, and at least one. */
  function DurationFrames(d: int, frame: int): (n: int)
    ensures n >= 1
    ensures frame <= 0 ==> n == 1
    ensures frame > 0 ==> n * frame >= d && (n == 1 || (n - 1) * frame < d)
  {
    if frame <= 0 || d <= 0 then 1 else (d + frame - 1) / frame
  }

  /** The detector's memory: whether it is inside speech, and how long the opposite has lasted. */
  datatype Det = Det(inSpeech: bool, run: nat)

  function Detect(c: Thresholds, d: Det, level: real): (Det, Event) {
    if !d.inSpeech then
      if level < c.enter then (Det(false, 0), NoEvent)
      else if d.run + 1 >= c.minSpeech then (Det(true, 0), SpeechStart)
      else (Det(false, d.run + 1), NoEvent)
    else
      if level >= c.exit then (Det(true, 0), NoEvent)
      else if d.run + 1 >= c.hangover then (Det(false, 0), SpeechEnd)
      else (Det(true, d.run + 1), NoEvent)
  }

  class Energy {
    const c: Thresholds
    var inSpeech: bool
    var run: nat

    constructor (c: Thresholds)
      ensures this.c == c && Memory() == Det(false, 0)
    {
      this.c := c;
      inSpeech, run := false, 0;
    }

    function Memory(): Det
      reads this
    {
      Det(inSpeech, run)
    }

    /** One frame; `level` is the frame's RMS. */
    method Process(level: real) returns (ev: Event)
      modifies this
      ensures (Memory(), ev) == Detect(c, old(Memory()), level)
    {
      if !inSpeech {
        if level >= c.enter {
          run := run + 1;
          if run >= c.minSpeech {
            inSpeech := true;
            run := 0;
            return SpeechStart;
          }
        } else {
          run := 0;
        }
        return NoEvent;
      }
      if level < c.exit {
        run := run + 1;
        if run >= c.hangover {
          inSpeech := false;
          run := 0;
          return SpeechEnd;
        }
      } else {
        run := 0;
      }
      return NoEvent;
    }
  }

  function Hear(c: Thresholds, levels: seq<real>): Det {
    if levels == [] then Det(false, 0)
    else Detect(c, Hear(c, levels[..|levels| - 1]), levels[|levels| - 1]).0
  }

  /** The last `k` frames were all at or above `bound` (or, quiet, all below it). */
  ghost predicate Lately(levels: seq<real>, k: int, bound: real, quiet: bool) {
    k <= |levels| && forall i :: |levels| - k <= i < |levels| && 0 <= i ==> (levels[i] < bound) == quiet
  }

  function AtLeastOne(n: int): int {
    if n < 1 then 1 else n
  }

  /** `run` counts exactly the unbroken streak of frames that argue for the other state. */
  lemma {:induction false} RunIsStreak(c: Thresholds, levels: seq<real>, k: nat)
    requires c.exit <= c.enter && k >= 1
    ensures var d := Hear(c, levels);
      && d.run < AtLeastOne(if d.inSpeech then c.hangover else c.minSpeech)
      && (d.run >= k <==> Lately(levels, k, if d.inSpeech then c.exit else c.enter, d.inSpeech))
  {
    if levels == [] {
    } else {
      var front, last := levels[..|levels| - 1], levels[|levels| - 1];
      RunIsStreak(c, front, 1);
      if k >= 2 {
        RunIsStreak(c, front, k - 1);
      }
      var d := Hear(c, levels);
      var bound := if d.inSpeech then c.exit else c.enter;
      StreakGrows(front, last, k, bound, d.inSpeech);
    }
  }

  lemma StreakGrows(front: seq<real>, last: real, k: nat, bound: real, quiet: bool)
    requires k >= 1
    ensures Lately(front + [last], k, bound, quiet) <==> (last < bound) == quiet && (k == 1 || Lately(front, k - 1, bound, quiet))
  {
    var levels := front + [last];
    if (last < bound) == quiet && (k == 1 || Lately(front, k - 1, bound, quiet)) {
      assert forall i :: |levels| - k <= i < |levels| && 0 <= i < |front| ==> levels[i] == front[i];
    }
    if Lately(levels, k, bound, quiet) {
      assert levels[|front|] == last;
      assert forall i :: 0 <= i < |front| ==> levels[i] == front[i];
    }
  }

  /**
   A speech start is reported exactly when the detector is outside speech and the last `minSpeech`
   frames were all loud; a speech end exactly when it is inside and the last `hangover` were all quiet.
   */
  lemma DetectorFiresExactly(c: Thresholds, levels: seq<real>, level: real)
    requires c.exit <= c.enter
    ensures var d, ev := Hear(c, levels), Detect(c, Hear(c, levels), level).1;
      && (ev == SpeechStart <==> !d.inSpeech && Lately(levels + [level], AtLeastOne(c.minSpeech), c.enter, false))
      && (ev == SpeechEnd <==> d.inSpeech && Lately(levels + [level], AtLeastOne(c.hangover), c.exit, true))
      && (ev == NoEvent || ev == SpeechStart || ev == SpeechEnd)
  {
    var d := Hear(c, levels);
    var k := AtLeastOne(if d.inSpeech then c.hangover else c.minSpeech);
    var bound := if d.inSpeech then c.exit else c.enter;
    StreakGrows(levels, level, k, bound, d.inSpeech);
    if k >= 2 {
      RunIsStreak(c, levels, k - 1);
    } else {
      RunIsStreak(c, levels, 1);
    }
  }
}
