/**
 One response turn: LLM, token forwarder, TTS and egress pump, joined by bounded channels.

 The adapters enter only through their contract: they may send while their channel has room, they
 return when they are done, fail or are cancelled, and the kernel closes their output afterwards.
 A failing stage cancels the turn.  A run is any list of steps of the four goroutines.
 */
module TurnChain {

  /** An adapter's goroutine: inside `Stream`, back from it, or past closing its channel. */
  datatype Stage = Running | Returned | Closed

  datatype Forwarder<K> = Recv | Have(tok: K) | Finished

  datatype EgressPump = Taking | Pushing | Ended

  datatype Caps = Caps(tokens: nat, ttsIn: nat, ttsOut: nat)

  datatype Chain<K> = Chain(
    caps: Caps,
    cancelled: bool,
    llm: Stage,
    emitted: seq<K>,     // history: everything the LLM has sent
    tokens: seq<K>,
    fwd: Forwarder<K>,
    reply: seq<K>,       // what the forwarder has recorded
    given: seq<K>,       // history: everything sent on ttsIn
    ttsIn: seq<K>,
    tts: Stage,
    taken: seq<K>,       // history: what TTS has received
    synth: nat,          // history: how many frames TTS has sent
    ttsOut: nat,
    pump: EgressPump,
    egress: nat,         // history: how many frames the pump has pushed
    done: bool)

  datatype Action<K> =
    | Cancel
    | LlmSend(tok: K) | LlmReturn(failed: bool) | LlmClose
    | FwdRecv | FwdSend | FwdAbort | FwdEnd
    | TtsTake | TtsSend | TtsReturn(failed: bool) | TtsClose
    | PumpTake | PumpPush | PumpEnd
    | Finish

  function Init<K>(caps: Caps): Chain<K> {
    Chain(caps, false, Running, [], [], Recv, [], [], [], Running, [], 0, 0, Taking, 0, false)
  }

  predicate Enabled<K>(s: Chain<K>, a: Action<K>) {
    match a
    case Cancel => true
    case LlmSend(_) => s.llm.Running? && |s.tokens| < s.caps.tokens
    case LlmReturn(_) => s.llm.Running?
    case LlmClose => s.llm.Returned?
    case FwdRecv => s.fwd.Recv? && s.tokens != []
    case FwdSend => s.fwd.Have? && |s.ttsIn| < s.caps.ttsIn
    case FwdAbort => s.fwd.Have? && s.cancelled
    case FwdEnd => s.fwd.Recv? && s.tokens == [] && s.llm.Closed?
    case TtsTake => s.tts.Running? && s.ttsIn != []
    case TtsSend => s.tts.Running? && s.ttsOut < s.caps.ttsOut
    case TtsReturn(failed) => s.tts.Running? && (failed || s.cancelled || (s.ttsIn == [] && s.fwd.Finished?))
    case TtsClose => s.tts.Returned?
    case PumpTake => s.pump.Taking? && s.ttsOut > 0
    case PumpPush => s.pump.Pushing?
    case PumpEnd => s.pump.Taking? && s.ttsOut == 0 && s.tts.Closed?
    case Finish => !s.done && s.llm.Closed? && s.fwd.Finished? && s.tts.Closed? && s.pump.Ended?
  }

  function Step<K>(s: Chain<K>, a: Action<K>): Chain<K> {
    if !Enabled(s, a) then s else
    match a
    case Cancel => s.(cancelled := true)
    case LlmSend(k) => s.(emitted := s.emitted + [k], tokens := s.tokens + [k])
    case LlmReturn(failed) => s.(llm := Returned, cancelled := s.cancelled || failed)
    case LlmClose => s.(llm := Closed)
    case FwdRecv => s.(fwd := Have(s.tokens[0]), reply := s.reply + [s.tokens[0]], tokens := s.tokens[1..])
    case FwdSend => s.(fwd := Recv, given := s.given + [s.fwd.tok], ttsIn := s.ttsIn + [s.fwd.tok])
    case FwdAbort => s.(fwd := Finished)
    case FwdEnd => s.(fwd := Finished)
    case TtsTake => s.(taken := s.taken + [s.ttsIn[0]], ttsIn := s.ttsIn[1..])
    case TtsSend => s.(synth := s.synth + 1, ttsOut := s.ttsOut + 1)
    case TtsReturn(failed) => s.(tts := Returned, cancelled := s.cancelled || failed)
    case TtsClose => s.(tts := Closed)
    case PumpTake => s.(pump := Pushing, ttsOut := s.ttsOut - 1)
    case PumpPush => s.(pump := Taking, egress := s.egress + 1)
    case PumpEnd => s.(pump := Ended)
    case Finish => s.(done := true)
  }

  function Exec<K>(s: Chain<K>, run: seq<Action<K>>): Chain<K>
    decreases |run|
  {
    if run == [] then s else Exec(Step(s, run[0]), run[1..])
  }

  // ---------------------------------------------------------------------------
  // Tokens

  predicate TokensOk<K(==)>(s: Chain<K>) {
    && s.emitted == s.reply + s.tokens
    && s.given == s.taken + s.ttsIn
    && match s.fwd
       case Recv => s.reply == s.given
       case Have(k) => s.reply == s.given + [k]
       case Finished =>
         && s.given <= s.reply && |s.reply| <= |s.given| + 1
         && (s.cancelled || (s.reply == s.given && s.tokens == [] && s.llm.Closed?))
  }

  predicate Inv<K(==)>(s: Chain<K>) {
    && TokensOk(s)
    && (!s.tts.Running? && !s.cancelled ==> s.ttsIn == [] && s.fwd.Finished?)
    && (s.pump.Ended? ==> s.tts.Closed?)
    && (s.done ==> s.llm.Closed? && s.fwd.Finished? && s.tts.Closed? && s.pump.Ended?)
  }

  lemma LlmInv<K>(s: Chain<K>, a: Action<K>)
    requires Inv(s) && Enabled(s, a) && (a.LlmSend? || a.LlmReturn? || a.LlmClose?)
    ensures Inv(Step(s, a))
  {
  }

  /** The forwarder records a token before it sends it on. */
  lemma RecvTokens<K>(s: Chain<K>)
    requires TokensOk(s) && Enabled(s, FwdRecv)
    ensures TokensOk(Step(s, FwdRecv))
  {
    assert s.tokens == [s.tokens[0]] + s.tokens[1..];
  }

  lemma FwdTokens<K>(s: Chain<K>, a: Action<K>)
    requires TokensOk(s) && Enabled(s, a) && (a.FwdRecv? || a.FwdSend? || a.FwdAbort? || a.FwdEnd?)
    ensures TokensOk(Step(s, a))
  {
    if a.FwdRecv? {
      RecvTokens(s);
    }
  }

  lemma TtsInv<K>(s: Chain<K>, a: Action<K>)
    requires Inv(s) && Enabled(s, a) && (a.TtsTake? || a.TtsSend? || a.TtsReturn? || a.TtsClose?)
    ensures Inv(Step(s, a))
  {
    if a.TtsTake? {
      assert s.ttsIn == [s.ttsIn[0]] + s.ttsIn[1..];
    }
  }

  lemma StepInv<K>(s: Chain<K>, a: Action<K>)
    requires Inv(s)
    ensures Inv(Step(s, a))
  {
    if Enabled(s, a) {
      if a.LlmSend? || a.LlmReturn? || a.LlmClose? {
        LlmInv(s, a);
      } else if a.FwdRecv? || a.FwdSend? || a.FwdAbort? || a.FwdEnd? {
        FwdTokens(s, a);
      } else if a.TtsTake? || a.TtsSend? || a.TtsReturn? || a.TtsClose? {
        TtsInv(s, a);
      }
    }
  }

  lemma {:induction false} ExecInv<K>(s: Chain<K>, run: seq<Action<K>>)
    requires Inv(s)
    ensures Inv(Exec(s, run))
    decreases |run|
  {
    if run == [] {
    } else {
      StepInv(s, run[0]);
      ExecInv(Step(s, run[0]), run[1..]);
    }
  }

  /**
   What TTS is given is always a prefix of the recorded reply, itself a prefix of what the LLM sent,
   and short of it by at most one token; a turn that ends without being cancelled has given TTS, and
   recorded, every token.
   */
  lemma ReplyIsWhatWasSpoken<K>(caps: Caps, run: seq<Action<K>>)
    ensures var s := Exec(Init<K>(caps), run);
      && s.taken <= s.given <= s.reply <= s.emitted
      && |s.reply| <= |s.given| + 1
      && (s.done && !s.cancelled ==> s.taken == s.given == s.reply == s.emitted)
  {
    ExecInv(Init<K>(caps), run);
  }

  // ---------------------------------------------------------------------------
  // Frames and failures

  /** Frames are in the channel, in the pump's hand, or pushed; channels hold no more than they can. */
  predicate FramesOk<K>(s: Chain<K>) {
    && s.synth == s.ttsOut + s.egress + (if s.pump.Pushing? then 1 else 0)
    && (s.pump.Ended? ==> s.ttsOut == 0 && s.tts.Closed?)
    && (s.done ==> s.pump.Ended?)
    && |s.tokens| <= s.caps.tokens && |s.ttsIn| <= s.caps.ttsIn && s.ttsOut <= s.caps.ttsOut
  }

  lemma StepFrames<K>(s: Chain<K>, a: Action<K>)
    requires FramesOk(s)
    ensures FramesOk(Step(s, a))
  {
  }

  lemma {:induction false} ExecFrames<K>(s: Chain<K>, run: seq<Action<K>>)
    requires FramesOk(s)
    ensures FramesOk(Exec(s, run))
    decreases |run|
  {
    if run == [] {
    } else {
      StepFrames(s, run[0]);
      ExecFrames(Step(s, run[0]), run[1..]);
    }
  }

  /**
   Over every run each frame that TTS has sent is in the bounded channel, in the pump's hand or on
   egress; and when the turn is done, cancelled or not, all of them have reached egress.
   */
  lemma EveryFrameReachesEgress<K>(caps: Caps, run: seq<Action<K>>)
    ensures var s := Exec(Init<K>(caps), run);
      && s.synth == s.ttsOut + s.egress + (if s.pump.Pushing? then 1 else 0)
      && |s.tokens| <= caps.tokens && |s.ttsIn| <= caps.ttsIn && s.ttsOut <= caps.ttsOut
      && (s.done ==> s.egress == s.synth)
  {
    ExecFrames(Init<K>(caps), run);
    CapsKept(Init<K>(caps), run);
  }

  lemma {:induction false} CapsKept<K>(s: Chain<K>, run: seq<Action<K>>)
    ensures Exec(s, run).caps == s.caps
    decreases |run|
  {
    if run == [] {
    } else {
      CapsKept(Step(s, run[0]), run[1..]);
    }
  }

  /** The run holds a step that cancels the turn: from outside, or a stage that fails. */
  predicate Cancelling<K>(s: Chain<K>, run: seq<Action<K>>)
    decreases |run|
  {
    run != [] &&
    ((Enabled(s, run[0]) && (run[0].Cancel? || (run[0].LlmReturn? && run[0].failed) || (run[0].TtsReturn? && run[0].failed)))
     || Cancelling(Step(s, run[0]), run[1..]))
  }

  lemma {:induction false} CancelledBy<K>(s: Chain<K>, run: seq<Action<K>>)
    ensures Exec(s, run).cancelled <==> s.cancelled || Cancelling(s, run)
    decreases |run|
  {
    if run == [] {
    } else {
      CancelledBy(Step(s, run[0]), run[1..]);
    }
  }

  /** A turn is cancelled exactly if somebody cancelled it or one of its stages failed. */
  lemma CancelledIff<K>(caps: Caps, run: seq<Action<K>>)
    ensures Exec(Init<K>(caps), run).cancelled <==> Cancelling(Init<K>(caps), run)
  {
    CancelledBy(Init<K>(caps), run);
  }

  // ---------------------------------------------------------------------------
  // Cancellation makes progress

  /** Steps the kernel takes by itself, or that the contract obliges a cancelled adapter to take. */
  predicate Obliged<K>(a: Action<K>) {
    !a.Cancel? && !a.LlmSend? && !a.TtsSend?
  }

  function Left(st: Stage): nat {
    match st
    case Running => 2
    case Returned => 1
    case Closed => 0
  }

  /** An upper bound on the obliged steps still to come. */
  function Work<K>(s: Chain<K>): nat {
    Left(s.llm) + 4 * |s.tokens| + (match s.fwd case Recv => 1 case Have(_) => 3 case Finished => 0)
    + |s.ttsIn| + Left(s.tts) + 2 * s.ttsOut + (match s.pump case Taking => 1 case Pushing => 2 case Ended => 0)
    + (if s.done then 0 else 1)
  }

  /** A step that must come: it exists in every cancelled state that is not done. */
  function Next<K>(s: Chain<K>): Action<K> {
    if s.llm.Running? then LlmReturn(false)
    else if s.llm.Returned? then LlmClose
    else if s.fwd.Have? then FwdAbort
    else if s.fwd.Recv? then (if s.tokens != [] then FwdRecv else FwdEnd)
    else if s.tts.Running? then TtsReturn(false)
    else if s.tts.Returned? then TtsClose
    else if s.pump.Pushing? then PumpPush
    else if s.pump.Taking? then (if s.ttsOut > 0 then PumpTake else PumpEnd)
    else Finish
  }

  /** What an adapter's send adds to the work of the stages behind it. */
  function Adds<K>(a: Action<K>): nat {
    if a.LlmSend? then 4 else if a.TtsSend? then 2 else 0
  }

  lemma LlmWork<K>(s: Chain<K>, a: Action<K>)
    requires Enabled(s, a) && (a.LlmSend? || a.LlmReturn? || a.LlmClose?)
    ensures Work(Step(s, a)) + (if Obliged(a) then 1 else 0) <= Work(s) + Adds(a)
  {
  }

  lemma FwdWork<K>(s: Chain<K>, a: Action<K>)
    requires Enabled(s, a) && (a.FwdRecv? || a.FwdSend? || a.FwdAbort? || a.FwdEnd?)
    ensures Work(Step(s, a)) + 1 <= Work(s)
  {
  }

  lemma TtsWork<K>(s: Chain<K>, a: Action<K>)
    requires Enabled(s, a) && (a.TtsTake? || a.TtsSend? || a.TtsReturn? || a.TtsClose?)
    ensures Work(Step(s, a)) + (if Obliged(a) then 1 else 0) <= Work(s) + Adds(a)
  {
  }

  lemma PumpWork<K>(s: Chain<K>, a: Action<K>)
    requires Enabled(s, a) && (a.PumpTake? || a.PumpPush? || a.PumpEnd? || a.Finish?)
    ensures Work(Step(s, a)) + 1 <= Work(s)
  {
  }

  /** An obliged step is paid for, and only a send adds to what is to be paid. */
  lemma StepsWork<K>(s: Chain<K>, a: Action<K>)
    requires Enabled(s, a)
    ensures Work(Step(s, a)) + (if Obliged(a) then 1 else 0) <= Work(s) + Adds(a)
  {
    if a.LlmSend? || a.LlmReturn? || a.LlmClose? {
      LlmWork(s, a);
    } else if a.FwdRecv? || a.FwdSend? || a.FwdAbort? || a.FwdEnd? {
      FwdWork(s, a);
    } else if a.TtsTake? || a.TtsSend? || a.TtsReturn? || a.TtsClose? {
      TtsWork(s, a);
    } else if !a.Cancel? {
      PumpWork(s, a);
    }
  }

  /** How many obliged steps the run takes. */
  function Taken<K>(s: Chain<K>, run: seq<Action<K>>): nat
    decreases |run|
  {
    if run == [] then 0
    else (if Enabled(s, run[0]) && Obliged(run[0]) then 1 else 0) + Taken(Step(s, run[0]), run[1..])
  }

  /** What the sends that adapters still get through during the run add. */
  function Added<K>(s: Chain<K>, run: seq<Action<K>>): nat
    decreases |run|
  {
    if run == [] then 0
    else (if Enabled(s, run[0]) then Adds(run[0]) else 0) + Added(Step(s, run[0]), run[1..])
  }

  lemma {:induction false} TakenIsBounded<K>(s: Chain<K>, run: seq<Action<K>>)
    ensures Taken(s, run) + Work(Exec(s, run)) <= Work(s) + Added(s, run)
    decreases |run|
  {
    if run == [] {
    } else {
      if Enabled(s, run[0]) {
        StepsWork(s, run[0]);
      }
      TakenIsBounded(Step(s, run[0]), run[1..]);
    }
  }

  lemma {:induction false} StaysCancelled<K>(s: Chain<K>, run: seq<Action<K>>)
    requires Inv(s) && s.cancelled
    ensures Inv(Exec(s, run)) && Exec(s, run).cancelled
    decreases |run|
  {
    if run == [] {
    } else {
      StepInv(s, run[0]);
      CancelSticks(s, run[0]);
      StaysCancelled(Step(s, run[0]), run[1..]);
    }
  }

  lemma CancelSticks<K>(s: Chain<K>, a: Action<K>)
    requires s.cancelled
    ensures Step(s, a).cancelled
  {
  }

  lemma NextIsReady<K>(s: Chain<K>)
    requires Inv(s) && s.cancelled
    ensures s.done || (Enabled(s, Next(s)) && Obliged(Next(s)))
  {
  }

  /**
   However a cancelled turn goes on, the steps that the kernel or the contract obliges are at most
   `Work` of them, and four and two more for each send that the LLM and TTS still get through; and as
   long as the turn is not done another obliged step is ready, so `done` closes.
   */
  lemma CancelledTurnEnds<K>(caps: Caps, prefix: seq<Action<K>>, run: seq<Action<K>>)
    ensures var s := Exec(Init<K>(caps), prefix); var t := Exec(s, run);
      && Taken(s, run) <= Work(s) + Added(s, run)
      && (s.cancelled ==> t.done || (Enabled(t, Next(t)) && Obliged(Next(t))))
  {
    ExecInv(Init<K>(caps), prefix);
    var s := Exec(Init<K>(caps), prefix);
    TakenIsBounded(s, run);
    if s.cancelled {
      StaysCancelled(s, run);
      NextIsReady(Exec(s, run));
    }
  }
}
