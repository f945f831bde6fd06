/** How each call of the actor pool ends, said of the calls and cancellations that were made. */
module ActorPoolCalls {
  import opened Sequences
  import opened ActorPool
  import opened ActorPoolRuns

  predicate ClosePhase(p: Phase) {
    p.WantClose? || p.CloseAnnounced? || p.Closing? || p.ClosingChannels? || p.WaitingForWorkers? || p.CloseReturned?
  }

  /** The call still stands for the key it was made for. */
  predicate KeyTracks(s: State, p: Phase, k: Key) {
    if p.Returned? then
      p.outcome.Ran? || p.outcome.GaveUp? ==> p.outcome.ch in s.chans && s.chans[p.outcome.ch].key == k
    else !ClosePhase(p) && p.k == k
  }

  /** What the steps so far say of call t. */
  ghost predicate StoryOf(s: State, steps: seq<Step>, t: CallId) {
    && (forall k :: CallDo(t, k) in steps ==> t in s.calls && KeyTracks(s, s.calls[t], k))
    && (CallClose(t) in steps ==> t in s.calls && ClosePhase(s.calls[t]))
    && (t in s.calls ==> PhaseExplained(s, steps, t, s.calls[t]))
  }

  /** How a call comes to be where it is. */
  ghost predicate PhaseExplained(s: State, steps: seq<Step>, t: CallId, p: Phase) {
    && (ClosePhase(p) ==> CallClose(t) in steps)
    && (p == Returned(PoolClosed) || p == CloseReturned(false) ==> s.closed)
    && (p == Returned(Cancelled) || p.CancelHolding? ==> CancelSend(t) in steps)
    && (p.Returned? && p.outcome.GaveUp? ==> GiveUpWaiting(t) in steps)
  }

  /** The call that a step belongs to, if any. */
  function CallOf(step: Step): Option<CallId> {
    match step
    case Receive(_) => None
    case Finish(_) => None
    case Exit(_) => None
    case _ => Some(step.t)
  }

  lemma OthersStay(s: State, step: Step, bufferSize: nat)
    requires Enabled(s, step, bufferSize)
    ensures var s' := Next(s, step, bufferSize);
      && (s.closed ==> s'.closed)
      && (forall u :: CallOf(step) != Some(u) ==>
            (u in s'.calls <==> u in s.calls) && (u in s.calls ==> s'.calls[u] == s.calls[u]))
      && (forall c :: c in s.chans ==> c in s'.chans && s'.chans[c].key == s.chans[c].key)
  {
    if !step.Create? { KeysKept(s, step, bufferSize); }
  }

  lemma OtherStory(s: State, steps: seq<Step>, step: Step, t: CallId, bufferSize: nat)
    requires Enabled(s, step, bufferSize) && StoryOf(s, steps, t) && CallOf(step) != Some(t)
    ensures StoryOf(Next(s, step, bufferSize), steps + [step], t)
  {
    var s', steps' := Next(s, step, bufferSize), steps + [step];
    OthersStay(s, step, bufferSize);
    forall k | CallDo(t, k) in steps' ensures t in s'.calls && KeyTracks(s', s'.calls[t], k) {
      assert CallDo(t, k) in steps;
    }
  }

  /** Short of taking a result or giving up, a step of a call of Do copies its key. */
  lemma CopiesKey(s: State, step: Step, t: CallId, bufferSize: nat)
    requires Enabled(s, step, bufferSize) && CallOf(step) == Some(t) && t in s.calls && !ClosePhase(s.calls[t])
    requires !step.TakeResult? && !step.GiveUpWaiting?
    ensures !s.calls[t].Returned? && t in Next(s, step, bufferSize).calls
    ensures var p, p' := s.calls[t], Next(s, step, bufferSize).calls[t];
            if p'.Returned? then p'.outcome.PoolClosed? || p'.outcome.Cancelled? else !ClosePhase(p') && p'.k == p.k
  {
  }

  /** A step of the call itself keeps its key, except that it makes the call. */
  lemma OwnKey(s: State, step: Step, t: CallId, k: Key, bufferSize: nat)
    requires CallInv(s) && OneActorPerKey(s) && Enabled(s, step, bufferSize) && CallOf(step) == Some(t) && t in s.calls
    requires KeyTracks(s, s.calls[t], k)
    ensures t in Next(s, step, bufferSize).calls
    ensures KeyTracks(Next(s, step, bufferSize), Next(s, step, bufferSize).calls[t], k)
  {
    OwnClose(s, step, t, bufferSize);
    if step.TakeResult? || step.GiveUpWaiting? {
      assert HasChannel(s.calls[t]);
    } else {
      NeverReturned(s, step, t, bufferSize);
      CopiesKey(s, step, t, bufferSize);
    }
  }

  lemma NeverReturned(s: State, step: Step, t: CallId, bufferSize: nat)
    requires Enabled(s, step, bufferSize) && CallOf(step) == Some(t) && t in s.calls
    ensures !s.calls[t].Returned?
  {
  }

  lemma OwnClose(s: State, step: Step, t: CallId, bufferSize: nat)
    requires Enabled(s, step, bufferSize) && CallOf(step) == Some(t) && t in s.calls
    ensures t in Next(s, step, bufferSize).calls
    ensures ClosePhase(Next(s, step, bufferSize).calls[t]) <==> ClosePhase(s.calls[t])
  {
  }

  lemma OwnExplained(s: State, steps: seq<Step>, step: Step, t: CallId, bufferSize: nat)
    requires Enabled(s, step, bufferSize) && CallOf(step) == Some(t) && t in s.calls
    requires PhaseExplained(s, steps, t, s.calls[t])
    ensures t in Next(s, step, bufferSize).calls
    ensures PhaseExplained(Next(s, step, bufferSize), steps + [step], t, Next(s, step, bufferSize).calls[t])
  {
    OwnClose(s, step, t, bufferSize);
    assert step in steps + [step];
  }

  lemma OwnStory(s: State, steps: seq<Step>, step: Step, t: CallId, bufferSize: nat)
    requires CallInv(s) && OneActorPerKey(s) && Enabled(s, step, bufferSize) && StoryOf(s, steps, t)
    requires CallOf(step) == Some(t)
    ensures StoryOf(Next(s, step, bufferSize), steps + [step], t)
  {
    var s', steps' := Next(s, step, bufferSize), steps + [step];
    assert step in steps';
    if t in s.calls {
      OwnClose(s, step, t, bufferSize);
      OwnExplained(s, steps, step, t, bufferSize);
      forall k | CallDo(t, k) in steps' ensures KeyTracks(s', s'.calls[t], k) {
        assert CallDo(t, k) in steps;
        OwnKey(s, step, t, k, bufferSize);
      }
    }
  }

  /** Every call, in every run, is where its own steps put it. */
  lemma {:induction false} RunStory(states: seq<State>, steps: seq<Step>, t: CallId, bufferSize: nat)
    requires IsRun(states, steps, bufferSize) && states[0] == INIT
    ensures StoryOf(states[|steps|], steps, t)
    decreases |steps|
  {
    var n := |steps|;
    if n > 0 {
      var s := states[n - 1];
      RunStory(states[..n], steps[..n - 1], t, bufferSize);
      RunKeepsInv(states[..n], steps[..n - 1], bufferSize);
      assert steps == steps[..n - 1] + [steps[n - 1]];
      if CallOf(steps[n - 1]) == Some(t) {
        OwnStory(s, steps[..n - 1], steps[n - 1], t, bufferSize);
      } else {
        OtherStory(s, steps[..n - 1], steps[n - 1], t, bufferSize);
      }
    }
  }

  ghost predicate IsFullRun(states: seq<State>, steps: seq<Step>, bufferSize: nat) {
    IsRun(states, steps, bufferSize) && states[0] == INIT
  }

  /** A call is refused only by a closed pool, a pool is closed only by a call of Close, and a call
      comes back early only after its own cancellation. */
  lemma EarlyReturns(states: seq<State>, steps: seq<Step>, t: CallId, bufferSize: nat)
    requires IsFullRun(states, steps, bufferSize) && t in states[|steps|].calls
    ensures var s, p := states[|steps|], states[|steps|].calls[t];
      && (p == Returned(PoolClosed) ==> s.closed && exists u :: CallClose(u) in steps)
      && (p == Returned(Cancelled) ==> CancelSend(t) in steps)
      && (p.Returned? && p.outcome.GaveUp? ==> GiveUpWaiting(t) in steps)
  {
    RunStory(states, steps, t, bufferSize);
    if states[|steps|].closed { ClosedByClose(states, steps, bufferSize); }
  }

  lemma ClosedByClose(states: seq<State>, steps: seq<Step>, bufferSize: nat)
    requires IsFullRun(states, steps, bufferSize) && states[|steps|].closed
    ensures exists u :: CallClose(u) in steps
  {
    var s := states[|steps|];
    RunKeepsInv(states, steps, bufferSize);
    var u := s.closer.value;
    RunStory(states, steps, u, bufferSize);
    assert s.closer == Some(u) && ClosePhase(s.calls[u]);
  }

  /** How a call of Do for key k may end. */
  ghost predicate DoEnded(s: State, steps: seq<Step>, t: CallId, k: Key) {
    && t in s.calls && s.calls[t].Returned?
    && match s.calls[t].outcome
       case Ran(c) => c in s.chans && s.chans[c].key == k && t in s.chans[c].finished
       case GaveUp(c) => c in s.chans && s.chans[c].key == k && t in s.chans[c].finished && GiveUpWaiting(t) in steps
       case PoolClosed => s.closed && exists u :: CallClose(u) in steps
       case Cancelled => CancelSend(t) in steps
  }

  /** At rest every call of Do has run its function on its own key, unless the pool was closed or
      the caller cancelled before the send. */
  lemma EveryDoEnds(states: seq<State>, steps: seq<Step>, t: CallId, k: Key, bufferSize: nat)
    requires IsFullRun(states, steps, bufferSize) && CallDo(t, k) in steps
    requires forall step :: IsProgress(step) ==> !Enabled(states[|steps|], step, bufferSize)
    ensures DoEnded(states[|steps|], steps, t, k)
  {
    RunStory(states, steps, t, bufferSize);
    RestOfRun(states, steps, bufferSize);
    if states[|steps|].closed { ClosedByClose(states, steps, bufferSize); }
    OverIsEnded(states[|steps|], steps, t, k);
  }

  lemma RestOfRun(states: seq<State>, steps: seq<Step>, bufferSize: nat)
    requires IsFullRun(states, steps, bufferSize)
    requires forall step :: IsProgress(step) ==> !Enabled(states[|steps|], step, bufferSize)
    ensures var s := states[|steps|];
      forall t :: t in s.calls ==> IsOver(s.calls[t]) && (HasRun(s, t) || AcceptedBy(s.calls[t]).None?)
  {
    assert Reachable(states[|steps|], bufferSize);
    AtRestAllDone(states[|steps|], bufferSize);
  }

  lemma OverIsEnded(s: State, steps: seq<Step>, t: CallId, k: Key)
    requires StoryOf(s, steps, t) && CallDo(t, k) in steps && (s.closed ==> exists u :: CallClose(u) in steps)
    requires t in s.calls ==> IsOver(s.calls[t]) && (HasRun(s, t) || AcceptedBy(s.calls[t]).None?)
    ensures DoEnded(s, steps, t, k)
  {
    assert KeyTracks(s, s.calls[t], k) && !ClosePhase(s.calls[t]);
  }

  /** Without a Close and without cancellations every call of Do has run its function. */
  lemma UndisturbedDoRuns(states: seq<State>, steps: seq<Step>, t: CallId, k: Key, bufferSize: nat)
    requires IsFullRun(states, steps, bufferSize) && CallDo(t, k) in steps
    requires forall step :: IsProgress(step) ==> !Enabled(states[|steps|], step, bufferSize)
    requires forall i :: 0 <= i < |steps| ==> !steps[i].CallClose? && !steps[i].CancelSend? && !steps[i].GiveUpWaiting?
    ensures var s := states[|steps|];
      && t in s.calls && s.calls[t].Returned? && s.calls[t].outcome.Ran?
      && s.calls[t].outcome.ch in s.chans && s.chans[s.calls[t].outcome.ch].key == k
      && t in s.chans[s.calls[t].outcome.ch].finished
  {
    EveryDoEnds(states, steps, t, k, bufferSize);
    forall u ensures CallClose(u) !in steps && CancelSend(u) !in steps && GiveUpWaiting(u) !in steps {
    }
  }

  /** At rest every call of Close has returned, and if there was one the pool is closed and exactly
      one of them closed it. */
  lemma EveryCloseEnds(states: seq<State>, steps: seq<Step>, t: CallId, bufferSize: nat)
    requires IsFullRun(states, steps, bufferSize) && CallClose(t) in steps
    requires forall step :: IsProgress(step) ==> !Enabled(states[|steps|], step, bufferSize)
    ensures var s := states[|steps|];
      && s.closed && t in s.calls && s.calls[t].CloseReturned?
      && exists u :: CallClose(u) in steps && u in s.calls && s.calls[u] == CloseReturned(true)
                     && forall v :: v in s.calls && s.calls[v] == CloseReturned(true) ==> v == u
  {
    var s := states[|steps|];
    RunStory(states, steps, t, bufferSize);
    RestOfRun(states, steps, bufferSize);
    RunKeepsInv(states, steps, bufferSize);
    ClosedOnceReturned(s, t);
    RunStory(states, steps, s.closer.value, bufferSize);
    OneCloser(s);
  }

  lemma ClosedOnceReturned(s: State, t: CallId)
    requires ClosedInv(s) && t in s.calls && IsOver(s.calls[t]) && ClosePhase(s.calls[t])
    requires s.calls[t] == CloseReturned(false) ==> s.closed
    ensures s.closed && s.closer.Some? && s.calls[t].CloseReturned?
  {
  }

  lemma OneCloser(s: State)
    requires ClosedInv(s) && s.closer.Some? && s.closer.value in s.calls && IsOver(s.calls[s.closer.value])
    ensures s.calls[s.closer.value] == CloseReturned(true)
    ensures forall v :: v in s.calls && s.calls[v] == CloseReturned(true) ==> v == s.closer.value
  {
  }

  /** A caller can always cancel: before the send it is back in two steps of its own and nothing was
      accepted, after it at once, and what was accepted stays so. */
  lemma CancellingReturns(s: State, t: CallId, bufferSize: nat)
    requires t in s.calls && (s.calls[t].Sending? || s.calls[t].Awaiting?)
    ensures s.calls[t].Sending? ==>
              && Enabled(s, CancelSend(t), bufferSize)
              && var u := Next(s, CancelSend(t), bufferSize);
                 && Enabled(u, ReadUnlock(t), bufferSize)
                 && Next(u, ReadUnlock(t), bufferSize).chans == s.chans
                 && Next(u, ReadUnlock(t), bufferSize).calls == s.calls[t := Returned(Cancelled)]
    ensures s.calls[t].Awaiting? ==>
              && Enabled(s, GiveUpWaiting(t), bufferSize)
              && var u := Next(s, GiveUpWaiting(t), bufferSize);
                 u.chans == s.chans && u.calls == s.calls[t := Returned(GaveUp(s.calls[t].ch))]
  {
    if s.calls[t].Sending? {
      var u := Next(s, CancelSend(t), bufferSize);
      assert u.calls[t] == CancelHolding(s.calls[t].k);
      assert s.calls[t := u.calls[t]][t := Returned(Cancelled)] == s.calls[t := Returned(Cancelled)];
    }
  }
}
