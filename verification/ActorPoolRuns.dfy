/** What holds in every interleaving of the actor pool. */
module ActorPoolRuns {
  import opened Sequences
  import opened ActorPool

  ghost predicate IsRun(states: seq<State>, steps: seq<Step>, bufferSize: nat) {
    && |states| == |steps| + 1
    && forall i :: 0 <= i < |steps| ==>
         Enabled(states[i], steps[i], bufferSize) && states[i + 1] == Next(states[i], steps[i], bufferSize)
  }

  ghost predicate Reachable(s: State, bufferSize: nat) {
    exists states, steps :: IsRun(states, steps, bufferSize) && states[0] == INIT && states[|steps|] == s
  }

  lemma {:induction false} RunKeepsInv(states: seq<State>, steps: seq<Step>, bufferSize: nat)
    requires IsRun(states, steps, bufferSize) && Inv(states[0], bufferSize)
    ensures Inv(states[|steps|], bufferSize)
    decreases |steps|
  {
    var n := |steps|;
    if n > 0 {
      RunKeepsInv(states[..n], steps[..n - 1], bufferSize);
      StepKeepsInv(states[n - 1], steps[n - 1], bufferSize);
    }
  }

  lemma ReachableInv(s: State, bufferSize: nat)
    requires Reachable(s, bufferSize)
    ensures Inv(s, bufferSize)
  {
    var states, steps :| IsRun(states, steps, bufferSize) && states[0] == INIT && states[|steps|] == s;
    RunKeepsInv(states, steps, bufferSize);
  }

  // ----- Safety -----

  /** No operation is sent on a closed channel, and no channel is closed twice. */
  lemma ChannelsUsedSafely(s: State, step: Step, bufferSize: nat)
    requires Reachable(s, bufferSize) && Enabled(s, step, bufferSize)
    ensures step.Send? || step.HandOff? ==> !s.chans[s.calls[step.t].ch].chanClosed
    ensures step.CloseChannel? ==> !s.chans[step.c].chanClosed
  {
    ReachableInv(s, bufferSize);
    if step.Send? || step.HandOff? { SendersFindOpenChannel(s, step.t); }
    if step.CloseChannel? { assert s.closer == Some(step.t); }
  }

  /** Two workers never serve one key, so no two closures of a key run together. */
  lemma OneClosurePerKey(s: State, c: ChanId, d: ChanId, bufferSize: nat)
    requires Reachable(s, bufferSize) && c in s.chans && d in s.chans
    requires s.chans[c].key == s.chans[d].key
    ensures c == d
  {
    ReachableInv(s, bufferSize);
  }

  /** What has run on a key, with what is running, is a prefix of what was sent there, each
      operation at most once; an operation is recorded for its own key only, and one that was
      rejected or cancelled in time is recorded nowhere. */
  lemma RunsInSendOrder(s: State, c: ChanId, t: CallId, bufferSize: nat)
    requires Reachable(s, bufferSize) && c in s.chans
    ensures var a := s.chans[c];
      && a.finished + InHand(a) <= a.sent && NoDuplicates(a.sent)
      && (t in a.sent ==> t in s.calls && AcceptedBy(s.calls[t]) == Some(c))
      && (t in s.calls && s.calls[t].Returned? && s.calls[t].outcome.Ran? && s.calls[t].outcome.ch == c ==>
        t in a.finished)
      && (t in s.calls && (s.calls[t] == Returned(PoolClosed) || s.calls[t] == Returned(Cancelled)) ==> t !in a.sent)
  {
    ReachableInv(s, bufferSize);
    assert QueueOk(s.chans[c], bufferSize);
  }

  /** The two logs of a channel only grow. */
  lemma LogsGrow(s: State, step: Step, c: ChanId, bufferSize: nat)
    requires Enabled(s, step, bufferSize) && c in s.chans
    ensures var s' := Next(s, step, bufferSize);
      c in s'.chans && s.chans[c].sent <= s'.chans[c].sent && s.chans[c].finished <= s'.chans[c].finished
  {
    if IsMove(step) {
      MoveShape(s, step, bufferSize);
    } else if step.Create? {
      assert Next(s, step, bufferSize).chans[c] == s.chans[c];
    }
  }

  /** When the call that closed the pool returns, every accepted operation has finished, and
      no later step touches any channel: nothing is accepted or run any more. */
  lemma ClosingCallWaitsForAll(s: State, t: CallId, bufferSize: nat)
    requires Reachable(s, bufferSize) && t in s.calls && s.calls[t] == CloseReturned(true)
    ensures forall c :: c in s.chans ==> s.chans[c].finished == s.chans[c].sent && s.chans[c].worker == Exited
    ensures forall step :: Enabled(s, step, bufferSize) ==> Next(s, step, bufferSize).chans == s.chans
  {
    ReachableInv(s, bufferSize);
    assert s.closer == Some(t);
    forall c | c in s.chans ensures s.chans[c].finished == s.chans[c].sent {
      assert QueueOk(s.chans[c], bufferSize);
    }
    forall step | Enabled(s, step, bufferSize) ensures Next(s, step, bufferSize).chans == s.chans {
      NothingMovesAfterClose(s, t, step, bufferSize);
    }
  }

  lemma NothingMovesAfterClose(s: State, t: CallId, step: Step, bufferSize: nat)
    requires LockInv(s) && ClosedInv(s) && t in s.calls && s.calls[t] == CloseReturned(true)
    requires Enabled(s, step, bufferSize)
    ensures Next(s, step, bufferSize).chans == s.chans
  {
    assert s.closer == Some(t);
    if IsMove(step) {
      MoveShape(s, step, bufferSize);
    } else if step.Send? || step.HandOff? {
      assert false;
    }
  }

  // ----- No deadlock -----

  /** Steps of the pool itself, as opposed to new calls; cancelling is up to the caller. */
  predicate IsInternal(step: Step) {
    !step.CallDo? && !step.CallClose?
  }

  predicate IsProgress(step: Step) {
    IsInternal(step) && !step.CancelSend? && !step.GiveUpWaiting?
  }

  predicate IsOver(p: Phase) {
    p.Returned? || p.CloseReturned?
  }

  lemma FreshChannel(s: State) returns (ch: ChanId)
    ensures ch !in s.chans
  {
    ch := AboveAll(s.chans.Keys);
    assert ch !in s.chans.Keys;
  }

  lemma AboveAll(ids: set<nat>) returns (n: nat)
    ensures forall i :: i in ids ==> i < n
  {
    if ids == {} {
      n := 0;
    } else {
      var i :| i in ids;
      var m := AboveAll(ids - {i});
      n := if i < m then m else i + 1;
      forall j | j in ids ensures j < n { assert j == i || j in ids - {i}; }
    }
  }

  lemma WorkerMoves(s: State, c: ChanId, bufferSize: nat) returns (step: Step)
    requires c in s.chans && s.chans[c].worker != Exited
    requires s.chans[c].worker.Running? || s.chans[c].buf != [] || s.chans[c].chanClosed
    ensures Enabled(s, step, bufferSize) && IsProgress(step)
  {
    var a := s.chans[c];
    if a.worker.Running? { step := Finish(c); }
    else if a.buf != [] { step := Receive(c); }
    else { step := Exit(c); }
  }

  lemma ReaderMoves(s: State, t: CallId, bufferSize: nat) returns (step: Step)
    requires Inv(s, bufferSize) && t in s.calls && HoldsRead(s.calls[t])
    ensures Enabled(s, step, bufferSize) && IsProgress(step)
  {
    var p := s.calls[t];
    if p.LookingUp? { step := LookUp(t); }
    else if p.Rechecking? { step := Recheck(t); }
    else if p.SentHolding? || p.CancelHolding? { step := ReadUnlock(t); }
    else {
      SendersFindOpenChannel(s, t);
      var a := s.chans[p.ch];
      if |a.buf| < bufferSize { step := Send(t); }
      else if a.worker == Idle && a.buf == [] { step := HandOff(t); }
      else { step := WorkerMoves(s, p.ch, bufferSize); }
    }
  }

  lemma WriterMoves(s: State, bufferSize: nat) returns (step: Step)
    requires Inv(s, bufferSize) && s.writer != NoWriter
    ensures Enabled(s, step, bufferSize) && IsProgress(step)
  {
    var t := s.writer.t;
    if s.writer.Held? {
      var ch := FreshChannel(s);
      step := if s.calls[t].Creating? then Create(t, ch) else MarkClosed(t);
    } else if s.readers == {} {
      step := WriteLock(t);
    } else {
      var r :| r in s.readers;
      step := ReaderMoves(s, r, bufferSize);
    }
  }

  lemma AwaitingMoves(s: State, t: CallId, bufferSize: nat) returns (step: Step)
    requires Inv(s, bufferSize) && t in s.calls && s.calls[t].Awaiting?
    ensures Enabled(s, step, bufferSize) && IsProgress(step)
  {
    var c := s.calls[t].ch;
    assert t in s.chans[c].sent && QueueOk(s.chans[c], bufferSize);
    if t in s.chans[c].finished {
      step := TakeResult(t);
    } else {
      assert InHand(s.chans[c]) + s.chans[c].buf != [];
      step := WorkerMoves(s, c, bufferSize);
    }
  }

  lemma CloserMoves(s: State, t: CallId, bufferSize: nat) returns (step: Step)
    requires Inv(s, bufferSize) && t in s.calls && (s.calls[t].ClosingChannels? || s.calls[t].WaitingForWorkers?)
    ensures Enabled(s, step, bufferSize) && IsProgress(step)
  {
    assert s.closer == Some(t);
    if s.calls[t].ClosingChannels? {
      if s.calls[t].todo == {} {
        step := AllChannelsClosed(t);
      } else {
        var c :| c in s.calls[t].todo;
        step := CloseChannel(t, c);
      }
    } else if forall c :: c in s.chans ==> s.chans[c].worker == Exited {
      step := WorkersDone(t);
    } else {
      var c :| c in s.chans && s.chans[c].worker != Exited;
      step := WorkerMoves(s, c, bufferSize);
    }
  }

  /** As long as a call has not returned, some step other than a cancellation is possible. */
  lemma CallsNeverDeadlock(s: State, t: CallId, bufferSize: nat) returns (step: Step)
    requires Reachable(s, bufferSize) && t in s.calls && !IsOver(s.calls[t])
    ensures Enabled(s, step, bufferSize) && IsProgress(step)
  {
    ReachableInv(s, bufferSize);
    var p := s.calls[t];
    if s.writer != NoWriter {
      step := WriterMoves(s, bufferSize);
    } else if HoldsRead(p) {
      step := ReaderMoves(s, t, bufferSize);
    } else if p.WantRead? || p.WantReread? {
      step := ReadLock(t);
    } else if p.WantCreate? || p.WantClose? {
      step := Announce(t);
    } else if p.Awaiting? {
      step := AwaitingMoves(s, t, bufferSize);
    } else {
      step := CloserMoves(s, t, bufferSize);
    }
  }

  // ----- Every run ends -----

  function Rank(p: Phase): nat {
    match p
    case WantRead(_) => 14
    case LookingUp(_) => 13
    case WantCreate(_) => 12
    case CreateAnnounced(_) => 11
    case Creating(_) => 10
    case WantReread(_, _) => 7
    case Rechecking(_, _) => 6
    case Sending(_, _) => 5
    case SentHolding(_, _) => 2
    case CancelHolding(_) => 1
    case Awaiting(_, _) => 1
    case Returned(_) => 0
    case WantClose => 5
    case CloseAnnounced => 4
    case Closing => 3
    case ClosingChannels(_) => 2
    case WaitingForWorkers => 1
    case CloseReturned(_) => 0
  }

  function Work(a: Actor): nat {
    2 * |a.buf| + (if a.worker.Running? then 1 else 0)
    + (if a.worker == Exited then 0 else 1) + (if a.chanClosed then 0 else 1)
  }

  function Ranks(calls: map<CallId, Phase>): map<CallId, nat> {
    map t | t in calls :: Rank(calls[t])
  }

  function Works(chans: map<ChanId, Actor>): map<ChanId, nat> {
    map c | c in chans :: Work(chans[c])
  }

  /** An upper bound on the steps that the calls made so far can still take. */
  ghost function Measure(s: State): nat {
    MapSum(Ranks(s.calls)) + MapSum(Works(s.chans))
  }

  lemma RankChange(calls: map<CallId, Phase>, t: CallId, p: Phase)
    requires t in calls
    ensures MapSum(Ranks(calls[t := p])) == MapSum(Ranks(calls)) - Rank(calls[t]) + Rank(p)
  {
    assert Ranks(calls[t := p]) == Ranks(calls)[t := Rank(p)];
    MapSumUpdate(Ranks(calls), t, Rank(p));
  }

  lemma WorkChange(chans: map<ChanId, Actor>, c: ChanId, a: Actor)
    ensures MapSum(Works(chans[c := a])) == MapSum(Works(chans)) - (if c in chans then Work(chans[c]) else 0) + Work(a)
  {
    assert Works(chans[c := a]) == Works(chans)[c := Work(a)];
    MapSumUpdate(Works(chans), c, Work(a));
  }

  lemma MoveLowersRank(s: State, step: Step, bufferSize: nat)
    requires Enabled(s, step, bufferSize) && IsMove(step) && IsInternal(step)
    ensures var s' := Next(s, step, bufferSize);
      step.t in s.calls && step.t in s'.calls && Rank(s'.calls[step.t]) < Rank(s.calls[step.t])
  {
  }

  lemma MoveDecreases(s: State, step: Step, bufferSize: nat)
    requires Enabled(s, step, bufferSize) && IsMove(step) && IsInternal(step)
    ensures Measure(Next(s, step, bufferSize)) < Measure(s)
  {
    MoveShape(s, step, bufferSize);
    MoveLowersRank(s, step, bufferSize);
    RankChange(s.calls, step.t, Next(s, step, bufferSize).calls[step.t]);
  }

  lemma CreateDecreases(s: State, step: Step, bufferSize: nat)
    requires Enabled(s, step, bufferSize) && step.Create?
    ensures Measure(Next(s, step, bufferSize)) < Measure(s)
  {
    var k := s.calls[step.t].k;
    RankChange(s.calls, step.t, Next(s, step, bufferSize).calls[step.t]);
    WorkChange(s.chans, step.ch, Actor(k, [], false, Idle, [], []));
  }

  lemma BothChange(s: State, s': State, t: CallId, c: ChanId)
    requires t in s.calls && t in s'.calls && s'.calls == s.calls[t := s'.calls[t]]
    requires c in s.chans && c in s'.chans && s'.chans == s.chans[c := s'.chans[c]]
    requires Rank(s'.calls[t]) + Work(s'.chans[c]) < Rank(s.calls[t]) + Work(s.chans[c])
    ensures Measure(s') < Measure(s)
  {
    RankChange(s.calls, t, s'.calls[t]);
    WorkChange(s.chans, c, s'.chans[c]);
  }

  lemma SendDecreases(s: State, step: Step, bufferSize: nat)
    requires Enabled(s, step, bufferSize) && (step.Send? || step.HandOff?)
    ensures Measure(Next(s, step, bufferSize)) < Measure(s)
  {
    BothChange(s, Next(s, step, bufferSize), step.t, s.calls[step.t].ch);
  }

  lemma CloseChannelDecreases(s: State, step: Step, bufferSize: nat)
    requires ClosedInv(s) && Enabled(s, step, bufferSize) && step.CloseChannel?
    ensures Measure(Next(s, step, bufferSize)) < Measure(s)
  {
    assert s.closer == Some(step.t);
    assert !s.chans[step.c].chanClosed;
    BothChange(s, Next(s, step, bufferSize), step.t, step.c);
  }

  lemma WorkerDecreases(s: State, step: Step, bufferSize: nat)
    requires Enabled(s, step, bufferSize) && (step.Receive? || step.Finish? || step.Exit?)
    ensures Measure(Next(s, step, bufferSize)) < Measure(s)
  {
    WorkChange(s.chans, step.c, Next(s, step, bufferSize).chans[step.c]);
  }

  lemma StepDecreases(s: State, step: Step, bufferSize: nat)
    requires Inv(s, bufferSize) && Enabled(s, step, bufferSize) && IsInternal(step)
    ensures Measure(Next(s, step, bufferSize)) < Measure(s)
  {
    if IsMove(step) {
      MoveDecreases(s, step, bufferSize);
    } else if step.Create? {
      CreateDecreases(s, step, bufferSize);
    } else if step.Send? || step.HandOff? {
      SendDecreases(s, step, bufferSize);
    } else if step.CloseChannel? {
      CloseChannelDecreases(s, step, bufferSize);
    } else {
      WorkerDecreases(s, step, bufferSize);
    }
  }

  /** Without new calls the pool comes to rest: a run is no longer than the measure of the
      state it starts from. */
  lemma {:induction false} RunsEnd(states: seq<State>, steps: seq<Step>, bufferSize: nat)
    requires IsRun(states, steps, bufferSize) && Inv(states[0], bufferSize)
    requires forall i :: 0 <= i < |steps| ==> IsInternal(steps[i])
    ensures |steps| + Measure(states[|steps|]) <= Measure(states[0])
    decreases |steps|
  {
    var n := |steps|;
    if n > 0 {
      RunsEnd(states[..n], steps[..n - 1], bufferSize);
      RunKeepsInv(states[..n], steps[..n - 1], bufferSize);
      StepDecreases(states[n - 1], steps[n - 1], bufferSize);
    }
  }

  predicate HasRun(s: State, t: CallId)
    requires t in s.calls
  {
    var ch := AcceptedBy(s.calls[t]);
    ch.Some? && ch.value in s.chans && t in s.chans[ch.value].finished
  }

  /** At rest every call has returned and every accepted operation has run, also those whose
      caller gave up waiting. */
  lemma AtRestAllDone(s: State, bufferSize: nat)
    requires Reachable(s, bufferSize)
    requires forall step :: IsProgress(step) ==> !Enabled(s, step, bufferSize)
    ensures forall t :: t in s.calls ==> IsOver(s.calls[t])
    ensures forall c :: c in s.chans ==> s.chans[c].finished == s.chans[c].sent
    ensures forall t :: t in s.calls ==> HasRun(s, t) || AcceptedBy(s.calls[t]).None?
  {
    ReachableInv(s, bufferSize);
    forall t | t in s.calls ensures IsOver(s.calls[t]) {
      if !IsOver(s.calls[t]) {
        var step := CallsNeverDeadlock(s, t, bufferSize);
      }
    }
    forall c | c in s.chans ensures s.chans[c].finished == s.chans[c].sent {
      assert QueueOk(s.chans[c], bufferSize);
      if InHand(s.chans[c]) + s.chans[c].buf != [] {
        var step := WorkerMoves(s, c, bufferSize);
      }
    }
  }
}
