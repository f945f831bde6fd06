/** The per-path actor pool as a transition system: callers of Do and Close, a
    reader-writer lock that keeps new readers out once a writer waits, one bounded channel
    and one worker per key. Each step is one atomic action of one goroutine. */
module ActorPool {
  import opened Sequences

  datatype Key = Key(scope: string, path: string)

  /** One call of Do or Close; Do's closure is named by the call that submits it. */
  type CallId = nat
  type ChanId = nat

  datatype Worker = Idle | Running(op: CallId) | Exited

  /** A channel with its worker; sent and finished record what passed through. */
  datatype Actor = Actor(key: Key, buf: seq<CallId>, chanClosed: bool, worker: Worker,
                         sent: seq<CallId>, finished: seq<CallId>)

  datatype Outcome = Ran(ch: ChanId) | GaveUp(ch: ChanId) | PoolClosed | Cancelled

  /** Where a call is. Names in -ing hold the lock they need. */
  datatype Phase =
    | WantRead(k: Key)
    | LookingUp(k: Key)
    | WantCreate(k: Key)
    | CreateAnnounced(k: Key)
    | Creating(k: Key)
    | WantReread(k: Key, ch: ChanId)
    | Rechecking(k: Key, ch: ChanId)
    | Sending(k: Key, ch: ChanId)
    | SentHolding(k: Key, ch: ChanId)
    | CancelHolding(k: Key)
    | Awaiting(k: Key, ch: ChanId)
    | Returned(outcome: Outcome)
    | WantClose
    | CloseAnnounced
    | Closing
    | ClosingChannels(todo: set<ChanId>)
    | WaitingForWorkers
    | CloseReturned(closer: bool)

  datatype Writer = NoWriter | Announced(t: CallId) | Held(t: CallId)

  datatype State = State(
    closed: bool, actors: map<Key, ChanId>, chans: map<ChanId, Actor>,
    readers: set<CallId>, writer: Writer, calls: map<CallId, Phase>, closer: Option<CallId>)

  datatype Step =
    | CallDo(t: CallId, k: Key)
    | CallClose(t: CallId)
    | ReadLock(t: CallId)
    | LookUp(t: CallId)
    | Announce(t: CallId)
    | WriteLock(t: CallId)
    | Create(t: CallId, ch: ChanId)
    | Recheck(t: CallId)
    | Send(t: CallId)
    | HandOff(t: CallId)
    | CancelSend(t: CallId)
    | ReadUnlock(t: CallId)
    | Receive(c: ChanId)
    | Finish(c: ChanId)
    | Exit(c: ChanId)
    | TakeResult(t: CallId)
    | GiveUpWaiting(t: CallId)
    | MarkClosed(t: CallId)
    | CloseChannel(t: CallId, c: ChanId)
    | AllChannelsClosed(t: CallId)
    | WorkersDone(t: CallId)

  const INIT := State(false, map[], map[], {}, NoWriter, map[], None)

  predicate Enabled(s: State, step: Step, bufferSize: nat) {
    match step
    case CallDo(t, _) => t !in s.calls
    case CallClose(t) => t !in s.calls
    case ReadLock(t) => t in s.calls && (s.calls[t].WantRead? || s.calls[t].WantReread?) && s.writer == NoWriter
    case LookUp(t) => t in s.calls && s.calls[t].LookingUp?
    case Announce(t) => t in s.calls && (s.calls[t].WantCreate? || s.calls[t].WantClose?) && s.writer == NoWriter
    case WriteLock(t) => t in s.calls && (s.calls[t].CreateAnnounced? || s.calls[t].CloseAnnounced?) && s.readers == {}
    case Create(t, ch) => t in s.calls && s.calls[t].Creating? && ch !in s.chans
    case Recheck(t) => t in s.calls && s.calls[t].Rechecking?
    case Send(t) => t in s.calls && s.calls[t].Sending? && s.calls[t].ch in s.chans
                    && |s.chans[s.calls[t].ch].buf| < bufferSize
    case HandOff(t) => t in s.calls && s.calls[t].Sending? && s.calls[t].ch in s.chans
                       && s.chans[s.calls[t].ch].worker == Idle && s.chans[s.calls[t].ch].buf == []
    case CancelSend(t) => t in s.calls && s.calls[t].Sending?
    case ReadUnlock(t) => t in s.calls && (s.calls[t].SentHolding? || s.calls[t].CancelHolding?)
    case Receive(c) => c in s.chans && s.chans[c].worker == Idle && s.chans[c].buf != []
    case Finish(c) => c in s.chans && s.chans[c].worker.Running?
    case Exit(c) => c in s.chans && s.chans[c].worker == Idle && s.chans[c].buf == [] && s.chans[c].chanClosed
    case TakeResult(t) => t in s.calls && s.calls[t].Awaiting? && s.calls[t].ch in s.chans
                          && t in s.chans[s.calls[t].ch].finished
    case GiveUpWaiting(t) => t in s.calls && s.calls[t].Awaiting?
    case MarkClosed(t) => t in s.calls && s.calls[t].Closing?
    case CloseChannel(t, c) => t in s.calls && s.calls[t].ClosingChannels? && c in s.calls[t].todo && c in s.chans
    case AllChannelsClosed(t) => t in s.calls && s.calls[t] == ClosingChannels({})
    case WorkersDone(t) => t in s.calls && s.calls[t].WaitingForWorkers?
                           && forall c :: c in s.chans ==> s.chans[c].worker == Exited
  }

  function Goto(s: State, t: CallId, p: Phase): State {
    s.(calls := s.calls[t := p])
  }

  function SetActor(s: State, c: ChanId, a: Actor): State {
    s.(chans := s.chans[c := a])
  }

  function Next(s: State, step: Step, bufferSize: nat): State
    requires Enabled(s, step, bufferSize)
  {
    match step
    case CallDo(t, k) => Goto(s, t, WantRead(k))
    case CallClose(t) => Goto(s, t, WantClose)
    case ReadLock(t) =>
      var p := s.calls[t];
      Goto(s.(readers := s.readers + {t}), t, if p.WantRead? then LookingUp(p.k) else Rechecking(p.k, p.ch))
    case LookUp(t) =>
      var k := s.calls[t].k;
      if s.closed then Goto(s.(readers := s.readers - {t}), t, Returned(PoolClosed))
      else if k in s.actors then Goto(s, t, Sending(k, s.actors[k]))
      else Goto(s.(readers := s.readers - {t}), t, WantCreate(k))
    case Announce(t) =>
      var p := s.calls[t];
      Goto(s.(writer := Announced(t)), t, if p.WantCreate? then CreateAnnounced(p.k) else CloseAnnounced)
    case WriteLock(t) =>
      var p := s.calls[t];
      Goto(s.(writer := Held(t)), t, if p.CreateAnnounced? then Creating(p.k) else Closing)
    case Create(t, ch) =>
      var k := s.calls[t].k;
      var u := s.(writer := NoWriter);
      if s.closed then Goto(u, t, Returned(PoolClosed))
      else if k in s.actors then Goto(u, t, WantReread(k, s.actors[k]))
      else
        var v := u.(actors := s.actors[k := ch], chans := s.chans[ch := Actor(k, [], false, Idle, [], [])]);
        Goto(v, t, WantReread(k, ch))
    case Recheck(t) =>
      var p := s.calls[t];
      if s.closed then Goto(s.(readers := s.readers - {t}), t, Returned(PoolClosed))
      else Goto(s, t, Sending(p.k, p.ch))
    case Send(t) =>
      var p := s.calls[t];
      var a := s.chans[p.ch];
      Goto(SetActor(s, p.ch, a.(buf := a.buf + [t], sent := a.sent + [t])), t, SentHolding(p.k, p.ch))
    case HandOff(t) =>
      var p := s.calls[t];
      var a := s.chans[p.ch];
      Goto(SetActor(s, p.ch, a.(worker := Running(t), sent := a.sent + [t])), t, SentHolding(p.k, p.ch))
    case CancelSend(t) => Goto(s, t, CancelHolding(s.calls[t].k))
    case ReadUnlock(t) =>
      var p := s.calls[t];
      Goto(s.(readers := s.readers - {t}), t, if p.SentHolding? then Awaiting(p.k, p.ch) else Returned(Cancelled))
    case Receive(c) =>
      var a := s.chans[c];
      SetActor(s, c, a.(worker := Running(a.buf[0]), buf := a.buf[1..]))
    case Finish(c) =>
      var a := s.chans[c];
      SetActor(s, c, a.(worker := Idle, finished := a.finished + [a.worker.op]))
    case Exit(c) => SetActor(s, c, s.chans[c].(worker := Exited))
    case TakeResult(t) => Goto(s, t, Returned(Ran(s.calls[t].ch)))
    case GiveUpWaiting(t) => Goto(s, t, Returned(GaveUp(s.calls[t].ch)))
    case MarkClosed(t) =>
      var u := s.(writer := NoWriter);
      if s.closed then Goto(u, t, CloseReturned(false))
      else Goto(u.(closed := true, closer := Some(t)), t, ClosingChannels(s.actors.Values))
    case CloseChannel(t, c) =>
      Goto(SetActor(s, c, s.chans[c].(chanClosed := true)), t, ClosingChannels(s.calls[t].todo - {c}))
    case AllChannelsClosed(t) => Goto(s, t, WaitingForWorkers)
    case WorkersDone(t) => Goto(s, t, CloseReturned(true))
  }

  // ----- The invariant -----

  predicate HoldsRead(p: Phase) {
    p.LookingUp? || p.Rechecking? || p.Sending? || p.SentHolding? || p.CancelHolding?
  }

  predicate HasAnnounced(p: Phase) { p.CreateAnnounced? || p.CloseAnnounced? }

  predicate HoldsWrite(p: Phase) { p.Creating? || p.Closing? }

  /** The channel a call's operation was accepted by, if it was. */
  function AcceptedBy(p: Phase): Option<ChanId> {
    match p
    case SentHolding(_, ch) => Some(ch)
    case Awaiting(_, ch) => Some(ch)
    case Returned(Ran(ch)) => Some(ch)
    case Returned(GaveUp(ch)) => Some(ch)
    case _ => None
  }

  predicate HasChannel(p: Phase) {
    p.WantReread? || p.Rechecking? || p.Sending? || p.SentHolding? || p.Awaiting?
  }

  /** What a worker has taken but not finished. */
  function InHand(a: Actor): seq<CallId> {
    if a.worker.Running? then [a.worker.op] else []
  }

  /** Keys and channels correspond one to one. */
  ghost predicate OneActorPerKey(s: State) {
    && (forall k :: k in s.actors ==> s.actors[k] in s.chans && s.chans[s.actors[k]].key == k)
    && (forall c :: c in s.chans ==> s.chans[c].key in s.actors && s.actors[s.chans[c].key] == c)
  }

  ghost predicate LockInv(s: State) {
    && (forall t :: t in s.readers ==> t in s.calls)
    && (forall t :: t in s.calls ==> (HoldsRead(s.calls[t]) <==> t in s.readers))
    && (forall t :: t in s.calls ==> (HasAnnounced(s.calls[t]) <==> s.writer == Announced(t)))
    && (forall t :: t in s.calls ==> (HoldsWrite(s.calls[t]) <==> s.writer == Held(t)))
    && (s.writer.Held? ==> s.readers == {} && s.writer.t in s.calls)
    && (s.writer.Announced? ==> s.writer.t in s.calls)
  }

  ghost predicate ClosedInv(s: State) {
    && (forall t :: t in s.calls ==> (s.calls[t].Sending? || s.calls[t].SentHolding? ==> !s.closed))
    && (s.closed <==> s.closer.Some?)
    && (s.closer.Some? ==> s.closer.value in s.calls)
    && (forall t :: t in s.calls ==>
          (s.calls[t].ClosingChannels? || s.calls[t].WaitingForWorkers? || s.calls[t] == CloseReturned(true)
           <==> s.closer == Some(t)))
    && (forall c :: c in s.chans ==> (s.chans[c].chanClosed ==> s.closed))
    && (forall c :: c in s.chans ==> (s.chans[c].worker == Exited ==> s.chans[c].chanClosed && s.chans[c].buf == []))
    && (s.closer.Some? ==> CloserInv(s, s.calls[s.closer.value]))
  }

  ghost predicate CloserInv(s: State, p: Phase) {
    && (p.ClosingChannels? ==>
          && (forall c :: c in p.todo ==> c in s.chans)
          && (forall c :: c in s.chans ==> (s.chans[c].chanClosed <==> c !in p.todo)))
    && (p.WaitingForWorkers? || p == CloseReturned(true) ==> forall c :: c in s.chans ==> s.chans[c].chanClosed)
    && (p == CloseReturned(true) ==> forall c :: c in s.chans ==> s.chans[c].worker == Exited)
  }

  /** What was accepted is what finished, then what is running, then what is queued. */
  ghost predicate QueueInv(s: State, bufferSize: nat) {
    forall c :: c in s.chans ==> QueueOk(s.chans[c], bufferSize)
  }

  ghost predicate QueueOk(a: Actor, bufferSize: nat) {
    && a.sent == a.finished + InHand(a) + a.buf
    && NoDuplicates(a.sent)
    && |a.buf| <= bufferSize
  }

  ghost predicate CallInv(s: State) {
    && (forall t :: t in s.calls ==> (HasChannel(s.calls[t]) ==>
          s.calls[t].ch in s.chans && s.chans[s.calls[t].ch].key == s.calls[t].k))
    && (forall t, c :: c in s.chans ==>
          (t in s.chans[c].sent <==> t in s.calls && AcceptedBy(s.calls[t]) == Some(c)))
    && (forall t :: t in s.calls ==> (AcceptedBy(s.calls[t]).Some? ==> AcceptedBy(s.calls[t]).value in s.chans))
    && (forall t :: t in s.calls ==> (s.calls[t].Returned? && s.calls[t].outcome.Ran? ==>
          t in s.chans[s.calls[t].outcome.ch].finished))
  }

  ghost predicate Inv(s: State, bufferSize: nat) {
    OneActorPerKey(s) && LockInv(s) && ClosedInv(s) && QueueInv(s, bufferSize) && CallInv(s)
  }

  // ----- Every step keeps the invariant -----

  /** Steps that move one call and leave every channel alone. */
  predicate IsMove(step: Step) {
    !(step.Create? || step.Send? || step.HandOff? || step.Receive? || step.Finish? || step.Exit? || step.CloseChannel?)
  }

  /** Moves that concern neither the closing call nor the closed flag. */
  predicate IsPlainMove(step: Step) {
    IsMove(step) && !step.MarkClosed? && !step.AllChannelsClosed? && !step.WorkersDone?
  }

  lemma MoveShape(s: State, step: Step, bufferSize: nat)
    requires Enabled(s, step, bufferSize) && IsMove(step)
    ensures var s' := Next(s, step, bufferSize);
      && step.t in s'.calls && s'.calls == s.calls[step.t := s'.calls[step.t]]
      && s'.chans == s.chans && s'.actors == s.actors
      && (IsPlainMove(step) ==> s'.closed == s.closed && s'.closer == s.closer)
  {
  }

  lemma StepKeepsActors(s: State, step: Step, bufferSize: nat)
    requires OneActorPerKey(s) && CallInv(s) && Enabled(s, step, bufferSize)
    ensures OneActorPerKey(Next(s, step, bufferSize))
  {
    if !step.Create? {
      KeysKept(s, step, bufferSize);
    }
  }

  lemma KeysKept(s: State, step: Step, bufferSize: nat)
    requires Enabled(s, step, bufferSize) && !step.Create?
    ensures var s' := Next(s, step, bufferSize);
      && s'.actors == s.actors && s'.chans.Keys == s.chans.Keys
      && forall c :: c in s.chans ==> s'.chans[c].key == s.chans[c].key
  {
  }

  /** The lock after call t moves to phase p. */
  function LockAfter(s: State, t: CallId, p: Phase): (set<CallId>, Writer) {
    (if HoldsRead(p) then s.readers + {t} else s.readers - {t},
     if HasAnnounced(p) then Announced(t)
     else if HoldsWrite(p) then Held(t)
     else if s.writer == Announced(t) || s.writer == Held(t) then NoWriter
     else s.writer)
  }

  lemma LockMoves(s: State, s': State, t: CallId)
    requires LockInv(s) && t in s'.calls && s'.calls == s.calls[t := s'.calls[t]]
    requires (forall u :: u in s'.readers <==> u in LockAfter(s, t, s'.calls[t]).0)
    requires s'.writer == LockAfter(s, t, s'.calls[t]).1
    requires HoldsRead(s'.calls[t]) && t !in s.readers ==> s.writer == NoWriter
    requires HasAnnounced(s'.calls[t]) ==> s.writer == NoWriter || s.writer == Announced(t)
    requires HoldsWrite(s'.calls[t]) ==> s.writer == Held(t) || (s.writer == Announced(t) && s.readers == {})
    ensures LockInv(s')
  {
  }

  predicate IsReadStep(step: Step) {
    step.ReadLock? || step.LookUp? || step.Recheck? || step.ReadUnlock? || step.CancelSend?
  }

  predicate IsWriteStep(step: Step) {
    step.Announce? || step.WriteLock? || step.Create? || step.MarkClosed?
  }

  lemma ReadStepKeepsLock(s: State, step: Step, bufferSize: nat)
    requires LockInv(s) && Enabled(s, step, bufferSize) && IsReadStep(step)
    ensures LockInv(Next(s, step, bufferSize))
  {
    LockMoves(s, Next(s, step, bufferSize), step.t);
  }

  lemma WriteStepKeepsLock(s: State, step: Step, bufferSize: nat)
    requires LockInv(s) && Enabled(s, step, bufferSize) && IsWriteStep(step)
    ensures LockInv(Next(s, step, bufferSize))
  {
    LockMoves(s, Next(s, step, bufferSize), step.t);
  }

  /** The other calls' steps leave the lock and what the call holds of it alone. */
  lemma OtherStepShape(s: State, step: Step, bufferSize: nat)
    requires Enabled(s, step, bufferSize) && !IsReadStep(step) && !IsWriteStep(step)
    requires !step.Receive? && !step.Finish? && !step.Exit?
    ensures var t, s' := step.t, Next(s, step, bufferSize);
      && t in s'.calls && s'.calls == s.calls[t := s'.calls[t]] && s'.readers == s.readers && s'.writer == s.writer
      && !HasAnnounced(s'.calls[t]) && !HoldsWrite(s'.calls[t])
      && (if t in s.calls then !HasAnnounced(s.calls[t]) && (HoldsRead(s'.calls[t]) <==> HoldsRead(s.calls[t]))
          else !HoldsRead(s'.calls[t]))
      && (t in s.calls ==> !HoldsWrite(s.calls[t]))
  {
  }

  lemma OtherStepKeepsLock(s: State, step: Step, bufferSize: nat)
    requires LockInv(s) && Enabled(s, step, bufferSize) && !IsReadStep(step) && !IsWriteStep(step)
    ensures LockInv(Next(s, step, bufferSize))
  {
    if !step.Receive? && !step.Finish? && !step.Exit? {
      OtherStepShape(s, step, bufferSize);
    }
  }

  lemma StepKeepsLock(s: State, step: Step, bufferSize: nat)
    requires LockInv(s) && Enabled(s, step, bufferSize)
    ensures LockInv(Next(s, step, bufferSize))
  {
    if IsReadStep(step) {
      ReadStepKeepsLock(s, step, bufferSize);
    } else if IsWriteStep(step) {
      WriteStepKeepsLock(s, step, bufferSize);
    } else {
      OtherStepKeepsLock(s, step, bufferSize);
    }
  }

  predicate IsCloser(p: Phase) {
    p.ClosingChannels? || p.WaitingForWorkers? || p == CloseReturned(true)
  }

  lemma MoveKeepsClosed(s: State, s': State, t: CallId)
    requires ClosedInv(s) && t in s'.calls && s'.calls == s.calls[t := s'.calls[t]]
    requires s'.chans == s.chans && s'.closed == s.closed && s'.closer == s.closer
    requires !IsCloser(s'.calls[t]) && (t in s.calls ==> !IsCloser(s.calls[t]))
    requires s'.calls[t].Sending? || s'.calls[t].SentHolding? ==> !s.closed
    ensures ClosedInv(s')
  {
    if s.closer.Some? { assert s.closer.value != t; }
  }

  lemma PlainMoveKeepsClosed(s: State, step: Step, bufferSize: nat)
    requires LockInv(s) && ClosedInv(s) && Enabled(s, step, bufferSize) && IsPlainMove(step)
    ensures ClosedInv(Next(s, step, bufferSize))
  {
    MoveShape(s, step, bufferSize);
    MoveKeepsClosed(s, Next(s, step, bufferSize), step.t);
  }

  lemma MarkClosedKeepsClosed(s: State, t: CallId, bufferSize: nat)
    requires OneActorPerKey(s) && LockInv(s) && ClosedInv(s) && Enabled(s, MarkClosed(t), bufferSize)
    ensures ClosedInv(Next(s, MarkClosed(t), bufferSize))
  {
    var s' := Next(s, MarkClosed(t), bufferSize);
    if s.closed {
      assert !IsCloser(s'.calls[t]);
      assert s.closer != Some(t);
    } else {
      forall c | c in s.chans ensures c in s.actors.Values { assert s.actors[s.chans[c].key] == c; }
      forall u | u in s'.calls && u != t ensures !s'.calls[u].Sending? && !s'.calls[u].SentHolding? {
        assert u !in s.readers;
      }
    }
  }

  lemma CloserStepsKeepClosed(s: State, step: Step, bufferSize: nat)
    requires ClosedInv(s) && Enabled(s, step, bufferSize)
    requires step.AllChannelsClosed? || step.WorkersDone? || step.CloseChannel?
    ensures ClosedInv(Next(s, step, bufferSize))
  {
    assert s.closer == Some(step.t);
  }

  lemma CreateKeepsClosed(s: State, step: Step, bufferSize: nat)
    requires LockInv(s) && ClosedInv(s) && Enabled(s, step, bufferSize) && step.Create?
    ensures ClosedInv(Next(s, step, bufferSize))
  {
    assert s.closer != Some(step.t);
  }

  /** While a sender holds the read lock its channel is open and its worker has not left. */
  lemma SendersFindOpenChannel(s: State, t: CallId)
    requires ClosedInv(s) && t in s.calls && s.calls[t].Sending? && s.calls[t].ch in s.chans
    ensures !s.chans[s.calls[t].ch].chanClosed && s.chans[s.calls[t].ch].worker != Exited
  {
  }

  lemma SendKeepsClosed(s: State, step: Step, bufferSize: nat)
    requires ClosedInv(s) && Enabled(s, step, bufferSize) && (step.Send? || step.HandOff?)
    ensures ClosedInv(Next(s, step, bufferSize))
  {
    SendersFindOpenChannel(s, step.t);
    assert s.closer != Some(step.t);
  }

  lemma WorkerKeepsClosed(s: State, step: Step, bufferSize: nat)
    requires ClosedInv(s) && Enabled(s, step, bufferSize) && (step.Receive? || step.Finish? || step.Exit?)
    ensures ClosedInv(Next(s, step, bufferSize))
  {
  }

  lemma ChannelStepKeepsClosed(s: State, step: Step, bufferSize: nat)
    requires OneActorPerKey(s) && LockInv(s) && ClosedInv(s) && Enabled(s, step, bufferSize) && !IsMove(step)
    ensures ClosedInv(Next(s, step, bufferSize))
  {
    if step.Create? {
      CreateKeepsClosed(s, step, bufferSize);
    } else if step.Send? || step.HandOff? {
      SendKeepsClosed(s, step, bufferSize);
    } else if step.CloseChannel? {
      CloserStepsKeepClosed(s, step, bufferSize);
    } else {
      WorkerKeepsClosed(s, step, bufferSize);
    }
  }

  lemma StepKeepsClosed(s: State, step: Step, bufferSize: nat)
    requires OneActorPerKey(s) && LockInv(s) && ClosedInv(s) && Enabled(s, step, bufferSize)
    ensures ClosedInv(Next(s, step, bufferSize))
  {
    if !IsMove(step) {
      ChannelStepKeepsClosed(s, step, bufferSize);
    } else if step.MarkClosed? {
      MarkClosedKeepsClosed(s, step.t, bufferSize);
    } else if IsPlainMove(step) {
      PlainMoveKeepsClosed(s, step, bufferSize);
    } else {
      CloserStepsKeepClosed(s, step, bufferSize);
    }
  }

  lemma OneQueueChanges(s: State, s': State, c: ChanId, bufferSize: nat)
    requires QueueInv(s, bufferSize) && c in s'.chans && s'.chans == s.chans[c := s'.chans[c]]
    requires QueueOk(s'.chans[c], bufferSize)
    ensures QueueInv(s', bufferSize)
  {
  }

  lemma AcceptOne(a: Actor, t: CallId, bufferSize: nat)
    requires QueueOk(a, bufferSize) && t !in a.sent
    ensures |a.buf| < bufferSize ==> QueueOk(a.(buf := a.buf + [t], sent := a.sent + [t]), bufferSize)
    ensures a.worker == Idle && a.buf == [] ==> QueueOk(a.(worker := Running(t), sent := a.sent + [t]), bufferSize)
  {
    assert a.finished + InHand(a) + (a.buf + [t]) == (a.finished + InHand(a) + a.buf) + [t];
    if a.worker == Idle && a.buf == [] {
      assert a.finished + [t] + [] == (a.finished + [] + []) + [t];
    }
  }

  lemma SendKeepsQueues(s: State, step: Step, bufferSize: nat)
    requires QueueInv(s, bufferSize) && CallInv(s) && Enabled(s, step, bufferSize) && (step.Send? || step.HandOff?)
    ensures QueueInv(Next(s, step, bufferSize), bufferSize)
  {
    var c := s.calls[step.t].ch;
    assert step.t !in s.chans[c].sent;
    AcceptOne(s.chans[c], step.t, bufferSize);
    OneQueueChanges(s, Next(s, step, bufferSize), c, bufferSize);
  }

  lemma WorkerKeepsQueues(s: State, step: Step, bufferSize: nat)
    requires QueueInv(s, bufferSize) && Enabled(s, step, bufferSize) && (step.Receive? || step.Finish? || step.Exit?)
    ensures QueueInv(Next(s, step, bufferSize), bufferSize)
  {
    var a, a' := s.chans[step.c], Next(s, step, bufferSize).chans[step.c];
    if step.Receive? {
      assert a.buf == [a.buf[0]] + a.buf[1..];
      assert a.finished + [] + ([a.buf[0]] + a.buf[1..]) == a.finished + [a.buf[0]] + a.buf[1..];
    } else if step.Finish? {
      assert a.finished + [a.worker.op] + a.buf == (a.finished + [a.worker.op]) + [] + a.buf;
    }
    OneQueueChanges(s, Next(s, step, bufferSize), step.c, bufferSize);
  }

  lemma StepKeepsQueues(s: State, step: Step, bufferSize: nat)
    requires QueueInv(s, bufferSize) && CallInv(s) && Enabled(s, step, bufferSize)
    ensures QueueInv(Next(s, step, bufferSize), bufferSize)
  {
    if step.Send? || step.HandOff? {
      SendKeepsQueues(s, step, bufferSize);
    } else if step.Receive? || step.Finish? || step.Exit? {
      WorkerKeepsQueues(s, step, bufferSize);
    } else if step.CloseChannel? {
      OneQueueChanges(s, Next(s, step, bufferSize), step.c, bufferSize);
    } else if IsMove(step) {
      MoveShape(s, step, bufferSize);
    }
  }

  lemma MoveKeepsCalls(s: State, s': State, t: CallId)
    requires CallInv(s) && t in s'.calls && s'.calls == s.calls[t := s'.calls[t]] && s'.chans == s.chans
    requires AcceptedBy(s'.calls[t]) == if t in s.calls then AcceptedBy(s.calls[t]) else None
    requires HasChannel(s'.calls[t]) ==>
      s'.calls[t].ch in s.chans && s.chans[s'.calls[t].ch].key == s'.calls[t].k
    requires s'.calls[t].Returned? && s'.calls[t].outcome.Ran? && s'.calls[t].outcome.ch in s.chans ==>
      t in s.chans[s'.calls[t].outcome.ch].finished
    ensures CallInv(s')
  {
  }

  lemma MoveKeepsAccepted(s: State, step: Step, bufferSize: nat)
    requires Enabled(s, step, bufferSize) && IsMove(step)
    ensures var t, s' := step.t, Next(s, step, bufferSize);
      t in s'.calls && AcceptedBy(s'.calls[t]) == if t in s.calls then AcceptedBy(s.calls[t]) else None
  {
  }

  lemma MoveCarriesChannel(s: State, step: Step, bufferSize: nat)
    requires Enabled(s, step, bufferSize) && IsMove(step) && !step.LookUp?
    ensures var t, s' := step.t, Next(s, step, bufferSize);
      && t in s'.calls
      && (HasChannel(s'.calls[t]) ==> t in s.calls && HasChannel(s.calls[t]) && s.calls[t].ch == s'.calls[t].ch
                                      && s.calls[t].k == s'.calls[t].k)
  {
  }

  lemma MoveKeepsChannel(s: State, step: Step, bufferSize: nat)
    requires OneActorPerKey(s) && CallInv(s) && Enabled(s, step, bufferSize) && IsMove(step)
    ensures var t, s' := step.t, Next(s, step, bufferSize);
      && t in s'.calls
      && (HasChannel(s'.calls[t]) ==> s'.calls[t].ch in s.chans && s.chans[s'.calls[t].ch].key == s'.calls[t].k)
  {
    if !step.LookUp? { MoveCarriesChannel(s, step, bufferSize); }
  }

  lemma MoveTakesResult(s: State, step: Step, bufferSize: nat)
    requires Enabled(s, step, bufferSize) && IsMove(step)
    ensures var t, s' := step.t, Next(s, step, bufferSize);
      t in s'.calls && (s'.calls[t].Returned? && s'.calls[t].outcome.Ran? && s'.calls[t].outcome.ch in s.chans ==>
            t in s.chans[s'.calls[t].outcome.ch].finished)
  {
  }

  lemma MovesKeepCalls(s: State, step: Step, bufferSize: nat)
    requires OneActorPerKey(s) && CallInv(s) && Enabled(s, step, bufferSize) && IsMove(step)
    ensures CallInv(Next(s, step, bufferSize))
  {
    MoveShape(s, step, bufferSize);
    MoveKeepsAccepted(s, step, bufferSize);
    MoveKeepsChannel(s, step, bufferSize);
    MoveTakesResult(s, step, bufferSize);
    MoveKeepsCalls(s, Next(s, step, bufferSize), step.t);
  }

  lemma NewChannelKeepsCalls(s: State, s': State, ch: ChanId)
    requires CallInv(s) && s'.calls == s.calls && ch !in s.chans
    requires ch in s'.chans && s'.chans == s.chans[ch := s'.chans[ch]] && s'.chans[ch].sent == []
    ensures CallInv(s')
  {
  }

  lemma CreateKeepsCalls(s: State, step: Step, bufferSize: nat)
    requires OneActorPerKey(s) && CallInv(s) && Enabled(s, step, bufferSize) && step.Create?
    ensures CallInv(Next(s, step, bufferSize))
  {
    var s' := Next(s, step, bufferSize);
    if !s.closed && s.calls[step.t].k !in s.actors {
      var u := s.(chans := s'.chans);
      NewChannelKeepsCalls(s, u, step.ch);
      MoveKeepsCalls(u, s', step.t);
    } else {
      MoveKeepsCalls(s, s', step.t);
    }
  }

  lemma AcceptKeepsCalls(s: State, s': State, t: CallId, c: ChanId)
    requires CallInv(s) && t in s.calls && s.calls[t].Sending? && s.calls[t].ch == c && c in s.chans
    requires s'.calls == s.calls[t := SentHolding(s.calls[t].k, c)]
    requires c in s'.chans && s'.chans == s.chans[c := s'.chans[c]]
    requires s'.chans[c].key == s.chans[c].key && s'.chans[c].sent == s.chans[c].sent + [t]
    requires s'.chans[c].finished == s.chans[c].finished
    ensures CallInv(s')
  {
  }

  lemma SendKeepsCalls(s: State, step: Step, bufferSize: nat)
    requires CallInv(s) && Enabled(s, step, bufferSize) && (step.Send? || step.HandOff?)
    ensures CallInv(Next(s, step, bufferSize))
  {
    AcceptKeepsCalls(s, Next(s, step, bufferSize), step.t, s.calls[step.t].ch);
  }

  lemma ChannelKeepsCalls(s: State, s': State, c: ChanId)
    requires CallInv(s) && s'.calls == s.calls && c in s.chans
    requires c in s'.chans && s'.chans == s.chans[c := s'.chans[c]]
    requires s'.chans[c].key == s.chans[c].key && s'.chans[c].sent == s.chans[c].sent
    requires forall o :: o in s.chans[c].finished ==> o in s'.chans[c].finished
    ensures CallInv(s')
  {
  }

  lemma ChannelStepsKeepCalls(s: State, step: Step, bufferSize: nat)
    requires CallInv(s) && Enabled(s, step, bufferSize)
    requires step.Receive? || step.Finish? || step.Exit? || step.CloseChannel?
    ensures CallInv(Next(s, step, bufferSize))
  {
    var s' := Next(s, step, bufferSize);
    if step.CloseChannel? {
      var u := s.(chans := s'.chans);
      ChannelKeepsCalls(s, u, step.c);
      MoveKeepsCalls(u, s', step.t);
    } else {
      ChannelKeepsCalls(s, s', step.c);
    }
  }

  lemma StepKeepsCalls(s: State, step: Step, bufferSize: nat)
    requires OneActorPerKey(s) && CallInv(s) && Enabled(s, step, bufferSize)
    ensures CallInv(Next(s, step, bufferSize))
  {
    if step.Create? {
      CreateKeepsCalls(s, step, bufferSize);
    } else if step.Send? || step.HandOff? {
      SendKeepsCalls(s, step, bufferSize);
    } else if IsMove(step) {
      MovesKeepCalls(s, step, bufferSize);
    } else {
      ChannelStepsKeepCalls(s, step, bufferSize);
    }
  }

  /** The inductive invariant. */
  lemma StepKeepsInv(s: State, step: Step, bufferSize: nat)
    requires Inv(s, bufferSize) && Enabled(s, step, bufferSize)
    ensures Inv(Next(s, step, bufferSize), bufferSize)
  {
    StepKeepsActors(s, step, bufferSize);
    StepKeepsLock(s, step, bufferSize);
    StepKeepsClosed(s, step, bufferSize);
    StepKeepsQueues(s, step, bufferSize);
    StepKeepsCalls(s, step, bufferSize);
  }
}
