/** Debouncing of body events: timers, callbacks that wait for a lock, and sequence numbers
    that start over whenever a note's entry is deleted. */
module Debouncing {
  import opened Sequences

  /** The life of one submitted event's callback: its timer is armed; the timer has expired and
      the callback waits for the lock; or it is over, because the timer was stopped in time, the
      callback found itself superseded, or it went on to process its event. */
  datatype Phase = Armed | Waiting | Stopped | Skipped | Processed

  /** Events are named by their position in submission order. */
  datatype Call = Call(id: string, seqNo: nat, phase: Phase)

  datatype Entry = Entry(timer: nat, seqNo: nat)

  datatype State = State(debounce: map<string, Entry>, calls: seq<Call>, processed: seq<nat>)

  datatype Step = Submit(id: string) | Expire(t: nat) | Callback(t: nat)

  const INITIAL: State := State(map[], [], [])

  predicate Enabled(s: State, step: Step) {
    match step
    case Submit(_) => true
    case Expire(t) => t < |s.calls| && s.calls[t].phase == Armed
    case Callback(t) => t < |s.calls| && s.calls[t].phase == Waiting
  }

  /** Stopping a timer that has already expired has no effect. */
  function StopTimer(calls: seq<Call>, t: nat): (r: seq<Call>)
    ensures |r| == |calls|
  {
    if t < |calls| && calls[t].phase == Armed then calls[t := calls[t].(phase := Stopped)] else calls
  }

  /** The generation check: the note has an entry, and its number is the callback's. */
  predicate Matches(s: State, t: nat)
    requires t < |s.calls|
  {
    s.calls[t].id in s.debounce && s.debounce[s.calls[t].id].seqNo == s.calls[t].seqNo
  }

  predicate Processes(s: State, step: Step) {
    step.Callback? && step.t < |s.calls| && Matches(s, step.t)
  }

  function After(s: State, step: Step): State
    requires Enabled(s, step)
  {
    match step
    case Submit(id) =>
      var seqNo := if id in s.debounce then s.debounce[id].seqNo + 1 else 0;
      var calls := if id in s.debounce then StopTimer(s.calls, s.debounce[id].timer) else s.calls;
      State(s.debounce[id := Entry(|calls|, seqNo)], calls + [Call(id, seqNo, Armed)], s.processed)
    case Expire(t) => s.(calls := s.calls[t := s.calls[t].(phase := Waiting)])
    case Callback(t) =>
      if Matches(s, t) then
        State(s.debounce - {s.calls[t].id}, s.calls[t := s.calls[t].(phase := Processed)], s.processed + [t])
      else s.(calls := s.calls[t := s.calls[t].(phase := Skipped)])
  }

  ghost predicate Legal(s: State, steps: seq<Step>)
    decreases |steps|
  {
    steps == [] || (Enabled(s, steps[0]) && Legal(After(s, steps[0]), steps[1..]))
  }

  ghost function Final(s: State, steps: seq<Step>): State
    requires Legal(s, steps)
    decreases |steps|
  {
    if steps == [] then s else Final(After(s, steps[0]), steps[1..])
  }

  // ----- In every interleaving -----

  predicate Pending(c: Call) {
    c.phase == Armed || c.phase == Waiting
  }

  /** No later event of the same note has been submitted. */
  ghost predicate Newest(s: State, t: nat) {
    t < |s.calls| && forall u :: t < u < |s.calls| ==> s.calls[u].id != s.calls[t].id
  }

  /** Every entry belongs to its note's newest event, whose callback is still to come. */
  ghost predicate EntriesPending(s: State) {
    forall id :: id in s.debounce ==>
      var e := s.debounce[id];
      Newest(s, e.timer) && s.calls[e.timer].id == id && s.calls[e.timer].seqNo == e.seqNo && Pending(s.calls[e.timer])
  }

  ghost predicate LogExact(s: State) {
    && NoDuplicates(s.processed)
    && (forall t :: t in s.processed ==> t < |s.calls|)
    && (forall t :: 0 <= t < |s.calls| ==> (t in s.processed <==> s.calls[t].phase == Processed))
  }

  ghost predicate Inv(s: State) {
    EntriesPending(s) && LogExact(s)
  }

  lemma StepKeepsEntries(s: State, step: Step)
    requires Inv(s) && Enabled(s, step)
    ensures EntriesPending(After(s, step))
  {
    var s' := After(s, step);
    forall id | id in s'.debounce
      ensures Newest(s', s'.debounce[id].timer) && s'.calls[s'.debounce[id].timer].id == id
      ensures s'.calls[s'.debounce[id].timer].seqNo == s'.debounce[id].seqNo && Pending(s'.calls[s'.debounce[id].timer])
    {
      if id in s.debounce { assert Newest(s, s.debounce[id].timer); }
    }
  }

  lemma StepKeepsLog(s: State, step: Step)
    requires Inv(s) && Enabled(s, step)
    ensures LogExact(After(s, step))
  {
  }

  /** Each event is processed at most once, and a present entry always has its newest event's
      callback pending, however the steps interleave. */
  lemma {:induction false} RunKeepsInv(s: State, steps: seq<Step>)
    requires Inv(s) && Legal(s, steps)
    ensures Inv(Final(s, steps)) && NoDuplicates(Final(s, steps).processed)
    decreases |steps|
  {
    if steps != [] {
      StepKeepsEntries(s, steps[0]);
      StepKeepsLog(s, steps[0]);
      RunKeepsInv(After(s, steps[0]), steps[1..]);
    }
  }

  // ----- When nothing superseded still waits at a deletion -----

  /** No other callback of the same note waits for the lock. */
  ghost predicate Alone(s: State, t: nat)
    requires t < |s.calls|
  {
    forall u :: 0 <= u < |s.calls| && u != t && s.calls[u].id == s.calls[t].id ==> s.calls[u].phase != Waiting
  }

  ghost predicate CleanRun(s: State, steps: seq<Step>)
    requires Legal(s, steps)
    decreases |steps|
  {
    steps == [] || ((Processes(s, steps[0]) ==> Alone(s, steps[0].t)) && CleanRun(After(s, steps[0]), steps[1..]))
  }

  /** Every event is its note's newest when it is processed. */
  ghost predicate OnlyNewest(s: State, steps: seq<Step>)
    requires Legal(s, steps)
    decreases |steps|
  {
    steps == [] || ((Processes(s, steps[0]) ==> Newest(s, steps[0].t)) && OnlyNewest(After(s, steps[0]), steps[1..]))
  }

  /** Pending callbacks are the entry's own or superseded ones with smaller numbers. */
  ghost predicate Orderly(s: State) {
    forall t :: 0 <= t < |s.calls| && Pending(s.calls[t]) ==>
      && s.calls[t].id in s.debounce
      && (t == s.debounce[s.calls[t].id].timer
          || (s.calls[t].phase == Waiting && s.calls[t].seqNo < s.debounce[s.calls[t].id].seqNo))
  }

  /** A note's newest event is awaited or processed. */
  ghost predicate Answered(s: State) {
    forall t :: 0 <= t < |s.calls| && Newest(s, t) ==> s.calls[t].id in s.debounce || s.calls[t].phase == Processed
  }

  /** Being the newest only gets harder as events are submitted. */
  lemma NewestBefore(s: State, s': State, t: nat)
    requires t < |s.calls| <= |s'.calls| && forall u :: 0 <= u < |s.calls| ==> s'.calls[u].id == s.calls[u].id
    requires Newest(s', t)
    ensures Newest(s, t)
  {
    forall u | t < u < |s.calls| ensures s.calls[u].id != s.calls[t].id { assert s'.calls[u].id == s.calls[u].id; }
  }

  lemma SubmitKeepsOrder(s: State, id: string)
    requires Inv(s) && Orderly(s)
    ensures Orderly(After(s, Submit(id)))
  {
  }

  lemma SubmitKeepsAnswers(s: State, id: string)
    requires Answered(s)
    ensures Answered(After(s, Submit(id)))
  {
    var s' := After(s, Submit(id));
    forall t | 0 <= t < |s'.calls| && Newest(s', t)
      ensures s'.calls[t].id in s'.debounce || s'.calls[t].phase == Processed
    {
      if t < |s.calls| { NewestBefore(s, s', t); }
    }
  }

  lemma ExpireKeepsOrder(s: State, t: nat)
    requires Inv(s) && Orderly(s) && Answered(s) && Enabled(s, Expire(t))
    ensures Orderly(After(s, Expire(t))) && Answered(After(s, Expire(t)))
  {
    var s' := After(s, Expire(t));
    forall u | 0 <= u < |s'.calls| && Newest(s', u)
      ensures s'.calls[u].id in s'.debounce || s'.calls[u].phase == Processed
    {
      NewestBefore(s, s', u);
    }
  }

  /** A callback that matches in an orderly state is its entry's own. */
  lemma MatchIsNewest(s: State, t: nat)
    requires Inv(s) && Orderly(s) && Enabled(s, Callback(t)) && Matches(s, t)
    ensures Newest(s, t) && s.debounce[s.calls[t].id].timer == t
  {
  }

  lemma CallbackKeepsOrder(s: State, t: nat)
    requires Inv(s) && Orderly(s) && Enabled(s, Callback(t))
    requires Matches(s, t) ==> Alone(s, t)
    ensures Orderly(After(s, Callback(t)))
  {
    if Matches(s, t) { MatchIsNewest(s, t); }
  }

  lemma CallbackKeepsAnswers(s: State, t: nat)
    requires Inv(s) && Orderly(s) && Answered(s) && Enabled(s, Callback(t))
    ensures Answered(After(s, Callback(t)))
  {
    var s' := After(s, Callback(t));
    if Matches(s, t) { MatchIsNewest(s, t); }
    forall u | 0 <= u < |s'.calls| && Newest(s', u)
      ensures s'.calls[u].id in s'.debounce || s'.calls[u].phase == Processed
    {
      NewestBefore(s, s', u);
    }
  }

  /** In a clean run only newest events are processed. */
  lemma {:induction false} CleanRunsProcessNewest(s: State, steps: seq<Step>)
    requires Inv(s) && Orderly(s) && Answered(s) && Legal(s, steps) && CleanRun(s, steps)
    ensures OnlyNewest(s, steps)
    ensures Orderly(Final(s, steps)) && Answered(Final(s, steps)) && Inv(Final(s, steps))
    decreases |steps|
  {
    if steps != [] {
      StepKeepsEntries(s, steps[0]);
      StepKeepsLog(s, steps[0]);
      match steps[0] {
        case Submit(id) => SubmitKeepsOrder(s, id); SubmitKeepsAnswers(s, id);
        case Expire(t) => ExpireKeepsOrder(s, t);
        case Callback(t) =>
          CallbackKeepsOrder(s, t);
          CallbackKeepsAnswers(s, t);
          if Matches(s, t) { MatchIsNewest(s, t); }
      }
      CleanRunsProcessNewest(After(s, steps[0]), steps[1..]);
    }
  }

  ghost predicate AtRest(s: State) {
    forall t :: 0 <= t < |s.calls| ==> !Pending(s.calls[t])
  }

  /** From the start, a clean run that has come to rest has processed the newest event of every
      note and keeps no entry. */
  lemma CleanRestIsUpToDate(steps: seq<Step>, t: nat)
    requires Legal(INITIAL, steps) && CleanRun(INITIAL, steps) && AtRest(Final(INITIAL, steps))
    ensures OnlyNewest(INITIAL, steps) && Final(INITIAL, steps).debounce == map[]
    ensures Newest(Final(INITIAL, steps), t) ==> t in Final(INITIAL, steps).processed
  {
    CleanRunsProcessNewest(INITIAL, steps);
    var s := Final(INITIAL, steps);
    if s.debounce != map[] { EntryNotAtRest(s); }
  }

  lemma EntryNotAtRest(s: State)
    requires EntriesPending(s) && s.debounce != map[]
    ensures !AtRest(s)
  {
    var id :| id in s.debounce;
    assert Pending(s.calls[s.debounce[id].timer]);
  }

  // ----- When something does -----

  lemma {:induction false} LegalAppend(s: State, a: seq<Step>, b: seq<Step>)
    requires Legal(s, a) && Legal(Final(s, a), b)
    ensures Legal(s, a + b) && Final(s, a + b) == Final(Final(s, a), b)
    decreases |a|
  {
    if a == [] {
      assert a + b == b;
    } else {
      assert (a + b)[1..] == a[1..] + b;
      LegalAppend(After(s, a[0]), a[1..], b);
    }
  }

  lemma LegalOne(s: State, step: Step)
    requires Enabled(s, step)
    ensures Legal(s, [step]) && Final(s, [step]) == After(s, step)
  {
    assert [step][1..] == [];
    assert Legal(After(s, step), []);
  }

  /** n submissions of one note: from no entry to an entry numbered n - 1. */
  ghost predicate Resubmitted(s: State, s': State, id: string, n: nat) {
    && n > 0 && |s'.calls| == |s.calls| + n && s'.processed == s.processed
    && id in s'.debounce && s'.debounce[id] == Entry(|s'.calls| - 1, n - 1)
    && s'.calls[|s'.calls| - 1] == Call(id, n - 1, Armed)
    && (forall u :: 0 <= u < |s.calls| ==> s'.calls[u] == s.calls[u])
    && (forall u :: |s.calls| <= u < |s'.calls| - 1 ==> s'.calls[u].phase == Stopped)
  }

  lemma {:induction false} SubmitTimes(s: State, id: string, n: nat) returns (steps: seq<Step>)
    requires id !in s.debounce && n > 0
    ensures Legal(s, steps) && Resubmitted(s, Final(s, steps), id, n)
    ensures forall i :: 0 <= i < |steps| ==> steps[i] == Submit(id)
  {
    if n == 1 {
      steps := [Submit(id)];
      LegalOne(s, Submit(id));
    } else {
      var before := SubmitTimes(s, id, n - 1);
      steps := before + [Submit(id)];
      LegalOne(Final(s, before), Submit(id));
      LegalAppend(s, before, [Submit(id)]);
    }
  }

  /** A superseded callback left waiting when its note's entry is gone can always do harm: once
      enough new events have brought the number back, it takes the newest event's entry, its own
      old event is processed, and the newest never is although nothing of it remains pending. */
  lemma WaitingCallbackLosesNewest(s: State, c: nat) returns (steps: seq<Step>)
    requires c < |s.calls| && s.calls[c].phase == Waiting && s.calls[c].id !in s.debounce
    ensures Legal(s, steps) && !OnlyNewest(s, steps)
    ensures Final(s, steps).processed == s.processed + [c]
    ensures var s' := Final(s, steps);
            && |s'.calls| == |s.calls| + s.calls[c].seqNo + 1 && Newest(s', |s'.calls| - 1)
            && s'.calls[|s'.calls| - 1] == Call(s.calls[c].id, s.calls[c].seqNo, Skipped)
            && s.calls[c].id !in s'.debounce
            && (forall u :: 0 <= u < |s.calls| && u != c ==> s'.calls[u] == s.calls[u])
            && (forall u :: c == u || |s.calls| <= u < |s'.calls| ==> !Pending(s'.calls[u]))
  {
    var id, n := s.calls[c].id, s.calls[c].seqNo + 1;
    var submits := SubmitTimes(s, id, n);
    var s1 := Final(s, submits);
    var last := |s1.calls| - 1;
    var s2 := After(s1, Callback(c));
    var s3 := After(s2, Expire(last));
    LegalOne(s1, Callback(c));
    LegalOne(s2, Expire(last));
    LegalOne(s3, Callback(last));
    LegalAppend(s2, [Expire(last)], [Callback(last)]);
    LegalAppend(s1, [Callback(c)], [Expire(last)] + [Callback(last)]);
    var tail := [Callback(c)] + ([Expire(last)] + [Callback(last)]);
    LegalAppend(s, submits, tail);
    steps := submits + tail;
    assert tail[0] == Callback(c);
    assert s1.calls[last].id == id;
    assert !OnlyNewest(s1, tail);
    NotNewestLater(s, submits, tail);
  }

  lemma {:induction false} NotNewestLater(s: State, a: seq<Step>, b: seq<Step>)
    requires Legal(s, a) && Legal(Final(s, a), b) && Legal(s, a + b) && !OnlyNewest(Final(s, a), b)
    ensures !OnlyNewest(s, a + b)
    decreases |a|
  {
    if a == [] {
      assert a + b == b;
    } else {
      assert (a + b)[1..] == a[1..] + b;
      NotNewestLater(After(s, a[0]), a[1..], b);
    }
  }

  lemma {:induction false} CleanAppend(s: State, a: seq<Step>, b: seq<Step>)
    requires Legal(s, a) && Legal(Final(s, a), b) && Legal(s, a + b)
    requires CleanRun(s, a) && CleanRun(Final(s, a), b)
    ensures CleanRun(s, a + b)
    decreases |a|
  {
    if a == [] {
      assert a + b == b;
    } else {
      assert (a + b)[1..] == a[1..] + b;
      CleanAppend(After(s, a[0]), a[1..], b);
    }
  }

  lemma {:induction false} SubmitsAreClean(s: State, steps: seq<Step>)
    requires Legal(s, steps) && forall i :: 0 <= i < |steps| ==> steps[i].Submit?
    ensures CleanRun(s, steps)
    decreases |steps|
  {
    if steps != [] { SubmitsAreClean(After(s, steps[0]), steps[1..]); }
  }

  ghost function WaitingOthers(s: State, c: nat): set<nat>
    requires c < |s.calls|
  {
    set u: nat | u < |s.calls| && u != c && s.calls[u].id == s.calls[c].id && s.calls[u].phase == Waiting
  }

  /** While a note has no entry its waiting callbacks can run one by one, and all are skipped. */
  lemma {:induction false} SkipOthers(s: State, c: nat) returns (steps: seq<Step>)
    requires c < |s.calls| && s.calls[c].phase == Waiting && s.calls[c].id !in s.debounce
    ensures Legal(s, steps) && CleanRun(s, steps)
    ensures var s' := Final(s, steps);
            c < |s'.calls| && s'.calls[c] == s.calls[c] && s'.debounce == s.debounce && WaitingOthers(s', c) == {}
    decreases |WaitingOthers(s, c)|
  {
    if WaitingOthers(s, c) == {} {
      steps := [];
    } else {
      var u :| u in WaitingOthers(s, c);
      var s1 := After(s, Callback(u));
      assert WaitingOthers(s1, c) == WaitingOthers(s, c) - {u};
      var rest := SkipOthers(s1, c);
      steps := [Callback(u)] + rest;
      assert steps[1..] == rest;
    }
  }

  /** A waiting superseded callback can do harm in a clean run: the note's other waiting ones are
      skipped first, and then nothing but it stands in the way of the newest event. */
  lemma WaitingCallbackMisleads(s: State, c: nat) returns (steps: seq<Step>)
    requires c < |s.calls| && s.calls[c].phase == Waiting && s.calls[c].id !in s.debounce
    ensures Legal(s, steps) && CleanRun(s, steps) && !OnlyNewest(s, steps)
  {
    var id := s.calls[c].id;
    var skips := SkipOthers(s, c);
    var s1 := Final(s, skips);
    var submits := SubmitTimes(s1, id, s.calls[c].seqNo + 1);
    var s2 := Final(s1, submits);
    SubmitsAreClean(s1, submits);
    LegalOne(s2, Callback(c));
    assert Alone(s2, c) by {
      forall u | 0 <= u < |s2.calls| && u != c && s2.calls[u].id == id ensures s2.calls[u].phase != Waiting {
        if u < |s1.calls| { assert u !in WaitingOthers(s1, c); }
      }
    }
    assert CleanRun(After(s2, Callback(c)), []) && CleanRun(s2, [Callback(c)]);
    assert s2.calls[|s2.calls| - 1].id == id;
    assert !OnlyNewest(s2, [Callback(c)]);
    LegalAppend(s1, submits, [Callback(c)]);
    CleanAppend(s1, submits, [Callback(c)]);
    NotNewestLater(s1, submits, [Callback(c)]);
    LegalAppend(s, skips, submits + [Callback(c)]);
    CleanAppend(s, skips, submits + [Callback(c)]);
    NotNewestLater(s, skips, submits + [Callback(c)]);
    steps := skips + (submits + [Callback(c)]);
  }

  /** After any clean run, a callback may delete its note's entry without harm exactly when no
      other callback of the note waits: then, and only then, every clean continuation processes
      newest events only. */
  lemma SafeDeletionIff(run: seq<Step>, t: nat)
    requires Legal(INITIAL, run) && CleanRun(INITIAL, run)
    requires Enabled(Final(INITIAL, run), Callback(t)) && Matches(Final(INITIAL, run), t)
    ensures var s := Final(INITIAL, run);
            var s' := After(s, Callback(t));
            Alone(s, t) <==> forall steps :: Legal(s', steps) && CleanRun(s', steps) ==> OnlyNewest(s', steps)
  {
    var s := Final(INITIAL, run);
    var s' := After(s, Callback(t));
    CleanRunsProcessNewest(INITIAL, run);
    if Alone(s, t) {
      CallbackKeepsOrder(s, t);
      CallbackKeepsAnswers(s, t);
      StepKeepsEntries(s, Callback(t));
      StepKeepsLog(s, Callback(t));
      forall steps | Legal(s', steps) && CleanRun(s', steps) ensures OnlyNewest(s', steps) {
        CleanRunsProcessNewest(s', steps);
      }
    } else {
      var c :| 0 <= c < |s.calls| && c != t && s.calls[c].id == s.calls[t].id && s.calls[c].phase == Waiting;
      assert s'.calls[c] == s.calls[c] && s'.calls[c].id !in s'.debounce;
      var steps := WaitingCallbackMisleads(s', c);
    }
  }

  /** Such a deletion can happen: three events of one note, the first callback delayed between
      its timer and the lock. The second event is processed, then the first; the third is lost. */
  lemma ThirdEventLost(id: string) returns (steps: seq<Step>)
    ensures Legal(INITIAL, steps)
    ensures Final(INITIAL, steps).processed == [1, 0]
    ensures AtRest(Final(INITIAL, steps)) && Newest(Final(INITIAL, steps), 2)
  {
    var head := [Submit(id), Expire(0), Submit(id), Expire(1), Callback(1)];
    var s1 := After(INITIAL, Submit(id));
    var s2 := After(s1, Expire(0));
    var s3 := After(s2, Submit(id));
    var s4 := After(s3, Expire(1));
    var s5 := After(s4, Callback(1));
    assert s5 == State(map[], [Call(id, 0, Waiting), Call(id, 1, Processed)], [1]);
    LegalOne(s4, Callback(1));
    LegalOne(s3, Expire(1));
    LegalOne(s2, Submit(id));
    LegalOne(s1, Expire(0));
    LegalOne(INITIAL, Submit(id));
    LegalAppend(s3, [Expire(1)], [Callback(1)]);
    LegalAppend(s2, [Submit(id)], [Expire(1)] + [Callback(1)]);
    LegalAppend(s1, [Expire(0)], [Submit(id)] + ([Expire(1)] + [Callback(1)]));
    LegalAppend(INITIAL, [Submit(id)], [Expire(0)] + ([Submit(id)] + ([Expire(1)] + [Callback(1)])));
    assert head == [Submit(id)] + ([Expire(0)] + ([Submit(id)] + ([Expire(1)] + [Callback(1)])));
    var tail := WaitingCallbackLosesNewest(s5, 0);
    LegalAppend(INITIAL, head, tail);
    steps := head + tail;
  }

  // ----- The critical sections -----

  /** The pipeline's debounce table, with the runtime's timers and callbacks as calls. Each method
      is one critical section under the pipeline's lock, or one timer expiring. */
  class Pipeline {
    var debounce: map<string, Entry>
    var calls: seq<Call>
    var processed: seq<nat>

    ghost function Abstract(): State
      reads this
    {
      State(debounce, calls, processed)
    }

    constructor ()
      ensures Abstract() == INITIAL && Inv(Abstract())
    {
      debounce, calls, processed := map[], [], [];
    }

    method SubmitBody(id: string)
      requires Inv(Abstract())
      modifies this
      ensures Abstract() == After(old(Abstract()), Submit(id)) && Inv(Abstract())
    {
      StepKeepsEntries(Abstract(), Submit(id));
      StepKeepsLog(Abstract(), Submit(id));
      var seqNo := 0;
      if id in debounce {
        var entry := debounce[id];
        calls := StopTimer(calls, entry.timer);
        seqNo := entry.seqNo + 1;
      }
      debounce := debounce[id := Entry(|calls|, seqNo)];
      calls := calls + [Call(id, seqNo, Armed)];
    }

    method ExpireTimer(t: nat)
      requires Inv(Abstract()) && Enabled(Abstract(), Expire(t))
      modifies this`calls
      ensures Abstract() == After(old(Abstract()), Expire(t)) && Inv(Abstract())
    {
      StepKeepsEntries(Abstract(), Expire(t));
      StepKeepsLog(Abstract(), Expire(t));
      calls := calls[t := calls[t].(phase := Waiting)];
    }

    /** The callback checks its generation, deletes the entry and hands its event on. */
    method RunCallback(t: nat)
      requires Inv(Abstract()) && Enabled(Abstract(), Callback(t))
      modifies this
      ensures Abstract() == After(old(Abstract()), Callback(t)) && Inv(Abstract())
    {
      StepKeepsEntries(Abstract(), Callback(t));
      StepKeepsLog(Abstract(), Callback(t));
      var c := calls[t];
      if c.id !in debounce || debounce[c.id].seqNo != c.seqNo {
        calls := calls[t := c.(phase := Skipped)];
        return;
      }
      debounce := debounce - {c.id};
      calls := calls[t := c.(phase := Processed)];
      processed := processed + [t];
    }
  }
}
