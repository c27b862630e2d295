/** When the suspense writer is sure to exit (suspense.go): it waits for all
    workers before draining, so the channel must hold what they still send. */
module SuspenseProgress {
  import opened Sequences
  import opened OutOfBand
  import opened Suspense

  /** The jobs whose worker sends a payload. */
  ghost function Senders(jobs: seq<Job>): set<nat> {
    set w: nat | w < |jobs| && Sends(jobs[w])
  }

  /** At most 8 payloads are unsent, queued or in the writer's hands. */
  ghost predicate Room(jobs: seq<Job>, s: State) {
    |Senders(jobs)| <= s.written + CAPACITY
  }

  ghost predicate CanStep(jobs: seq<Job>, s: State)
    requires |s.workers| == |jobs|
  {
    exists c :: Enabled(jobs, s, c)
  }

  // ------------------------------------------------------------------------
  // A measure that every step decreases
  // ------------------------------------------------------------------------

  function Rank(w: Worker): nat {
    match w
    case Unsubmitted => 13
    case Spawned => 12
    case Rendering(_) => 11
    case Sending(_) => 10
    case Finishing => 1
    case Finished => 0
  }

  function RankSum(workers: seq<Worker>): nat {
    if workers == [] then 0 else Rank(workers[0]) + RankSum(workers[1..])
  }

  function PhaseRank(p: Phase): nat {
    match p
    case Receiving => 4
    case Waiting => 3
    case Draining => 2
    case Closing => 1
    case Exited => 0
  }

  function Measure(s: State): nat {
    (if s.closed then 0 else 1) + RankSum(s.workers) + 8 * |s.chan| + 10 * PhaseRank(s.writer.phase)
    + if s.writer.current.Some? && s.writer.done <= 5 then 7 - s.writer.done else 0
  }

  lemma {:induction false} RankSumUpdate(workers: seq<Worker>, w: nat, x: Worker)
    requires w < |workers|
    ensures RankSum(workers[w := x]) == RankSum(workers) - Rank(workers[w]) + Rank(x)
  {
    if w == 0 {
      assert workers[0 := x][1..] == workers[1..];
    } else {
      RankSumUpdate(workers[1..], w - 1, x);
      assert workers[w := x][1..] == workers[1..][w - 1 := x];
    }
  }

  lemma MeasureDecreases(jobs: seq<Job>, s: State, c: Choice)
    requires Inv(jobs, s) && Enabled(jobs, s, c)
    ensures Measure(Apply(jobs, s, c)) < Measure(s)
  {
    hide SentFits, OneOwner, BufsFit, OutFits, FreeBuf, OobPieces, Content, TextOf, RankSum, AllFinished;
    match c {
      case Submit => RankSumUpdate(s.workers, s.next, Spawned);
      case Acquire(w, b) => RankSumUpdate(s.workers, w, Rendering(b));
      case Render(w) =>
        RankSumUpdate(s.workers, w, Sending(s.workers[w].buf));
        RankSumUpdate(s.workers, w, Finishing);
      case Send(w) => RankSumUpdate(s.workers, w, Finishing);
      case Finish(w) => RankSumUpdate(s.workers, w, Finished);
      case ReleaseBuf => DoneAtMostFive(jobs, s);
      case _ =>
    }
  }

  lemma DoneAtMostFive(jobs: seq<Job>, s: State)
    requires Inv(jobs, s) && s.writer.current.Some?
    ensures s.writer.current.value.w < |jobs| && s.writer.done <= 5
    ensures Delivers(jobs[s.writer.current.value.w]).None? ==> s.writer.done == 0
  {
    CurrentFits(jobs, s);
  }

  /** A run takes at most as many steps as the measure it starts from. */
  lemma {:induction false} RunIsBounded(jobs: seq<Job>, s: State, run: seq<Choice>, s': State)
    requires |s.workers| == |jobs| && Inv(jobs, s) && Reaches(jobs, s, run, s')
    ensures |run| + Measure(s') <= Measure(s)
    decreases |run|
  {
    hide Inv, Enabled, Apply, Measure;
    if run != [] {
      KeepsInv(jobs, s, run[0]);
      MeasureDecreases(jobs, s, run[0]);
      RunIsBounded(jobs, Apply(jobs, s, run[0]), run[1..], s');
    }
  }

  // ------------------------------------------------------------------------
  // Counting payloads
  // ------------------------------------------------------------------------

  lemma {:induction false} NoDuplicatesCount(xs: seq<nat>, ys: set<nat>)
    requires NoDuplicates(xs) && forall x :: x in xs ==> x in ys
    ensures |xs| <= |ys|
    decreases |xs|
  {
    if xs != [] {
      var last := xs[|xs| - 1];
      forall x | x in xs[..|xs| - 1]
        ensures x in ys - {last}
      {
      }
      NoDuplicatesCount(xs[..|xs| - 1], ys - {last});
    }
  }

  lemma SentAtMost(jobs: seq<Job>, s: State)
    requires Inv(jobs, s)
    ensures |s.sent| <= |Senders(jobs)|
    ensures forall w :: 0 <= w < |jobs| && s.workers[w].Sending? ==> |s.sent| < |Senders(jobs)|
  {
    forall x | x in s.sent
      ensures x in Senders(jobs)
    {
      assert HasSent(jobs, s, x);
    }
    NoDuplicatesCount(s.sent, Senders(jobs));
    forall w | 0 <= w < |jobs| && s.workers[w].Sending?
      ensures |s.sent| < |Senders(jobs)|
    {
      assert !HasSent(jobs, s, w);
      assert w in Senders(jobs);
      NoDuplicatesCount(s.sent, Senders(jobs) - {w});
    }
  }

  /** When all workers are done, everything to send has been sent. */
  lemma AllSent(jobs: seq<Job>, s: State)
    requires Inv(jobs, s) && AllFinished(s) && s.next == |jobs|
    ensures |s.sent| >= |Senders(jobs)|
  {
    forall w | w in Senders(jobs)
      ensures w in s.sent
    {
      assert s.workers[w].Finished?;
      assert HasSent(jobs, s, w);
    }
    SetInSeqCount(Senders(jobs), s.sent);
  }

  lemma {:induction false} SetInSeqCount(ys: set<nat>, xs: seq<nat>)
    requires forall y :: y in ys ==> y in xs
    ensures |ys| <= |xs|
    decreases |xs|
  {
    if xs != [] {
      var last := xs[|xs| - 1];
      forall y | y in ys - {last}
        ensures y in xs[..|xs| - 1]
      {
      }
      SetInSeqCount(ys - {last}, xs[..|xs| - 1]);
    }
  }

  // ------------------------------------------------------------------------
  // With room, something can always happen
  // ------------------------------------------------------------------------

  function Above(workers: seq<Worker>): (n: nat)
    ensures forall w :: 0 <= w < |workers| && (workers[w].Rendering? || workers[w].Sending?) ==> workers[w].buf < n
  {
    if workers == [] then 0
    else
      var rest := Above(workers[..|workers| - 1]);
      var last := workers[|workers| - 1];
      if (last.Rendering? || last.Sending?) && last.buf >= rest then last.buf + 1 else rest
  }

  function AboveAll(chan: seq<Payload>): (n: nat)
    ensures forall j :: 0 <= j < |chan| ==> chan[j].buf < n
  {
    if chan == [] then 0
    else
      var rest := AboveAll(chan[..|chan| - 1]);
      var last := chan[|chan| - 1].buf;
      if last >= rest then last + 1 else rest
  }

  /** The pool never runs out: there is always a fresh buffer. */
  lemma FreshExists(s: State) returns (b: nat)
    ensures FreeBuf(s, b)
  {
    b := Above(s.workers) + AboveAll(s.chan) + if s.writer.current.Some? then s.writer.current.value.buf + 1 else 0;
  }

  lemma WorkerSteps(jobs: seq<Job>, s: State, w: nat) returns (c: Choice)
    requires |s.workers| == |jobs| && w < |jobs|
    requires !s.workers[w].Unsubmitted? && !s.workers[w].Finished?
    requires s.workers[w].Sending? ==> |s.chan| < CAPACITY
    ensures Enabled(jobs, s, c)
  {
    match s.workers[w]
    case Spawned =>
      var b := FreshExists(s);
      c := Acquire(w, b);
    case Rendering(_) => c := Render(w);
    case Sending(_) => c := Send(w);
    case Finishing => c := Finish(w);
  }

  lemma WaitingSteps(jobs: seq<Job>, s: State) returns (c: Choice)
    requires Inv(jobs, s) && s.writer.phase.Waiting? && Room(jobs, s)
    ensures Enabled(jobs, s, c)
  {
    if AllFinished(s) {
      c := WaitOver;
    } else {
      var w: nat :| w < s.next && w < |s.workers| && !s.workers[w].Finished?;
      SentAtMost(jobs, s);
      assert InFlight(s) == s.chan;
      c := WorkerSteps(jobs, s, w);
    }
  }

  lemma WriterSteps(jobs: seq<Job>, s: State) returns (c: Choice)
    requires Inv(jobs, s) && s.closed && !s.writer.phase.Exited?
    requires s.writer.phase.Waiting? ==> Room(jobs, s)
    ensures Enabled(jobs, s, c)
  {
    if s.writer.current.Some? {
      DoneAtMostFive(jobs, s);
      c := if Delivers(jobs[s.writer.current.value.w]).Some? && s.writer.done < 5 then WritePiece else ReleaseBuf;
    } else {
      match s.writer.phase
      case Receiving => c := SeeDone;
      case Waiting => c := WaitingSteps(jobs, s);
      case Draining => c := if s.chan == [] then DrainOver else Receive;
      case Closing => c := CloseChannel;
    }
  }

  lemma SomethingSteps(jobs: seq<Job>, s: State)
    requires Inv(jobs, s) && !s.writer.phase.Exited?
    requires s.writer.phase.Waiting? ==> Room(jobs, s)
    ensures CanStep(jobs, s)
  {
    if s.closed {
      var c := WriterSteps(jobs, s);
    } else if s.next < |jobs| {
      assert Enabled(jobs, s, Submit);
    } else {
      assert Enabled(jobs, s, Close);
    }
  }

  // ------------------------------------------------------------------------
  // Without room, the writer waits for ever
  // ------------------------------------------------------------------------

  lemma StepKeepsRoom(jobs: seq<Job>, s: State, c: Choice)
    requires Inv(jobs, s) && Enabled(jobs, s, c)
    ensures Room(jobs, s) ==> Room(jobs, Apply(jobs, s, c))
    ensures s.writer.phase.Waiting? && !Room(jobs, s)
            ==> Apply(jobs, s, c).writer.phase.Waiting? && !Room(jobs, Apply(jobs, s, c))
    ensures !s.writer.phase.Receiving? && !s.writer.phase.Waiting?
            ==> !Apply(jobs, s, c).writer.phase.Waiting?
  {
    hide OobPieces, Content, TextOf, FreeBuf, Chunks, CurrentText, OneOwner, BufsFit, Senders;
    if c.WaitOver? {
      AllSent(jobs, s);
      assert InFlight(s) == s.chan;
      assert |s.sent| <= s.written + CAPACITY;
    }
  }

  lemma {:induction false} WaitsForEver(jobs: seq<Job>, s: State, run: seq<Choice>, s': State)
    requires |s.workers| == |jobs| && Inv(jobs, s) && Reaches(jobs, s, run, s')
    requires s.writer.phase.Waiting? && !Room(jobs, s)
    ensures s'.writer.phase.Waiting?
    decreases |run|
  {
    hide Inv, Enabled, Apply, Room;
    if run != [] {
      KeepsInv(jobs, s, run[0]);
      StepKeepsRoom(jobs, s, run[0]);
      WaitsForEver(jobs, Apply(jobs, s, run[0]), run[1..], s');
    }
  }

  lemma {:induction false} RoomLasts(jobs: seq<Job>, s: State, run: seq<Choice>, s': State)
    requires |s.workers| == |jobs| && Inv(jobs, s) && Reaches(jobs, s, run, s') && Room(jobs, s)
    ensures Room(jobs, s')
    decreases |run|
  {
    hide Inv, Enabled, Apply, Room;
    if run != [] {
      KeepsInv(jobs, s, run[0]);
      StepKeepsRoom(jobs, s, run[0]);
      RoomLasts(jobs, Apply(jobs, s, run[0]), run[1..], s');
    }
  }

  /** Some run goes on until nothing can happen. */
  lemma {:induction false} RunToEnd(jobs: seq<Job>, s: State) returns (run: seq<Choice>, s': State)
    requires |s.workers| == |jobs| && Inv(jobs, s)
    ensures |s'.workers| == |jobs| && Reaches(jobs, s, run, s') && !CanStep(jobs, s')
    decreases Measure(s)
  {
    hide Inv, Enabled, Apply, Measure;
    if CanStep(jobs, s) {
      var c :| Enabled(jobs, s, c);
      KeepsInv(jobs, s, c);
      MeasureDecreases(jobs, s, c);
      var rest;
      rest, s' := RunToEnd(jobs, Apply(jobs, s, c));
      run := [c] + rest;
      assert run[1..] == rest;
    } else {
      run, s' := [], s;
    }
  }

  /** From `s`, every run goes on until the writer has exited. */
  ghost predicate AlwaysExits(jobs: seq<Job>, s: State)
    requires |s.workers| == |jobs|
  {
    forall run, s' :: Reaches(jobs, s, run, s') ==>
      |s'.workers| == |jobs| && (s'.writer.phase.Exited? || CanStep(jobs, s'))
  }

  lemma RoomExits(jobs: seq<Job>, s: State)
    requires |s.workers| == |jobs| && Inv(jobs, s) && Room(jobs, s)
    ensures AlwaysExits(jobs, s)
  {
    hide Inv, Room, CanStep;
    forall run, s' | Reaches(jobs, s, run, s')
      ensures |s'.workers| == |jobs| && (s'.writer.phase.Exited? || CanStep(jobs, s'))
    {
      RunKeepsInv(jobs, s, run, s');
      RoomLasts(jobs, s, run, s');
      if !s'.writer.phase.Exited? {
        SomethingSteps(jobs, s');
      }
    }
  }

  lemma NoRoomSticks(jobs: seq<Job>, s: State) returns (run: seq<Choice>, s': State)
    requires |s.workers| == |jobs| && Inv(jobs, s) && s.writer.phase.Waiting? && !Room(jobs, s)
    ensures |s'.workers| == |jobs| && Reaches(jobs, s, run, s')
    ensures !s'.writer.phase.Exited? && !CanStep(jobs, s')
  {
    hide Inv, Room, CanStep;
    run, s' := RunToEnd(jobs, s);
    WaitsForEver(jobs, s, run, s');
  }

  /** Entering drain: the writer is sure to exit exactly when at most 8 payloads
      are unsent or queued; and no run takes more steps than the measure. */
  lemma DrainExitsExactly(jobs: seq<Job>, s: State)
    requires |s.workers| == |jobs| && Inv(jobs, s) && s.writer.phase.Waiting?
    ensures AlwaysExits(jobs, s) <==> Room(jobs, s)
    ensures forall run, s' :: Reaches(jobs, s, run, s') ==> |run| <= Measure(s)
  {
    hide Inv, Room, Measure, CanStep;
    forall run, s' | Reaches(jobs, s, run, s')
      ensures |run| <= Measure(s)
    {
      RunIsBounded(jobs, s, run, s');
    }
    if Room(jobs, s) {
      RoomExits(jobs, s);
    } else {
      var run, s' := NoRoomSticks(jobs, s);
      assert Reaches(jobs, s, run, s');
    }
  }

  // ------------------------------------------------------------------------
  // Eight is tight
  // ------------------------------------------------------------------------

  lemma {:induction false} ReachesThen(jobs: seq<Job>, a: State, xs: seq<Choice>, b: State, ys: seq<Choice>, c: State)
    requires |a.workers| == |jobs| == |b.workers| && Reaches(jobs, a, xs, b) && Reaches(jobs, b, ys, c)
    ensures Reaches(jobs, a, xs + ys, c)
    decreases |xs|
  {
    hide Enabled, Apply;
    if xs == [] {
      assert xs + ys == ys;
    } else {
      assert (xs + ys)[1..] == xs[1..] + ys;
      ReachesThen(jobs, Apply(jobs, a, xs[0]), xs[1..], b, ys, c);
    }
  }

  /** The main thread may submit everything and close before anything else happens. */
  lemma {:induction false} SubmitAll(jobs: seq<Job>, s: State) returns (run: seq<Choice>, s': State)
    requires |s.workers| == |jobs| && s.next <= |jobs| && !s.closed
    ensures |s'.workers| == |jobs| && Reaches(jobs, s, run, s')
    ensures s'.closed && s'.writer == s.writer && s'.written == s.written
    decreases |jobs| - s.next
  {
    var c := if s.next < |jobs| then Submit else Close;
    var next := Apply(jobs, s, c);
    if s.next < |jobs| {
      var rest;
      rest, s' := SubmitAll(jobs, next);
      run := [c] + rest;
      assert run[1..] == rest;
    } else {
      run, s' := [c], next;
      assert run[1..] == [];
    }
  }

  /** The main thread closes first and the writer sees it: 9 senders do not fit. */
  lemma EarlyClose(jobs: seq<Job>) returns (run: seq<Choice>, s: State)
    requires |Senders(jobs)| > CAPACITY
    ensures |s.workers| == |jobs| && Reaches(jobs, Init(jobs), run, s)
    ensures s.writer.phase.Waiting? && !Room(jobs, s)
  {
    var xs, s1 := SubmitAll(jobs, Init(jobs));
    s := Apply(jobs, s1, SeeDone);
    assert [SeeDone][1..] == [];
    assert Reaches(jobs, s1, [SeeDone], s);
    run := xs + [SeeDone];
    hide Senders, Enabled, Apply;
    ReachesThen(jobs, Init(jobs), xs, s1, [SeeDone], s);
  }

  /** From the start, the writer is sure to exit exactly when at most 8 jobs send
      a payload: with 9 or more, closing early enough makes it wait for ever. */
  lemma EightIsTight(jobs: seq<Job>)
    ensures AlwaysExits(jobs, Init(jobs)) <==> |Senders(jobs)| <= CAPACITY
  {
    var s := Init(jobs);
    InitInv(jobs);
    hide Inv, CanStep, Enabled, Apply, Senders;
    if |Senders(jobs)| <= CAPACITY {
      RoomExits(jobs, s);
    } else {
      var xs, s1 := EarlyClose(jobs);
      RunKeepsInv(jobs, s, xs, s1);
      var ys, s2 := NoRoomSticks(jobs, s1);
      ReachesThen(jobs, s, xs, s1, ys, s2);
    }
  }
}
