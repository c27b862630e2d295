/** When a hit of the cache with many callers is right (cache.go): in runs of
    Put, Get and SetTag, exactly as long as there are no more Puts than slots. */
module CacheHits {
  import opened Wrappers
  import opened Sequences
  import opened Bits
  import opened ProgramCache
  import opened SlotProtocol
  import opened SteadyHits

  // ------------------------------------------------------------------------
  // Hits, in runs of Put, Get and SetTag without eviction
  // ------------------------------------------------------------------------

  predicate QuietCall(op: Call) {
    (op.CallPut? || op.CallGet? || op.CallSetTag?) && op.h != 0
  }

  /** The thread runs a Put, Get or SetTag and is not evicting. */
  predicate QuietPc(pc: Pc) {
    pc.Idle? || (QuietCall(pc.op) && !pc.ScanVer? && !pc.EvictLoad? && !pc.EvictCas?)
  }

  ghost predicate Quiet(s: State, c: Choice) {
    c.t < |s.pcs| && (s.pcs[c.t].Idle? ==> QuietCall(c.start)) && forall t :: 0 <= t < |s.pcs| ==> QuietPc(s.pcs[t])
  }

  /** Every step of the run is taken from a quiet state. */
  ghost predicate QuietRun(n: nat, threads: nat, run: seq<Choice>)
    requires n > 0 && InThreads(run, threads)
  {
    run == [] ||
    (QuietRun(n, threads, run[..|run| - 1]) &&
     Quiet(RunState(n, threads, run[..|run| - 1]), run[|run| - 1]))
  }

  /** The slot's program was stored under its hash. */
  ghost predicate Logged(c: Cell, log: set<(nat, Program)>) {
    c.prog.Some? ==> c.hash != 0 && (c.hash, c.prog.value) in log
  }

  /** How far the owner of a slot has got. */
  ghost predicate OwnerOnTrack(op: Call, c: Cell, todo: seq<Write>) {
    match op
    case CallPut(h, p) =>
      || (todo == [SetHash(h), SetProg(Some(p)), Release] && (c.hash == 0 || c.hash == h))
      || (todo == [SetProg(Some(p)), Release] && c.hash == h)
      || (todo == [Release] && c.hash == h)
    case _ =>
      c.hash != 0 && forall w :: w in todo ==> w.LoadTags? || w.SetTags? || w.Release?
  }

  ghost predicate OnTrack(pc: Pc, cells: seq<Cell>)
    requires InRange(pc, |cells|)
  {
    match pc
    case ReloadVer(op, i, _) => cells[SlotOf(op, i, |cells|)].hash == op.h
    case LoadProgram(op, i, _) => cells[SlotOf(op, i, |cells|)].hash == op.h
    case Owning(op, _, k, _, todo) => OwnerOnTrack(op, cells[k], todo)
    case _ => true
  }

  ghost predicate Stored(s: State)
    requires Shape(s)
  {
    && (forall k :: 0 <= k < |s.cells| ==> Logged(s.cells[k], s.log))
    && (forall t :: 0 <= t < |s.pcs| && QuietPc(s.pcs[t]) ==> OnTrack(s.pcs[t], s.cells))
  }

  /** In a quiet step a slot's hash, once set, stays, and programs stay logged. */
  lemma QuietCells(cells: seq<Cell>, pc: Pc, start: Call, log: set<(nat, Program)>, k: nat)
    requires |cells| > 0 && InRange(pc, |cells|) && Knows(pc, cells) && QuietPc(pc) && k < |cells|
    requires OnTrack(pc, cells) && Logged(cells[k], log)
    ensures var c' := StepPc(cells, pc, start).cells[k];
            && (cells[k].hash != 0 ==> c'.hash == cells[k].hash)
            && (c' == cells[k] || Owns(pc, k) || c' == cells[k].(ver := c'.ver))
            && Logged(c', Logs(pc, log))
  {
    hide Home, Pos, BitOr, BitAnd;
    if pc.Owning? && pc.op.CallSetTag? {
      assert pc.todo[0] in pc.todo;
    }
  }

  lemma QuietStepper(cells: seq<Cell>, pc: Pc, start: Call)
    requires |cells| > 0 && InRange(pc, |cells|) && Knows(pc, cells) && QuietPc(pc) && (pc.Idle? ==> QuietCall(start))
    requires OnTrack(pc, cells)
    ensures var e := StepPc(cells, pc, start);
            InRange(e.pc, |cells|) && (QuietPc(e.pc) ==> OnTrack(e.pc, e.cells))
  {
    hide Home, Pos, BitOr, BitAnd;
    OwnerRange(cells, pc, start);
    if pc.Owning? && pc.op.CallPut? {
      var todo := pc.todo;
      assert todo[1..] == if |todo| == 3 then [todo[1], todo[2]] else if |todo| == 2 then [todo[1]] else [];
    }
    if pc.Owning? && pc.op.CallSetTag? {
      assert pc.todo[0] in pc.todo;
      assert forall w :: w in pc.todo[1..] ==> w in pc.todo;
    }
  }

  lemma QuietStep(s: State, t: nat, start: Call)
    requires Inv(s) && Stored(s) && t < |s.pcs| && Quiet(s, Choice(t, start))
    ensures Inv(Step(s, t, start)) && Stored(Step(s, t, start))
  {
    hide StepPc, Knows, InRange;
    var s' := Step(s, t, start);
    StepKeepsInv(s, t, start);
    QuietStepper(s.cells, s.pcs[t], start);
    forall k | 0 <= k < |s.cells|
      ensures Logged(s'.cells[k], s'.log)
      ensures s.cells[k].hash != 0 ==> s'.cells[k].hash == s.cells[k].hash
    {
      QuietCells(s.cells, s.pcs[t], start, s.log, k);
    }
    StepOwnership(s, t, start);
    forall u | 0 <= u < |s.pcs| && QuietPc(s'.pcs[u])
      ensures OnTrack(s'.pcs[u], s'.cells)
    {
      if u != t {
        assert OnTrack(s.pcs[u], s.cells);
        OthersOnTrack(s.pcs[u], s.cells, s'.cells);
      }
    }
  }

  lemma OthersOnTrack(pc: Pc, cells: seq<Cell>, cells': seq<Cell>)
    requires |cells'| == |cells| && InRange(pc, |cells|) && OnTrack(pc, cells) && QuietPc(pc)
    requires forall k :: 0 <= k < |cells| && cells[k].hash != 0 ==> cells'[k].hash == cells[k].hash
    requires forall k :: 0 <= k < |cells| && Owns(pc, k) ==> cells'[k] == cells[k]
    ensures OnTrack(pc, cells')
  {
    hide Home, Pos, BitOr, BitAnd;
  }

  lemma {:induction false} QuietRunStored(n: nat, threads: nat, run: seq<Choice>)
    requires n > 0 && InThreads(run, threads) && QuietRun(n, threads, run)
    ensures Stored(RunState(n, threads, run))
  {
    if run != [] {
      var before, c := run[..|run| - 1], run[|run| - 1];
      QuietRunStored(n, threads, before);
      QuietStep(RunState(n, threads, before), c.t, c.start);
    }
  }

  /** In every run of Put, Get and SetTag in which no Put has reached the eviction
      scan, however many Puts it makes, a hit for a hash returns a program that
      some Put stored under that hash. */
  lemma QuietHits(n: nat, threads: nat, run: seq<Choice>, c: Choice)
    requires n > 0 && InThreads(run, threads) && QuietRun(n, threads, run) && c.t < threads
    requires QuietPc(RunState(n, threads, run).pcs[c.t])
    ensures HitIsStored(n, threads, run, c)
  {
    hide RunState, QuietRun, StepPc, OnTrack, InRange, Knows;
    QuietRunStored(n, threads, run);
    var s := RunState(n, threads, run);
    QuietLoad(s.cells, s.pcs[c.t], c.start, s.log);
  }

  lemma QuietLoad(cells: seq<Cell>, pc: Pc, start: Call, log: set<(nat, Program)>)
    requires |cells| > 0 && InRange(pc, |cells|) && OnTrack(pc, cells)
    requires forall k :: 0 <= k < |cells| ==> Logged(cells[k], log)
    ensures var e := StepPc(cells, pc, start);
            e.hit.Some? ==> pc.LoadProgram? && (pc.op.h, e.hit.value) in log
  {
    hide Home, Pos, BitOr, BitAnd;
  }

  // ------------------------------------------------------------------------
  // Counting Puts and claimed slots
  // ------------------------------------------------------------------------

  /** A Put takes no slot that is claimed for another hash; in quiet runs a
      claimed slot stays claimed. */
  predicate Claimed(c: Cell) {
    c.hash != 0 || c.ver % 2 == 1
  }

  /** The thread runs a Put that has not taken a slot yet. */
  predicate Pending(pc: Pc) {
    !pc.Idle? && !pc.Owning? && pc.op.CallPut?
  }

  /** The slots a Put has passed by are claimed. */
  ghost predicate Passed(op: Call, i: nat, cells: seq<Cell>) {
    forall j :: 0 <= j < i && j < |cells| ==> Claimed(cells[SlotOf(op, j, |cells|)])
  }

  ghost predicate PassedFits(pc: Pc, cells: seq<Cell>) {
    (pc.LoadVer? || pc.LoadCheck? || pc.TryCas?) && pc.op.CallPut? ==> Passed(pc.op, pc.i, cells)
  }

  /** Claimed slots and pending Puts together are no more than the Puts started. */
  ghost predicate Few(s: State, started: nat) {
    && Count(s.cells, Claimed) + Count(s.pcs, Pending) <= started
    && forall t :: 0 <= t < |s.pcs| ==> PassedFits(s.pcs[t], s.cells)
  }

  /** The slot a step may change. */
  function Touched(pc: Pc, n: nat): (k: nat)
    requires n > 0
    ensures k < n
  {
    match pc
    case TryCas(op, i, _, _) => if i < n then SlotOf(op, i, n) else 0
    case EvictCas(_, k, _) => if k < n then k else 0
    case Owning(_, _, k, _, _) => if k < n then k else 0
    case _ => 0
  }

  lemma OneCellChanges(cells: seq<Cell>, pc: Pc, start: Call)
    requires |cells| > 0 && InRange(pc, |cells|)
    ensures var k := Touched(pc, |cells|);
            StepPc(cells, pc, start).cells == cells[k := StepPc(cells, pc, start).cells[k]]
  {
    hide Home, Pos, BitOr, BitAnd;
  }

  /** The ledger of a quiet step: a claimed slot stays claimed; a slot is newly
      claimed only by a pending Put, which then is pending no more; and only an
      idle thread starts one. */
  lemma LedgerStep(cells: seq<Cell>, pc: Pc, start: Call, k: nat)
    requires |cells| > 0 && InRange(pc, |cells|) && Knows(pc, cells) && QuietPc(pc) && (pc.Idle? ==> QuietCall(start))
    requires OnTrack(pc, cells) && k < |cells|
    ensures var e := StepPc(cells, pc, start);
            && (Claimed(cells[k]) ==> Claimed(e.cells[k]))
            && (Claimed(e.cells[k]) && !Claimed(cells[k]) ==> Pending(pc) && !Pending(e.pc))
            && (Pending(e.pc) && !Pending(pc) ==> pc.Idle? && start.CallPut?)
  {
    hide Home, Pos, BitOr, BitAnd;
    if pc.Owning? && !pc.op.CallPut? {
      assert pc.todo[0] in pc.todo;
    }
  }

  /** A Put that goes past a slot has found it claimed; one that gives up has
      found all of them claimed. */
  lemma StepperPasses(cells: seq<Cell>, pc: Pc, start: Call)
    requires |cells| > 0 && InRange(pc, |cells|) && QuietPc(pc) && PassedFits(pc, cells)
    ensures var e := StepPc(cells, pc, start);
            && PassedFits(e.pc, e.cells)
            && (!QuietPc(e.pc) && !pc.Idle? ==> Pending(pc) && Passed(pc.op, |cells|, cells))
  {
    hide Home, Pos, BitOr, BitAnd;
  }

  lemma AllClaimed(op: Call, cells: seq<Cell>, k: nat)
    requires op.CallPut? && |cells| > 0 && Passed(op, |cells|, cells) && k < |cells|
    ensures Claimed(cells[k])
  {
    var j := Dist(|cells|, Home(op.h, |cells|), k);
    assert SlotOf(op, j, |cells|) == k;
  }

  /** With at most as many Puts as slots, no Put ever gives up looking for one. */
  lemma FewStep(s: State, t: nat, start: Call, started: nat)
    requires Inv(s) && Stored(s) && t < |s.pcs| && Quiet(s, Choice(t, start)) && Few(s, started)
    requires started + (if s.pcs[t].Idle? && start.CallPut? then 1 else 0) <= |s.cells|
    ensures var s' := Step(s, t, start);
            && (forall u :: 0 <= u < |s'.pcs| ==> QuietPc(s'.pcs[u]))
            && Few(s', started + if s.pcs[t].Idle? && start.CallPut? then 1 else 0)
  {
    var pc := s.pcs[t];
    assert InRange(pc, |s.cells|) && Knows(pc, s.cells) && QuietPc(pc);
    assert OnTrack(pc, s.cells) && PassedFits(pc, s.cells);
    StepperPasses(s.cells, pc, start);
    CountsStep(s, t, start);
    hide StepPc, Knows, OnTrack, InRange;
    var s' := Step(s, t, start);
    if !QuietPc(s'.pcs[t]) && !pc.Idle? {
      forall k | 0 <= k < |s.cells|
        ensures Claimed(s.cells[k])
      {
        AllClaimed(pc.op, s.cells, k);
      }
      CountAll(s.cells, Claimed);
      CountAll(s.pcs, Pending);
    }
    forall u | 0 <= u < |s.pcs|
      ensures PassedFits(s'.pcs[u], s'.cells)
    {
      assert PassedFits(s.pcs[u], s.cells);
    }
  }

  /** What a quiet step does to the two counts. */
  lemma CountsStep(s: State, t: nat, start: Call)
    requires Inv(s) && Stored(s) && t < |s.pcs| && Quiet(s, Choice(t, start))
    ensures var s' := Step(s, t, start);
            && (forall k :: 0 <= k < |s.cells| && Claimed(s.cells[k]) ==> Claimed(s'.cells[k]))
            && Count(s'.cells, Claimed) + Count(s'.pcs, Pending)
               <= Count(s.cells, Claimed) + Count(s.pcs, Pending) + if s.pcs[t].Idle? && start.CallPut? then 1 else 0
  {
    var pc, n := s.pcs[t], |s.cells|;
    var k := Touched(pc, n);
    var s' := Step(s, t, start);
    assert InRange(pc, n) && Knows(pc, s.cells) && QuietPc(pc) && OnTrack(pc, s.cells);
    OneCellChanges(s.cells, pc, start);
    LedgerStep(s.cells, pc, start, k);
    CountUpdate(s.cells, k, s'.cells[k], Claimed);
    CountUpdate(s.pcs, t, s'.pcs[t], Pending);
    hide StepPc, Knows, OnTrack, InRange;
  }

  // ------------------------------------------------------------------------
  // A condition on the calls
  // ------------------------------------------------------------------------

  /** The calls made in a run, in the order they were started. */
  ghost function CallsOf(n: nat, threads: nat, run: seq<Choice>): seq<Call>
    requires n > 0 && InThreads(run, threads)
  {
    if run == [] then []
    else
      var before, c := run[..|run| - 1], run[|run| - 1];
      CallsOf(n, threads, before) + if RunState(n, threads, before).pcs[c.t].Idle? then [c.start] else []
  }

  predicate IsPut(op: Call) {
    op.CallPut?
  }

  /** The run makes only Put, Get and SetTag calls, and at most `puts` Puts. */
  ghost predicate AtMost(n: nat, threads: nat, run: seq<Choice>, puts: nat) {
    && n > 0 && InThreads(run, threads)
    && (forall op :: op in CallsOf(n, threads, run) ==> QuietCall(op))
    && Count(CallsOf(n, threads, run), IsPut) <= puts
  }

  /** What the last step adds to the calls. */
  lemma AtMostSnoc(n: nat, threads: nat, run: seq<Choice>, c: Choice, puts: nat)
    requires n > 0 && InThreads(run, threads) && c.t < threads && AtMost(n, threads, run + [c], puts)
    ensures var idle := RunState(n, threads, run).pcs[c.t].Idle?;
            && AtMost(n, threads, run, puts)
            && (idle ==> QuietCall(c.start))
            && Count(CallsOf(n, threads, run + [c]), IsPut)
               == Count(CallsOf(n, threads, run), IsPut) + if idle && IsPut(c.start) then 1 else 0
  {
    hide RunState, CallsOf;
    var calls, idle := CallsOf(n, threads, run), RunState(n, threads, run).pcs[c.t].Idle?;
    CallsSnoc(n, threads, run, c);
    AllowedSnoc(calls, CallsOf(n, threads, run + [c]), c.start, idle);
  }

  lemma CallsSnoc(n: nat, threads: nat, run: seq<Choice>, c: Choice)
    requires n > 0 && InThreads(run, threads) && c.t < threads && InThreads(run + [c], threads)
    ensures CallsOf(n, threads, run + [c])
            == CallsOf(n, threads, run) + if RunState(n, threads, run).pcs[c.t].Idle? then [c.start] else []
  {
    hide RunState;
    assert (run + [c])[..|run|] == run;
  }

  lemma AllowedSnoc(calls: seq<Call>, calls': seq<Call>, op: Call, idle: bool)
    requires calls' == calls + (if idle then [op] else []) && forall o :: o in calls' ==> QuietCall(o)
    ensures (forall o :: o in calls ==> QuietCall(o)) && (idle ==> QuietCall(op))
    ensures Count(calls', IsPut) == Count(calls, IsPut) + if idle && IsPut(op) then 1 else 0
  {
    hide QuietCall, IsPut;
    if idle {
      CountSnoc(calls, op, IsPut);
      assert op in calls';
    } else {
      assert calls' == calls;
    }
  }

  lemma {:induction false} FewPutsAreQuiet(n: nat, threads: nat, run: seq<Choice>)
    requires AtMost(n, threads, run, n)
    ensures var s := RunState(n, threads, run);
            && QuietRun(n, threads, run)
            && (forall t :: 0 <= t < |s.pcs| ==> QuietPc(s.pcs[t]))
            && Few(s, Count(CallsOf(n, threads, run), IsPut))
  {
    if run == [] {
      FewAtStart(n, threads);
    } else {
      var before, c := run[..|run| - 1], run[|run| - 1];
      assert run == before + [c];
      AtMostSnoc(n, threads, before, c, n);
      FewPutsAreQuiet(n, threads, before);
      QuietRunStored(n, threads, before);
      var s := RunState(n, threads, before);
      assert RunState(n, threads, run) == Step(s, c.t, c.start);
      assert Count(CallsOf(n, threads, run), IsPut) <= n;
      hide Few, QuietPc, QuietCall, Step, Inv, Stored, CallsOf, RunState, AtMost;
      FewStep(s, c.t, c.start, Count(CallsOf(n, threads, before), IsPut));
    }
  }

  lemma FewAtStart(n: nat, threads: nat)
    requires n > 0
    ensures Few(Start(n, threads), 0)
    ensures forall t :: 0 <= t < threads ==> QuietPc(Start(n, threads).pcs[t])
  {
    CountNone(Start(n, threads).cells, Claimed);
    CountNone(Start(n, threads).pcs, Pending);
  }

  /** In every run of Put, Get and SetTag with at most as many Puts as slots, a
      hit for a hash returns a program that some Put stored under that hash. */
  lemma HitsAreStored(n: nat, threads: nat, run: seq<Choice>, c: Choice)
    requires AtMost(n, threads, run, n) && c.t < threads
    ensures HitIsStored(n, threads, run, c)
  {
    hide QuietRun, Few, RunState, HitIsStored, QuietPc, CallsOf, InThreads;
    FewPutsAreQuiet(n, threads, run);
    QuietHits(n, threads, run, c);
  }

  /** Whatever the threads and the interleaving, with at most `puts` Puts. */
  ghost predicate HitsHold(n: nat, puts: nat)
    requires n > 0
  {
    forall threads: nat, run: seq<Choice>, c: Choice ::
      AtMost(n, threads, run, puts) && c.t < threads ==> HitIsStored(n, threads, run, c)
  }

  // ------------------------------------------------------------------------
  // One Put more than slots, and a hit may be wrong
  // ------------------------------------------------------------------------

  lemma Extend(n: nat, run: seq<Choice>, t: nat, start: Call) returns (run': seq<Choice>, s': State)
    requires n > 0 && t < 2 && InThreads(run, 2)
    ensures InThreads(run', 2)
    ensures s' == RunState(n, 2, run') == Step(RunState(n, 2, run), t, start)
    ensures CallsOf(n, 2, run') == CallsOf(n, 2, run) + if RunState(n, 2, run).pcs[t].Idle? then [start] else []
  {
    run' := run + [Choice(t, start)];
    assert run'[..|run|] == run;
    s' := RunState(n, 2, run');
  }

  function PutWrites(put: Call): (r: seq<Write>)
    requires put.CallPut?
    ensures |r| == 3
  {
    [SetHash(put.h), SetProg(Some(put.p)), Release]
  }

  /** Thread 0 takes the empty home slot of a Put. */
  lemma PutTakes(n: nat, run: seq<Choice>, put: Call, j: nat) returns (run': seq<Choice>)
    requires n > 0 && InThreads(run, 2) && put.CallPut? && put.h != 0 && j < n && Home(put.h, n) == j
    requires RunState(n, 2, run).cells[j] == Cell(0, 0, 0, None) && RunState(n, 2, run).pcs == [Idle, Idle]
    ensures InThreads(run', 2)
    ensures var s := RunState(n, 2, run);
            RunState(n, 2, run')
            == State(s.cells[j := Cell(1, 0, 0, None)], [Owning(put, 0, j, 0, PutWrites(put)), Idle], s.log)
    ensures CallsOf(n, 2, run') == CallsOf(n, 2, run) + [put]
  {
    hide Home, RunState, CallsOf, InThreads, Inv, StepPc, Pos, PutWrites;
    var s0 := RunState(n, 2, run);
    PutSteps(s0.cells, put, j);
    var s;
    run', s := Extend(n, run, 0, put);
    assert s == State(s0.cells, [LoadVer(put, 0), Idle], s0.log);
    run', s := Extend(n, run', 0, put);
    assert s == State(s0.cells, [LoadCheck(put, 0, 0), Idle], s0.log);
    run', s := Extend(n, run', 0, put);
    assert s == State(s0.cells, [TryCas(put, 0, 0, 0), Idle], s0.log);
    run', s := Extend(n, run', 0, put);
  }

  /** Thread 0 puts `p` under `h` into its empty home slot. */
  lemma PutHome(n: nat, run: seq<Choice>, h: nat, p: Program, j: nat) returns (run': seq<Choice>)
    requires n > 0 && InThreads(run, 2) && h != 0 && j < n && Home(h, n) == j
    requires RunState(n, 2, run).cells[j] == Cell(0, 0, 0, None) && RunState(n, 2, run).pcs == [Idle, Idle]
    ensures InThreads(run', 2)
    ensures var s := RunState(n, 2, run);
            RunState(n, 2, run') == State(s.cells[j := Cell(2, h, 0, Some(p))], [Idle, Idle], s.log + {(h, p)})
    ensures CallsOf(n, 2, run') == CallsOf(n, 2, run) + [CallPut(h, p)]
  {
    hide Home, RunState, CallsOf, InThreads, Inv, StepPc, Pos;
    var put := CallPut(h, p);
    var writes := PutWrites(put);
    var s0 := RunState(n, 2, run);
    PutSteps(s0.cells, put, j);
    run' := PutTakes(n, run, put, j);
    var s;
    run', s := Extend(n, run', 0, put);
    assert s == State(s0.cells[j := Cell(1, h, 0, None)], [Owning(put, 0, j, 0, writes[1..]), Idle], s0.log);
    run', s := Extend(n, run', 0, put);
    assert s == State(s0.cells[j := Cell(1, h, 0, Some(p))], [Owning(put, 0, j, 0, [Release]), Idle],
                      s0.log + {(h, p)});
    run', s := Extend(n, run', 0, put);
    assert s == State(s0.cells[j := Cell(2, h, 0, Some(p))], [Idle, Idle], s0.log + {(h, p)});
  }

  /** A Put into its empty home slot, step by step. */
  lemma PutSteps(cells: seq<Cell>, put: Call, j: nat)
    requires put.CallPut? && put.h != 0 && j < |cells| && Home(put.h, |cells|) == j
    requires cells[j] == Cell(0, 0, 0, None)
    ensures var writes := PutWrites(put);
            var owned, hashed := cells[j := Cell(1, 0, 0, None)], cells[j := Cell(1, put.h, 0, None)];
            var stored := cells[j := Cell(1, put.h, 0, Some(put.p))];
            && writes[0] == SetHash(put.h) && writes[1..] == [SetProg(Some(put.p)), Release]
            && StepPc(cells, Idle, put) == Effect(cells, LoadVer(put, 0), None)
            && StepPc(cells, LoadVer(put, 0), put) == Effect(cells, LoadCheck(put, 0, 0), None)
            && StepPc(cells, LoadCheck(put, 0, 0), put) == Effect(cells, TryCas(put, 0, 0, 0), None)
            && StepPc(cells, TryCas(put, 0, 0, 0), put) == Effect(owned, Owning(put, 0, j, 0, writes), None)
            && StepPc(owned, Owning(put, 0, j, 0, writes), put)
               == Effect(hashed, Owning(put, 0, j, 0, writes[1..]), None)
            && StepPc(hashed, Owning(put, 0, j, 0, writes[1..]), put)
               == Effect(stored, Owning(put, 0, j, 0, [Release]), None)
            && StepPc(stored, Owning(put, 0, j, 0, [Release]), put)
               == Effect(cells[j := Cell(2, put.h, 0, Some(put.p))], Idle, None)
  {
    hide Home;
    assert SlotOf(put, 0, |cells|) == j;
    assert PutWrites(put)[1..][1..] == [Release];
  }

  lemma HomeOf(n: nat, j: nat)
    requires j < n
    ensures Home(n + j, n) == j && Home(n + n, n) == 0
  {
    DivModUnique(n + j, n, 1, j);
    DivModUnique(n + n, n, 2, 0);
  }

  /** The slots below `j` hold the hashes n, n+1, and so on. */
  ghost predicate FilledTo(s: State, n: nat, j: nat) {
    && |s.cells| == n
    && (forall k :: 0 <= k < n ==>
          s.cells[k] == if k < j then Cell(2, n + k, 0, Some(Program(n + k))) else Cell(0, 0, 0, None))
    && (forall x :: x in s.log ==> x.1 == Program(x.0))
  }

  lemma AtMostPut(n: nat, run: seq<Choice>, run': seq<Choice>, h: nat, p: Program, puts: nat)
    requires InThreads(run', 2) && h != 0 && AtMost(n, 2, run, puts)
    requires CallsOf(n, 2, run') == CallsOf(n, 2, run) + [CallPut(h, p)]
    ensures AtMost(n, 2, run', puts + 1)
  {
    hide CallsOf;
    CountSnoc(CallsOf(n, 2, run), CallPut(h, p), IsPut);
  }

  lemma NothingFilled(n: nat)
    requires n > 0
    ensures InThreads([], 2) && AtMost(n, 2, [], 0)
    ensures FilledTo(RunState(n, 2, []), n, 0) && RunState(n, 2, []).pcs == [Idle, Idle]
  {
  }

  lemma OneMoreFilled(s: State, s': State, n: nat, j: nat)
    requires j < n && FilledTo(s, n, j)
    requires s'.cells == s.cells[j := Cell(2, n + j, 0, Some(Program(n + j)))]
    requires s'.log == s.log + {(n + j, Program(n + j))}
    ensures FilledTo(s', n, j + 1)
  {
  }

  lemma {:induction false} Fill(n: nat, j: nat) returns (run: seq<Choice>)
    requires n > 0 && j <= n
    ensures InThreads(run, 2) && FilledTo(RunState(n, 2, run), n, j) && RunState(n, 2, run).pcs == [Idle, Idle]
    ensures AtMost(n, 2, run, j)
    decreases j
  {
    hide Home, RunState, CallsOf, InThreads, Inv, Step, AtMost, FilledTo;
    if j == 0 {
      NothingFilled(n);
      run := [];
    } else {
      var k := j - 1;
      var before := Fill(n, k);
      FreeFrom(RunState(n, 2, before), n, k);
      HomeOf(n, k);
      run := PutHome(n, before, n + k, Program(n + k), k);
      AtMostPut(n, before, run, n + k, Program(n + k), k);
      OneMoreFilled(RunState(n, 2, before), RunState(n, 2, run), n, k);
    }
  }

  lemma FreeFrom(s: State, n: nat, k: nat)
    requires k < n && FilledTo(s, n, k)
    ensures |s.cells| == n && s.cells[k] == Cell(0, 0, 0, None)
  {
  }

  /** The Put that finds the table full. */
  function LastPut(n: nat): Call {
    CallPut(n + n, Program(n + n))
  }

  /** Thread 1 looks up hash n and stops just before loading the program. */
  function Reader(n: nat): Pc {
    LoadProgram(CallGet(n), 0, 2)
  }

  lemma GetSteps(cells: seq<Cell>, n: nat)
    requires n == |cells| > 0 && cells[0].ver == 2 && cells[0].hash == n
    ensures var get := CallGet(n);
            && StepPc(cells, Idle, get) == Effect(cells, LoadVer(get, 0), None)
            && StepPc(cells, LoadVer(get, 0), get) == Effect(cells, LoadCheck(get, 0, 2), None)
            && StepPc(cells, LoadCheck(get, 0, 2), get) == Effect(cells, ReloadVer(get, 0, 2), None)
            && StepPc(cells, ReloadVer(get, 0, 2), get) == Effect(cells, LoadProgram(get, 0, 2), None)
  {
    HomeOf(n, 0);
    assert SlotOf(CallGet(n), 0, n) == 0;
    hide Home, Pos, SlotOf;
  }

  lemma PauseGet(n: nat, run: seq<Choice>) returns (run': seq<Choice>)
    requires n > 0 && InThreads(run, 2) && FilledTo(RunState(n, 2, run), n, n)
    requires RunState(n, 2, run).pcs == [Idle, Idle]
    ensures InThreads(run', 2)
    ensures RunState(n, 2, run') == RunState(n, 2, run).(pcs := [Idle, Reader(n)])
    ensures CallsOf(n, 2, run') == CallsOf(n, 2, run) + [CallGet(n)]
  {
    hide StepPc, RunState, CallsOf, InThreads, Inv, FilledTo;
    var get := CallGet(n);
    var s0, s := RunState(n, 2, run), RunState(n, 2, run);
    FilledFirst(s0, n);
    GetSteps(s0.cells, n);
    run', s := Extend(n, run, 1, get);
    assert s == s0.(pcs := [Idle, LoadVer(get, 0)]);
    run', s := Extend(n, run', 1, get);
    assert s == s0.(pcs := [Idle, LoadCheck(get, 0, 2)]);
    run', s := Extend(n, run', 1, get);
    assert s == s0.(pcs := [Idle, ReloadVer(get, 0, 2)]);
    run', s := Extend(n, run', 1, get);
    assert s == s0.(pcs := [Idle, LoadProgram(get, 0, 2)]);
  }

  lemma FilledFirst(s: State, n: nat)
    requires n > 0 && FilledTo(s, n, n)
    ensures |s.cells| == n && s.cells[0] == Cell(2, n, 0, Some(Program(n)))
  {
  }

  /** `run'` only moves thread 0 of a full table to `pc`, and starts no call. */
  ghost predicate MovesTo(n: nat, run: seq<Choice>, run': seq<Choice>, pc: Pc)
    requires n > 0 && InThreads(run, 2)
  {
    && InThreads(run', 2)
    && RunState(n, 2, run') == RunState(n, 2, run).(pcs := [pc, Reader(n)])
    && CallsOf(n, 2, run') == CallsOf(n, 2, run)
  }

  /** The last Put is at `pc`, with the table full and the reader waiting. */
  ghost predicate FullAt(n: nat, run: seq<Choice>, pc: Pc) {
    && n > 0 && InThreads(run, 2)
    && FilledTo(RunState(n, 2, run), n, n)
    && RunState(n, 2, run).pcs == [pc, Reader(n)]
  }

  lemma MovesThen(n: nat, a: seq<Choice>, b: seq<Choice>, c: seq<Choice>, pc: Pc, pc': Pc)
    requires n > 0 && InThreads(a, 2) && MovesTo(n, a, b, pc) && MovesTo(n, b, c, pc')
    ensures MovesTo(n, a, c, pc')
  {
    hide RunState, CallsOf, InThreads;
  }

  lemma StaysFull(n: nat, run: seq<Choice>, run': seq<Choice>, pc: Pc, pc': Pc)
    requires FullAt(n, run, pc) && MovesTo(n, run, run', pc')
    ensures FullAt(n, run', pc')
  {
    hide RunState, CallsOf, InThreads;
  }

  lemma FullFacts(n: nat, run: seq<Choice>, pc: Pc, i: nat)
    requires FullAt(n, run, pc) && i < n
    ensures InThreads(run, 2)
    ensures var s := RunState(n, 2, run);
            |s.cells| == n && s.cells[i] == Cell(2, n + i, 0, Some(Program(n + i))) && s.pcs == [pc, Reader(n)]
  {
  }

  lemma ProbeSteps(cells: seq<Cell>, n: nat, i: nat)
    requires i < n == |cells| && cells[i] == Cell(2, n + i, 0, Some(Program(n + i)))
    ensures var put := LastPut(n);
            && StepPc(cells, LoadVer(put, i), put) == Effect(cells, LoadCheck(put, i, 2), None)
            && StepPc(cells, LoadCheck(put, i, 2), put) == Effect(cells, Advance(put, i, n), None)
  {
    HomeOf(n, 0);
    assert SlotOf(LastPut(n), i, n) == i;
    hide Home, Pos, SlotOf, Advance;
  }

  lemma ProbeOne(n: nat, run: seq<Choice>, i: nat) returns (run': seq<Choice>)
    requires i < n && InThreads(run, 2) && FullAt(n, run, LoadVer(LastPut(n), i))
    ensures MovesTo(n, run, run', Advance(LastPut(n), i, n))
  {
    hide RunState, CallsOf, InThreads, Inv, FilledTo, FullAt, StepPc, Advance, Reader, LastPut;
    var put := LastPut(n);
    FullFacts(n, run, LoadVer(put, i), i);
    var s0, s := RunState(n, 2, run), RunState(n, 2, run);
    ProbeSteps(s0.cells, n, i);
    run', s := Extend(n, run, 0, put);
    assert s == s0.(pcs := [LoadCheck(put, i, 2), Reader(n)]);
    run', s := Extend(n, run', 0, put);
    assert s == s0.(pcs := [Advance(put, i, n), Reader(n)]);
  }

  lemma {:induction false} ProbeAll(n: nat, run: seq<Choice>, i: nat) returns (run': seq<Choice>)
    requires i < n && FullAt(n, run, LoadVer(LastPut(n), i))
    ensures n > 0 && InThreads(run, 2) && MovesTo(n, run, run', ScanVer(LastPut(n), 0, 0, U63 - 1))
    decreases n - i
  {
    assert n > 0 && InThreads(run, 2);
    hide MovesTo, FullAt, InThreads;
    var one := ProbeOne(n, run, i);
    if i + 1 < n {
      StaysFull(n, run, one, LoadVer(LastPut(n), i), LoadVer(LastPut(n), i + 1));
      run' := ProbeAll(n, one, i + 1);
      MovesThen(n, run, one, run', LoadVer(LastPut(n), i + 1), ScanVer(LastPut(n), 0, 0, U63 - 1));
    } else {
      run' := one;
    }
  }

  /** Scanning slot `i` for a victim, with slot 0 the oldest so far. */
  function Scanning(n: nat, i: nat): Pc {
    ScanVer(LastPut(n), i, 0, if i == 0 then U63 - 1 else 2)
  }

  function ScanNext(n: nat, i: nat): Pc {
    if i + 1 < n then Scanning(n, i + 1) else EvictLoad(LastPut(n), 0)
  }

  lemma ScanStep(cells: seq<Cell>, n: nat, i: nat)
    requires i < n == |cells| && cells[i].ver == 2
    ensures StepPc(cells, Scanning(n, i), LastPut(n)) == Effect(cells, ScanNext(n, i), None)
  {
    hide Home, Pos;
  }

  lemma ScanOne(n: nat, run: seq<Choice>, i: nat) returns (run': seq<Choice>)
    requires i < n && InThreads(run, 2) && FullAt(n, run, Scanning(n, i))
    ensures MovesTo(n, run, run', ScanNext(n, i))
  {
    hide RunState, CallsOf, InThreads, Inv, FilledTo, FullAt, StepPc, Scanning, ScanNext, Reader;
    FullFacts(n, run, Scanning(n, i), i);
    var s0 := RunState(n, 2, run);
    ScanStep(s0.cells, n, i);
    var s;
    ScanNotOwning(n, i);
    run', s := Extend(n, run, 0, LastPut(n));
    assert s == s0.(pcs := [ScanNext(n, i), Reader(n)]);
  }

  lemma ScanNotOwning(n: nat, i: nat)
    ensures Scanning(n, i).ScanVer?
  {
  }

  /** The scan for a victim settles on slot 0. */
  lemma {:induction false} ScanAll(n: nat, run: seq<Choice>, i: nat) returns (run': seq<Choice>)
    requires i < n && FullAt(n, run, Scanning(n, i))
    ensures n > 0 && InThreads(run, 2) && MovesTo(n, run, run', EvictLoad(LastPut(n), 0))
    decreases n - i
  {
    assert n > 0 && InThreads(run, 2);
    hide MovesTo, FullAt, InThreads, Scanning;
    var one := ScanOne(n, run, i);
    if i + 1 < n {
      StaysFull(n, run, one, Scanning(n, i), Scanning(n, i + 1));
      run' := ScanAll(n, one, i + 1);
      MovesThen(n, run, one, run', Scanning(n, i + 1), EvictLoad(LastPut(n), 0));
    } else {
      run' := one;
    }
  }

  /** What an eviction does to the slot it has chosen. */
  lemma EvictSteps(cells: seq<Cell>, put: Call, was: Cell)
    requires |cells| > 0 && cells[0] == was && was.ver == 2 && put.CallPut?
    ensures |Writes(put)| == 3 && Writes(put)[0] == SetHash(put.h) && Writes(put)[1..][0] == SetProg(Some(put.p))
    ensures var writes := Writes(put);
            var owned := cells[0 := was.(ver := 3)];
            var hashed := cells[0 := was.(ver := 3, hash := put.h)];
            && StepPc(cells, EvictLoad(put, 0), put) == Effect(cells, EvictCas(put, 0, 2), None)
            && StepPc(cells, EvictCas(put, 0, 2), put) == Effect(owned, Owning(put, 0, 0, 2, writes), None)
            && StepPc(owned, Owning(put, 0, 0, 2, writes), put)
               == Effect(hashed, Owning(put, 0, 0, 2, writes[1..]), None)
            && StepPc(hashed, Owning(put, 0, 0, 2, writes[1..]), put)
               == Effect(cells[0 := Cell(3, put.h, was.tags, Some(put.p))], Owning(put, 0, 0, 2, [Release]), None)
  {
    hide Home, Pos;
    var writes := Writes(put);
    assert writes[1..] == [SetProg(Some(put.p)), Release] && writes[1..][1..] == [Release];
  }

  /** The last Put takes slot 0 from hash n and stores its program there. */
  lemma EvictSlot(n: nat, run: seq<Choice>) returns (run': seq<Choice>, s: State)
    requires n > 0 && InThreads(run, 2) && FullAt(n, run, EvictLoad(LastPut(n), 0))
    ensures InThreads(run', 2) && CallsOf(n, 2, run') == CallsOf(n, 2, run)
    ensures s == RunState(n, 2, run') && |s.cells| == n && |s.pcs| == 2
    ensures s.cells[0].prog == Some(Program(n + n)) && s.pcs[1] == Reader(n)
    ensures s.log == RunState(n, 2, run).log + {(n + n, Program(n + n))}
  {
    hide RunState, CallsOf, InThreads, Inv, FilledTo, FullAt, StepPc, Reader, Writes;
    var put, was := CallPut(n + n, Program(n + n)), Cell(2, n, 0, Some(Program(n)));
    var reader, s0 := Reader(n), RunState(n, 2, run);
    FullFacts(n, run, EvictLoad(put, 0), 0);
    EvictSteps(s0.cells, put, was);
    var writes := Writes(put);
    run', s := Extend(n, run, 0, put);
    assert s == State(s0.cells, [EvictCas(put, 0, 2), reader], s0.log);
    run', s := Extend(n, run', 0, put);
    assert s == State(s0.cells[0 := was.(ver := 3)], [Owning(put, 0, 0, 2, writes), reader], s0.log);
    run', s := Extend(n, run', 0, put);
    var hashed := was.(ver := 3, hash := n + n);
    assert s == State(s0.cells[0 := hashed], [Owning(put, 0, 0, 2, writes[1..]), reader], s0.log);
    run', s := Extend(n, run', 0, put);
    assert s.log == s0.log + {(n + n, Program(n + n))};
  }

  /** A full table, the reader waiting, and the last Put just called. */
  lemma FullTable(n: nat) returns (run: seq<Choice>)
    requires n > 0
    ensures FullAt(n, run, LoadVer(LastPut(n), 0)) && AtMost(n, 2, run, n + 1)
  {
    hide RunState, CallsOf, Inv, Home, FilledTo, StepPc, AtMost, Reader;
    var filled := Fill(n, n);
    var paused := PauseGet(n, filled);
    AtMostGet(n, filled, paused, n);
    var s := RunState(n, 2, paused);
    var s';
    run, s' := Extend(n, paused, 0, LastPut(n));
    StartStep(s.cells, LastPut(n));
    assert s'.pcs == [LoadVer(LastPut(n), 0), Reader(n)];
    SameFilled(RunState(n, 2, filled), s', n);
    assert LastPut(n) == CallPut(n + n, Program(n + n));
    AtMostPut(n, paused, run, n + n, Program(n + n), n);
  }

  lemma StartStep(cells: seq<Cell>, op: Call)
    requires |cells| > 0
    ensures StepPc(cells, Idle, op) == Effect(cells, LoadVer(op, 0), None)
  {
  }

  lemma AtMostGet(n: nat, run: seq<Choice>, run': seq<Choice>, puts: nat)
    requires n > 0 && InThreads(run', 2) && AtMost(n, 2, run, puts)
    requires CallsOf(n, 2, run') == CallsOf(n, 2, run) + [CallGet(n)]
    ensures AtMost(n, 2, run', puts)
  {
    hide CallsOf;
    CountSnoc(CallsOf(n, 2, run), CallGet(n), IsPut);
  }

  lemma SameFilled(s: State, s': State, n: nat)
    requires FilledTo(s, n, n) && s'.cells == s.cells && s'.log == s.log
    ensures FilledTo(s', n, n)
  {
  }

  /** A table of any size, n + 1 Puts of different hashes and one Get: the Get hits
      hash n with the program of hash 2n, which nobody stored under n. */
  lemma EvictionBreaksHits(n: nat) returns (run: seq<Choice>, c: Choice)
    requires n > 0
    ensures AtMost(n, 2, run, n + 1) && c.t < 2
    ensures !HitIsStored(n, 2, run, c)
  {
    var put := LastPut(n);
    var full := FullTable(n);
    var probed := ProbeAll(n, full, 0);
    StaysFull(n, full, probed, LoadVer(put, 0), Scanning(n, 0));
    var scanned := ScanAll(n, probed, 0);
    StaysFull(n, probed, scanned, Scanning(n, 0), EvictLoad(put, 0));
    var s;
    run, s := EvictSlot(n, scanned);
    c := Choice(1, put);
    WrongHit(n, run, s, RunState(n, 2, scanned));
  }

  lemma WrongHit(n: nat, run: seq<Choice>, s: State, before: State)
    requires n > 0 && InThreads(run, 2) && s == RunState(n, 2, run)
    requires s.cells[0].prog == Some(Program(n + n)) && s.pcs[1] == Reader(n)
    requires FilledTo(before, n, n) && s.log == before.log + {(n + n, Program(n + n))}
    ensures !HitIsStored(n, 2, run, Choice(1, LastPut(n)))
  {
    HomeOf(n, 0);
    assert SlotOf(CallGet(n), 0, n) == 0;
    hide RunState, Home, Pos, SlotOf, InThreads, Inv;
    assert (n, Program(n + n)) !in before.log;
  }

  /** Hits are right in every run exactly as long as there are no more Puts than
      slots. */
  lemma PutsBoundIsTight(n: nat, puts: nat)
    requires n > 0
    ensures HitsHold(n, puts) <==> puts <= n
  {
    if puts <= n {
      forall threads: nat, run: seq<Choice>, c: Choice | AtMost(n, threads, run, puts) && c.t < threads
        ensures HitIsStored(n, threads, run, c)
      {
        AtMostMore(n, threads, run, puts, n);
        HitsAreStored(n, threads, run, c);
      }
    } else {
      var run, c := EvictionBreaksHits(n);
      AtMostMore(n, 2, run, n + 1, puts);
    }
  }

  lemma AtMostMore(n: nat, threads: nat, run: seq<Choice>, puts: nat, more: nat)
    requires AtMost(n, threads, run, puts) && puts <= more
    ensures AtMost(n, threads, run, more)
  {
  }
}
