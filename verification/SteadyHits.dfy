/** When a hit of the cache with many callers is right, whatever the calls
    (cache.go): as long as the slot's word does not move between the Get's second
    check of it and the load of the program. */
module SteadyHits {
  import opened Bits
  import opened ProgramCache
  import opened SlotProtocol
  import opened OwnerWrites

  /** The slot's program was stored under the slot's hash. */
  ghost predicate InLog(c: Cell, log: set<(nat, Program)>) {
    c.prog.Some? ==> (c.hash, c.prog.value) in log
  }

  /** What a Put still has to store. */
  ghost function Promised(op: Call, todo: seq<Write>): set<(nat, Program)> {
    if op.CallPut? && exists w :: w in todo && w.SetProg? then {(op.h, op.p)} else {}
  }

  /** The owner will leave its slot with a program stored under the hash. */
  ghost predicate OwnerFits(pc: Pc, cells: seq<Cell>, log: set<(nat, Program)>) {
    pc.Owning? && pc.k < |cells| ==> InLog(After(cells[pc.k], pc.todo), log + Promised(pc.op, pc.todo))
  }

  /** A slot that nobody is writing holds a program stored under its hash. */
  ghost predicate Consistent(s: State) {
    && (forall k :: 0 <= k < |s.cells| && s.cells[k].ver % 2 == 0 ==> InLog(s.cells[k], s.log))
    && (forall t :: 0 <= t < |s.pcs| ==> OwnerFits(s.pcs[t], s.cells, s.log))
  }

  lemma WritesFit(c: Cell, op: Call, log: set<(nat, Program)>)
    requires InLog(c, log)
    ensures InLog(After(c, Writes(op)), log + Promised(op, Writes(op)))
  {
    AfterWrites(c, op);
    if op.CallPut? {
      assert Writes(op)[1] in Writes(op);
    }
  }

  /** A thread that takes a slot will leave it consistent. */
  lemma TakerFits(cells: seq<Cell>, pc: Pc, start: Call, log: set<(nat, Program)>)
    requires |cells| > 0 && InRange(pc, |cells|) && Knows(pc, cells) && !pc.Owning?
    requires forall k :: 0 <= k < |cells| && cells[k].ver % 2 == 0 ==> InLog(cells[k], log)
    ensures var e := StepPc(cells, pc, start); OwnerFits(e.pc, e.cells, log)
  {
    hide Home, Pos, BitOr, BitAnd, After, Promised, Writes;
    var e := StepPc(cells, pc, start);
    if e.pc.Owning? {
      WritesFit(e.cells[e.pc.k], e.pc.op, log);
    }
  }

  /** What is promised and not yet logged gets logged. */
  lemma PromiseKept(cells: seq<Cell>, pc: Pc, start: Call, log: set<(nat, Program)>)
    requires |cells| > 0 && InRange(pc, |cells|) && Knows(pc, cells) && pc.Owning?
    ensures var e := StepPc(cells, pc, start);
            log + Promised(pc.op, pc.todo)
            <= Logs(pc, log) + if e.pc.Owning? then Promised(pc.op, e.pc.todo) else {}
  {
    hide Home, Pos, BitOr, BitAnd, SlotOf;
    var w, rest := pc.todo[0], pc.todo[1..];
    assert forall x :: x in pc.todo <==> x == w || x in rest;
    if w.LoadTags? {
      assert forall x :: x in rest ==> x in [SetTags(BitOr(cells[pc.k].tags, w.mask))] + rest;
    }
  }

  lemma InLarger(c: Cell, c': Cell, log: set<(nat, Program)>, log': set<(nat, Program)>)
    requires InLog(c, log) && log <= log' && c'.hash == c.hash && c'.prog == c.prog
    ensures InLog(c', log')
  {
  }

  /** One write of an owner keeps its promise, and its release fulfils it. */
  lemma OwnerStepFits(cells: seq<Cell>, pc: Pc, start: Call, log: set<(nat, Program)>)
    requires |cells| > 0 && InRange(pc, |cells|) && Knows(pc, cells) && pc.Owning? && OwnerFits(pc, cells, log)
    ensures var e := StepPc(cells, pc, start);
            && OwnerFits(e.pc, e.cells, Logs(pc, log))
            && (e.cells[pc.k].ver % 2 == 0 ==> InLog(e.cells[pc.k], Logs(pc, log)))
  {
    hide StepPc, After, Promised, InLog, Logs;
    var left, e := After(cells[pc.k], pc.todo), StepPc(cells, pc, start);
    OwnerAfter(cells, pc, start);
    PromiseKept(cells, pc, start, log);
    if pc.todo[0].Release? {
      InLarger(left, e.cells[pc.k], log + Promised(pc.op, pc.todo), Logs(pc, log) + {});
      assert Logs(pc, log) + {} == Logs(pc, log);
    } else {
      InLarger(left, left, log + Promised(pc.op, pc.todo), Logs(pc, log) + Promised(pc.op, e.pc.todo));
      StaysOdd(cells, pc, start);
    }
  }

  lemma StaysOdd(cells: seq<Cell>, pc: Pc, start: Call)
    requires |cells| > 0 && InRange(pc, |cells|) && Knows(pc, cells) && pc.Owning? && !pc.todo[0].Release?
    ensures StepPc(cells, pc, start).cells[pc.k].ver % 2 == 1
  {
    hide Home, Pos, BitOr, BitAnd, SlotOf;
  }

  /** What a step leaves the stepping thread with, and slot `k`. */
  lemma StepperFits(cells: seq<Cell>, pc: Pc, start: Call, log: set<(nat, Program)>, k: nat)
    requires |cells| > 0 && InRange(pc, |cells|) && Knows(pc, cells) && OwnerFits(pc, cells, log) && k < |cells|
    requires forall j :: 0 <= j < |cells| && cells[j].ver % 2 == 0 ==> InLog(cells[j], log)
    ensures var e := StepPc(cells, pc, start);
            && OwnerFits(e.pc, e.cells, Logs(pc, log))
            && (e.cells[k].ver % 2 == 0 && (Owns(pc, k) || e.cells[k] == cells[k]) ==> InLog(e.cells[k], Logs(pc, log)))
  {
    hide OwnerFits, StepPc, After, Promised;
    if pc.Owning? {
      OwnerStepFits(cells, pc, start, log);
    } else {
      TakerFits(cells, pc, start, log);
    }
  }

  lemma OtherFits(pc: Pc, cells: seq<Cell>, cells': seq<Cell>, log: set<(nat, Program)>, log': set<(nat, Program)>)
    requires OwnerFits(pc, cells, log) && log <= log' && |cells'| == |cells|
    requires forall k :: 0 <= k < |cells| && Owns(pc, k) ==> cells'[k] == cells[k]
    ensures OwnerFits(pc, cells', log')
  {
  }

  lemma StepKeepsConsistent(s: State, t: nat, start: Call)
    requires Inv(s) && Consistent(s) && t < |s.pcs|
    ensures Consistent(Step(s, t, start))
  {
    hide StepPc, Knows, InRange, InLog, OwnerFits;
    var pc, s' := s.pcs[t], Step(s, t, start);
    StepOwnership(s, t, start);
    forall k | 0 <= k < |s.cells|
      ensures s'.cells[k].ver % 2 == 0 ==> InLog(s'.cells[k], s'.log)
    {
      LocalStep(s.cells, pc, start, k);
      StepCells(s, t, start, k);
      StepperFits(s.cells, pc, start, s.log, k);
    }
    StepperFits(s.cells, pc, start, s.log, 0);
    forall u | 0 <= u < |s.pcs| && u != t
      ensures OwnerFits(s'.pcs[u], s'.cells, s'.log)
    {
      OtherFits(s.pcs[u], s.cells, s'.cells, s.log, s'.log);
    }
  }

  lemma {:induction false} RunIsConsistent(n: nat, threads: nat, run: seq<Choice>)
    requires n > 0 && InThreads(run, threads)
    ensures Consistent(RunState(n, threads, run))
  {
    hide Step, Inv;
    if run != [] {
      var before, c := run[..|run| - 1], run[|run| - 1];
      RunIsConsistent(n, threads, before);
      StepKeepsConsistent(RunState(n, threads, before), c.t, c.start);
    }
  }

  /** The step is a hit only with a program that some Put stored under that hash. */
  ghost predicate HitIsStored(n: nat, threads: nat, run: seq<Choice>, c: Choice)
    requires n > 0 && c.t < threads && InThreads(run, threads)
  {
    var s := RunState(n, threads, run);
    var pc, e := s.pcs[c.t], StepPc(s.cells, s.pcs[c.t], c.start);
    e.hit.Some? ==> pc.LoadProgram? && (pc.op.h, e.hit.value) in s.log
  }

  /** The word of the slot a Get is about to load from is the one it has seen. */
  ghost predicate Steady(pc: Pc, cells: seq<Cell>)
    requires |cells| > 0 && InRange(pc, |cells|)
  {
    pc.LoadProgram? ==> cells[SlotOf(pc.op, pc.i, |cells|)].ver == pc.v
  }

  lemma SteadyLoad(cells: seq<Cell>, pc: Pc, start: Call, log: set<(nat, Program)>)
    requires |cells| > 0 && InRange(pc, |cells|) && Knows(pc, cells) && Steady(pc, cells)
    requires forall k :: 0 <= k < |cells| && cells[k].ver % 2 == 0 ==> InLog(cells[k], log)
    ensures var e := StepPc(cells, pc, start);
            e.hit.Some? ==> pc.LoadProgram? && (pc.op.h, e.hit.value) in log
  {
    hide Home, Pos, BitOr, BitAnd;
  }

  /** Over every interleaving of all five calls, evictions and deletions included:
      a hit for a hash returns a program that some Put stored under that hash,
      unless the slot's word has moved since the Get's second check. */
  lemma SteadyHitIsStored(n: nat, threads: nat, run: seq<Choice>, c: Choice)
    requires n > 0 && c.t < threads && InThreads(run, threads)
    requires var s := RunState(n, threads, run); Steady(s.pcs[c.t], s.cells)
    ensures HitIsStored(n, threads, run, c)
  {
    hide RunState, StepPc, Steady, InRange, InLog, Knows, OwnerFits;
    RunIsConsistent(n, threads, run);
    var s := RunState(n, threads, run);
    assert Knows(s.pcs[c.t], s.cells);
    SteadyLoad(s.cells, s.pcs[c.t], c.start, s.log);
  }
}
