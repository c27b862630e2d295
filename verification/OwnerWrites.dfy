/** What the owner of a slot leaves there, whatever the other threads do (cache.go). */
module OwnerWrites {
  import opened Wrappers
  import opened Bits
  import opened ProgramCache
  import opened CacheRuns
  import opened SlotProtocol

  /** What a write does to the slot, the word aside; loading the tags stands for the
      write of them that follows. */
  function Wrote(c: Cell, w: Write): Cell {
    match w
    case SetHash(h) => c.(hash := h)
    case SetProg(p) => c.(prog := p)
    case LoadTags(mask) => c.(tags := BitOr(c.tags, mask))
    case SetTags(tags) => c.(tags := tags)
    case Release => c
  }

  /** The slot after its owner's remaining writes. */
  function After(c: Cell, todo: seq<Write>): Cell
    decreases |todo|
  {
    if todo == [] then c else After(Wrote(c, todo[0]), todo[1..])
  }

  lemma AfterCons(c: Cell, w: Write, rest: seq<Write>)
    ensures After(c, [w] + rest) == After(Wrote(c, w), rest)
  {
    assert ([w] + rest)[1..] == rest;
  }

  lemma AfterBoth(c: Cell, h: nat, p: Option<Program>, rest: seq<Write>)
    ensures After(c, [SetHash(h)] + ([SetProg(p)] + rest)) == After(c.(hash := h, prog := p), rest)
  {
    AfterCons(c, SetHash(h), [SetProg(p)] + rest);
    AfterCons(c.(hash := h), SetProg(p), rest);
  }

  lemma AfterRelease(c: Cell)
    ensures After(c, [Release]) == c
  {
    assert [Release][1..] == [];
  }

  /** All of an operation's writes together. */
  lemma AfterWrites(c: Cell, op: Call)
    ensures After(c, Writes(op)) ==
            match op
            case CallPut(h, p) => c.(hash := h, prog := Some(p))
            case CallGet(_) => c
            case CallSetTag(_, mask) => c.(tags := BitOr(c.tags, mask))
            case CallDelete(_) => c.(hash := 0, prog := None)
            case CallInvalidate(_) => c.(hash := 0, prog := None, tags := 0)
  {
    match op {
      case CallPut(h, p) =>
        assert Writes(op) == [SetHash(h)] + ([SetProg(Some(p))] + [Release]);
        AfterBoth(c, h, Some(p), [Release]);
        AfterRelease(c.(hash := h, prog := Some(p)));
      case CallDelete(_) =>
        assert Writes(op) == [SetHash(0)] + ([SetProg(None)] + [Release]);
        AfterBoth(c, 0, None, [Release]);
        AfterRelease(c.(hash := 0, prog := None));
      case CallInvalidate(_) =>
        assert Writes(op) == [SetHash(0)] + ([SetProg(None)] + ([SetTags(0)] + [Release]));
        AfterBoth(c, 0, None, [SetTags(0)] + [Release]);
        AfterCons(c.(hash := 0, prog := None), SetTags(0), [Release]);
        AfterRelease(c.(hash := 0, prog := None, tags := 0));
      case CallSetTag(_, mask) =>
        assert Writes(op) == [LoadTags(mask)] + [Release];
        AfterCons(c, LoadTags(mask), [Release]);
        AfterRelease(c.(tags := BitOr(c.tags, mask)));
      case CallGet(_) => AfterRelease(c);
    }
  }

  /** A step of an owner changes nothing about what it will leave, and its release
      leaves it. */
  lemma OwnerAfter(cells: seq<Cell>, pc: Pc, start: Call)
    requires |cells| > 0 && InRange(pc, |cells|) && Knows(pc, cells) && pc.Owning?
    ensures var e := StepPc(cells, pc, start);
            var left := After(cells[pc.k], pc.todo);
            if pc.todo[0].Release? then
              pc.todo == [Release] && !e.pc.Owning? && e.cells[pc.k] == left.(ver := pc.v + 2)
            else e.pc.Owning? && e.pc.op == pc.op && e.pc.k == pc.k && After(e.cells[pc.k], e.pc.todo) == left
  {
    hide Home, Pos, BitOr, BitAnd, SlotOf;
    var c, todo := cells[pc.k], pc.todo;
    var w, rest := todo[0], todo[1..];
    assert todo == [w] + rest;
    AfterCons(c, w, rest);
    if w.Release? {
      AfterRelease(c);
    } else {
      assert rest != [];
      if w.LoadTags? {
        AfterCons(c, SetTags(BitOr(c.tags, w.mask)), rest);
      }
    }
  }

  // ------------------------------------------------------------------------
  // What each operation leaves
  // ------------------------------------------------------------------------

  /** The tags carry every bit of the mask. */
  ghost predicate Carries(tags: nat, mask: nat) {
    forall bit :: BitAnd(mask, bit) != 0 ==> BitAnd(tags, bit) != 0
  }

  /** The slot is as the operation is to leave it. */
  ghost predicate Left(op: Call, c: Cell) {
    match op
    case CallPut(h, p) => c.hash == h && c.prog == Some(p)
    case CallGet(_) => true
    case CallSetTag(h, mask) => c.hash == h && Carries(c.tags, mask)
    case CallDelete(_) => c.hash == 0 && c.prog == None
    case CallInvalidate(_) => c.hash == 0 && c.prog == None && c.tags == 0
  }

  ghost predicate OwnerLeaves(pc: Pc, cells: seq<Cell>) {
    pc.Owning? && pc.k < |cells| ==> Left(pc.op, After(cells[pc.k], pc.todo))
  }

  lemma OrCarries(tags: nat, mask: nat)
    ensures Carries(BitOr(tags, mask), mask)
  {
    hide BitAnd, BitOr;
    forall bit | BitAnd(mask, bit) != 0
      ensures BitAnd(BitOr(tags, mask), bit) != 0
    {
      AndOfOr(tags, mask, bit);
    }
  }

  /** A thread that takes a slot will leave it as its operation should. */
  lemma TakerLeaves(cells: seq<Cell>, pc: Pc, start: Call)
    requires |cells| > 0 && InRange(pc, |cells|) && Knows(pc, cells) && !pc.Owning?
    ensures var e := StepPc(cells, pc, start); OwnerLeaves(e.pc, e.cells)
  {
    hide Home, Pos, BitOr, BitAnd, After, Writes, Carries;
    var e := StepPc(cells, pc, start);
    if e.pc.Owning? {
      var c := e.cells[e.pc.k];
      AfterWrites(c, e.pc.op);
      if e.pc.op.CallSetTag? {
        OrCarries(c.tags, e.pc.op.mask);
      }
    }
  }

  lemma StepperLeaves(cells: seq<Cell>, pc: Pc, start: Call)
    requires |cells| > 0 && InRange(pc, |cells|) && Knows(pc, cells) && OwnerLeaves(pc, cells)
    ensures var e := StepPc(cells, pc, start); OwnerLeaves(e.pc, e.cells)
  {
    hide StepPc, Left, After;
    if pc.Owning? {
      OwnerAfter(cells, pc, start);
    } else {
      TakerLeaves(cells, pc, start);
    }
  }

  ghost predicate AllLeave(s: State) {
    forall t :: 0 <= t < |s.pcs| ==> OwnerLeaves(s.pcs[t], s.cells)
  }

  lemma StepKeepsLeaving(s: State, t: nat, start: Call)
    requires Inv(s) && AllLeave(s) && t < |s.pcs|
    ensures AllLeave(Step(s, t, start))
  {
    hide StepPc, Knows, InRange, Left, After;
    var s' := Step(s, t, start);
    StepOwnership(s, t, start);
    StepperLeaves(s.cells, s.pcs[t], start);
    forall u | 0 <= u < |s.pcs| && u != t
      ensures OwnerLeaves(s'.pcs[u], s'.cells)
    {
      assert OwnerLeaves(s.pcs[u], s.cells);
    }
  }

  lemma {:induction false} RunLeaves(n: nat, threads: nat, run: seq<Choice>)
    requires n > 0 && InThreads(run, threads)
    ensures AllLeave(RunState(n, threads, run))
  {
    hide Step, Inv;
    if run != [] {
      var before, c := run[..|run| - 1], run[|run| - 1];
      RunLeaves(n, threads, before);
      StepKeepsLeaving(RunState(n, threads, before), c.t, c.start);
    }
  }

  /** Over every interleaving: when an operation releases the slot it owns, the slot is
      as the operation is to leave it, with an even word. A Delete and an
      invalidation leave no hash and no program. */
  lemma ReleaseLeaves(n: nat, threads: nat, run: seq<Choice>, c: Choice)
    requires n > 0 && c.t < threads && InThreads(run, threads)
    requires var pc := RunState(n, threads, run).pcs[c.t]; pc.Owning? && pc.todo != [] && pc.todo[0] == Release
    ensures var s := RunState(n, threads, run);
            var pc, s' := s.pcs[c.t], Step(s, c.t, c.start);
            pc.k < |s'.cells| && s'.cells[pc.k].ver % 2 == 0 && Left(pc.op, s'.cells[pc.k])
  {
    hide RunState, StepPc, Left, Knows, InRange, OwnerLeaves, OwnerTodo;
    RunLeaves(n, threads, run);
    var s := RunState(n, threads, run);
    assert Knows(s.pcs[c.t], s.cells);
    LeavesNow(s.cells, s.pcs[c.t], c.start);
  }

  lemma LeavesNow(cells: seq<Cell>, pc: Pc, start: Call)
    requires |cells| > 0 && InRange(pc, |cells|) && Knows(pc, cells) && OwnerLeaves(pc, cells)
    requires pc.Owning? && pc.todo != [] && pc.todo[0] == Release
    ensures var e := StepPc(cells, pc, start);
            pc.k < |e.cells| && e.cells[pc.k].ver % 2 == 0 && Left(pc.op, e.cells[pc.k])
  {
    hide StepPc, After, Carries;
    OwnerAfter(cells, pc, start);
  }
}
