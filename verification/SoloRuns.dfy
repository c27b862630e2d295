/** One call with no other in between does to the slots what the table operation of the
    same name does (cache.go). */
module SoloRuns {
  import opened Wrappers
  import opened Bits
  import opened ProgramCache
  import opened CacheRuns
  import opened SlotProtocol
  import opened OwnerWrites

  /** A thread at `pc` that moves alone comes to the end of its call, within `steps`
      steps, with these slots and this hit. */
  ghost predicate Ends(cells: seq<Cell>, pc: Pc, op: Call, cells': seq<Cell>, hit: Option<Program>, steps: nat)
    decreases steps
  {
    && steps > 0 && |cells| > 0 && InRange(pc, |cells|)
    && var e := StepPc(cells, pc, op);
       if e.pc.Idle? then e.cells == cells' && e.hit == hit else Ends(e.cells, e.pc, op, cells', hit, steps - 1)
  }

  ghost predicate Alone(cells: seq<Cell>, pc: Pc, op: Call, cells': seq<Cell>, hit: Option<Program>) {
    exists steps: nat :: Ends(cells, pc, op, cells', hit, steps)
  }

  /** From where a step has led: the call is over, or goes on. */
  ghost predicate GoesTo(cells: seq<Cell>, pc: Pc, op: Call, cells': seq<Cell>, hit: Option<Program>) {
    if pc.Idle? then cells == cells' && hit == None else Alone(cells, pc, op, cells', hit)
  }

  lemma StepBack(cells: seq<Cell>, pc: Pc, op: Call, cells': seq<Cell>, hit: Option<Program>)
    requires |cells| > 0 && InRange(pc, |cells|)
    requires var e := StepPc(cells, pc, op); e.hit == None && GoesTo(e.cells, e.pc, op, cells', hit)
    ensures Alone(cells, pc, op, cells', hit)
  {
    hide StepPc, InRange;
    var e := StepPc(cells, pc, op);
    if e.pc.Idle? {
      assert Ends(cells, pc, op, cells', hit, 1);
    } else {
      var steps: nat :| Ends(e.cells, e.pc, op, cells', hit, steps);
      assert Ends(cells, pc, op, cells', hit, steps + 1);
    }
  }

  // ------------------------------------------------------------------------
  // Owning a slot
  // ------------------------------------------------------------------------

  /** The slot after the whole operation. */
  function Changed(op: Call, c: Cell): Cell {
    After(c, Writes(op)).(ver := c.ver + 2)
  }

  lemma OwnerOnly(cells: seq<Cell>, pc: Pc, start: Call, left: Cell)
    requires |cells| > 0 && InRange(pc, |cells|) && pc.Owning?
    ensures var e := StepPc(cells, pc, start);
            && |e.cells| == |cells| && e.cells[pc.k := left] == cells[pc.k := left]
            && e.hit == None
            && (pc.todo[0].Release? ==> e.pc == if pc.op.CallInvalidate? then Advance(pc.op, pc.i, |cells|) else Idle)
            && (e.pc.Owning? ==> e.pc.i == pc.i && e.pc.k == pc.k && e.pc.v == pc.v && e.pc.op == pc.op)
  {
    hide Home, Pos, BitOr, BitAnd, SlotOf;
  }

  function Load(w: Write): nat {
    if w.LoadTags? then 1 else 0
  }

  lemma TodoShrinks(cells: seq<Cell>, pc: Pc, start: Call)
    requires |cells| > 0 && InRange(pc, |cells|) && pc.Owning?
    ensures var e := StepPc(cells, pc, start);
            e.pc.Owning? ==>
              e.pc.todo != [] && 2 * |e.pc.todo| + Load(e.pc.todo[0]) < 2 * |pc.todo| + Load(pc.todo[0])
  {
    hide Home, Pos, BitOr, BitAnd, SlotOf;
  }

  /** An owner left alone makes all its writes and goes on. */
  lemma {:induction false} OwnerAlone(cells: seq<Cell>, pc: Pc, op: Call, cells': seq<Cell>, hit: Option<Program>)
    requires |cells| > 0 && InRange(pc, |cells|) && Knows(pc, cells) && pc.Owning?
    requires var next := if pc.op.CallInvalidate? then Advance(pc.op, pc.i, |cells|) else Idle;
             GoesTo(cells[pc.k := After(cells[pc.k], pc.todo).(ver := pc.v + 2)], next, op, cells', hit)
    ensures Alone(cells, pc, op, cells', hit)
    decreases 2 * |pc.todo| + Load(pc.todo[0])
  {
    hide StepPc, Alone, After, Advance;
    var left := After(cells[pc.k], pc.todo).(ver := pc.v + 2);
    var e := StepPc(cells, pc, op);
    OwnerAfter(cells, pc, op);
    OwnerOnly(cells, pc, op, left);
    StepperKnows(cells, pc, op);
    if pc.todo[0].Release? {
      assert e.cells == e.cells[pc.k := left];
    } else {
      TodoShrinks(cells, pc, op);
      OwnerAlone(e.cells, e.pc, op, cells', hit);
    }
    StepBack(cells, pc, op, cells', hit);
  }

  /** Where a call goes on after it has had a slot. */
  function Next(op: Call, i: nat, n: nat): Pc {
    if op.CallInvalidate? then Advance(op, i, n) else Idle
  }

  lemma WritesFitTodo(op: Call)
    ensures OwnerTodo(Writes(op)) && Writes(op) != []
  {
  }

  lemma TakenAlone(cells: seq<Cell>, op: Call, i: nat, k: nat, cells': seq<Cell>, hit: Option<Program>)
    requires k < |cells| && i < |cells| && cells[k].ver % 2 == 0
    requires GoesTo(cells[k := Changed(op, cells[k])], Next(op, i, |cells|), op, cells', hit)
    ensures var c := cells[k];
            Alone(cells[k := c.(ver := c.ver + 1)], Owning(op, i, k, c.ver, Writes(op)), op, cells', hit)
  {
    hide Alone, Advance, Writes, OwnerTodo;
    var c := cells[k];
    var taken := cells[k := c.(ver := c.ver + 1)];
    WritesFitTodo(op);
    AfterVer(c, taken[k], Writes(op));
    assert taken[k := Changed(op, c)] == cells[k := Changed(op, c)];
    OwnerAlone(taken, Owning(op, i, k, c.ver, Writes(op)), op, cells', hit);
  }

  /** The word does not matter to the other fields. */
  lemma {:induction false} AfterVer(c: Cell, c': Cell, todo: seq<Write>)
    requires c' == c.(ver := c'.ver)
    ensures After(c', todo) == After(c, todo).(ver := c'.ver)
    decreases |todo|
  {
    if todo != [] {
      AfterVer(Wrote(c, todo[0]), Wrote(c', todo[0]), todo[1..]);
    }
  }

  /** A call that writes takes a free slot that it wants. */
  lemma WantedAlone(cells: seq<Cell>, op: Call, i: nat, cells': seq<Cell>, hit: Option<Program>)
    requires i < |cells| && !op.CallGet?
    requires var k := SlotOf(op, i, |cells|);
             && cells[k].ver % 2 == 0 && Wants(op, Checked(op, cells[k]))
             && GoesTo(cells[k := Changed(op, cells[k])], Next(op, i, |cells|), op, cells', hit)
    ensures Alone(cells, LoadVer(op, i), op, cells', hit)
  {
    var k := SlotOf(op, i, |cells|);
    var v, seen := cells[k].ver, Checked(op, cells[k]);
    TakenAlone(cells, op, i, k, cells', hit);
    hide Alone, Next, Changed, SlotOf, Wants, Checked, Writes;
    StepBack(cells, TryCas(op, i, v, seen), op, cells', hit);
    StepBack(cells, LoadCheck(op, i, v), op, cells', hit);
    StepBack(cells, LoadVer(op, i), op, cells', hit);
  }

  /** A call goes past a free slot that it does not want. */
  lemma UnwantedAlone(cells: seq<Cell>, op: Call, i: nat, cells': seq<Cell>, hit: Option<Program>)
    requires i < |cells| && !op.CallGet?
    requires var k := SlotOf(op, i, |cells|); cells[k].ver % 2 == 0 && !Wants(op, Checked(op, cells[k]))
    requires GoesTo(cells, Advance(op, i, |cells|), op, cells', hit)
    ensures Alone(cells, LoadVer(op, i), op, cells', hit)
  {
    var k := SlotOf(op, i, |cells|);
    hide Alone, SlotOf, Wants, Checked;
    StepBack(cells, LoadCheck(op, i, cells[k].ver), op, cells', hit);
    StepBack(cells, LoadVer(op, i), op, cells', hit);
  }

  // ------------------------------------------------------------------------
  // The operations
  // ------------------------------------------------------------------------

  /** The slots of a table as the protocol sees them. */
  function CellOf(t: Table, k: nat): Cell
    requires t.Shape() && k < |t.slots|
  {
    Cell(t.slots[k].ver, t.slots[k].hash, t.slots[k].tagBits, t.programs[k])
  }

  ghost function CellsOf(t: Table): (cells: seq<Cell>)
    requires t.Shape()
    ensures |cells| == |t.slots|
  {
    seq(|t.slots|, k requires 0 <= k < |t.slots| && t.Shape() => CellOf(t, k))
  }

  /** No word is about to wrap. */
  ghost predicate SmallWords(t: Table) {
    forall k :: 0 <= k < |t.slots| ==> t.slots[k].ver + 2 < U64
  }

  function CallOf(op: Op): Call {
    match op
    case Put(h, p) => CallPut(h, p)
    case SetTag(h, mask) => CallSetTag(h, mask)
    case Delete(h) => CallDelete(h)
    case Invalidate(bit) => CallInvalidate(bit)
  }

  lemma StoreCells(t: Table, k: nat, h: nat, p: Program)
    requires t.Shape() && SmallWords(t) && k < |t.slots|
    ensures CellsOf(Store(t, k, h, p)) == CellsOf(t)[k := Changed(CallPut(h, p), CellsOf(t)[k])]
  {
    hide After, Writes;
    AfterWrites(CellsOf(t)[k], CallPut(h, p));
  }

  lemma {:induction false} PutAlone(t: Table, h: nat, p: Program, i: nat)
    requires t.Shape() && SmallWords(t) && i < |t.slots| && FindSlot(t.slots, h, i) == FindSlot(t.slots, h, 0)
    ensures Alone(CellsOf(t), LoadVer(CallPut(h, p), i), CallPut(h, p), CellsOf(PutTable(t, h, p)), None)
    decreases |t.slots| - i
  {
    hide Home, Pos, Alone, Changed, VictimFrom, Store;
    var n, op, cells, cells' := |t.slots|, CallPut(h, p), CellsOf(t), CellsOf(PutTable(t, h, p));
    var k := Pos(n, Home(h, n), i);
    if Probe(t.slots, h, i).hash == 0 || Probe(t.slots, h, i).hash == h {
      StoreCells(t, k, h, p);
      WantedAlone(cells, op, i, cells', None);
    } else {
      if i + 1 < n {
        PutAlone(t, h, p, i + 1);
      } else {
        ScanAlone(t, h, p, 0, 0, U63 - 1);
      }
      UnwantedAlone(cells, op, i, cells', None);
    }
  }

  lemma {:induction false} ScanAlone(t: Table, h: nat, p: Program, i: nat, best: nat, bestVer: nat)
    requires t.Shape() && SmallWords(t) && i < |t.slots| && best < |t.slots|
    requires VictimFrom(t.slots, i, best, bestVer) == Victim(t.slots)
    ensures Alone(CellsOf(t), ScanVer(CallPut(h, p), i, best, bestVer), CallPut(h, p),
                  CellsOf(Store(t, Victim(t.slots), h, p)), None)
    decreases |t.slots| - i
  {
    hide Alone, Victim, Store, Home, Pos;
    var op, cells, cells' := CallPut(h, p), CellsOf(t), CellsOf(Store(t, Victim(t.slots), h, p));
    var v := t.slots[i].ver;
    var best', bestVer' := if v < bestVer then i else best, if v < bestVer then v else bestVer;
    if i + 1 < |t.slots| {
      ScanAlone(t, h, p, i + 1, best', bestVer');
    } else {
      assert best' == Victim(t.slots);
      EvictAlone(t, h, p, best');
    }
    StepBack(cells, ScanVer(op, i, best, bestVer), op, cells', None);
  }

  lemma EvictAlone(t: Table, h: nat, p: Program, k: nat)
    requires t.Shape() && SmallWords(t) && k < |t.slots|
    ensures Alone(CellsOf(t), EvictLoad(CallPut(h, p), k), CallPut(h, p), CellsOf(Store(t, k, h, p)), None)
  {
    hide Alone, Store, Home, Pos, Changed, Writes;
    var op, cells, cells' := CallPut(h, p), CellsOf(t), CellsOf(Store(t, k, h, p));
    StoreCells(t, k, h, p);
    TakenAlone(cells, op, 0, k, cells', None);
    StepBack(cells, EvictCas(op, k, cells[k].ver), op, cells', None);
    StepBack(cells, EvictLoad(op, k), op, cells', None);
  }

  lemma TagCells(t: Table, k: nat, h: nat, mask: nat)
    requires t.Shape() && SmallWords(t) && k < |t.slots|
    ensures var s := t.slots[k];
            var t' := t.(slots := t.slots[k := s.(ver := NextVer(s.ver), tagBits := BitOr(s.tagBits, mask))]);
            t'.Shape() && CellsOf(t') == CellsOf(t)[k := Changed(CallSetTag(h, mask), CellsOf(t)[k])]
  {
    hide After, Writes, BitOr;
    AfterWrites(CellsOf(t)[k], CallSetTag(h, mask));
  }

  lemma {:induction false} TagAlone(t: Table, h: nat, mask: nat, i: nat)
    requires t.Shape() && SmallWords(t) && i < |t.slots| && FindHash(t.slots, h, i) == FindHash(t.slots, h, 0)
    ensures Alone(CellsOf(t), LoadVer(CallSetTag(h, mask), i), CallSetTag(h, mask), CellsOf(TagTable(t, h, mask)), None)
    decreases |t.slots| - i
  {
    hide Home, Pos, Alone, Changed, BitOr, NextVer;
    var n, op, cells, cells' := |t.slots|, CallSetTag(h, mask), CellsOf(t), CellsOf(TagTable(t, h, mask));
    var k := Pos(n, Home(h, n), i);
    if Probe(t.slots, h, i).hash == h {
      TagCells(t, k, h, mask);
      WantedAlone(cells, op, i, cells', None);
    } else {
      if i + 1 < n {
        TagAlone(t, h, mask, i + 1);
      }
      UnwantedAlone(cells, op, i, cells', None);
    }
  }

  lemma EmptyCells(t: Table, k: nat, op: Call)
    requires t.Shape() && SmallWords(t) && k < |t.slots| && (op.CallDelete? || op.CallInvalidate?)
    ensures var t' := Table(t.slots[k := Emptied(t.slots[k], op.CallInvalidate?)], t.programs[k := None]);
            t'.Shape() && CellsOf(t') == CellsOf(t)[k := Changed(op, CellsOf(t)[k])]
  {
    hide After, Writes;
    AfterWrites(CellsOf(t)[k], op);
  }

  lemma {:induction false} DeleteAlone(t: Table, h: nat, i: nat)
    requires t.Shape() && SmallWords(t) && i < |t.slots| && FindHash(t.slots, h, i) == FindHash(t.slots, h, 0)
    ensures Alone(CellsOf(t), LoadVer(CallDelete(h), i), CallDelete(h), CellsOf(DeleteTable(t, h)), None)
    decreases |t.slots| - i
  {
    hide Home, Pos, Alone, Changed, NextVer;
    var n, op, cells, cells' := |t.slots|, CallDelete(h), CellsOf(t), CellsOf(DeleteTable(t, h));
    var k := Pos(n, Home(h, n), i);
    if Probe(t.slots, h, i).hash == h {
      EmptyCells(t, k, op);
      WantedAlone(cells, op, i, cells', None);
    } else {
      if i + 1 < n {
        DeleteAlone(t, h, i + 1);
      }
      UnwantedAlone(cells, op, i, cells', None);
    }
  }

  /** The invalidation has dealt with the slots below `i`. */
  ghost function Partly(t: Table, bit: nat, i: nat): (cells: seq<Cell>)
    requires t.Shape()
    ensures |cells| == |t.slots|
  {
    seq(|t.slots|, k requires 0 <= k < |t.slots| && t.Shape() =>
      if k < i then CellOf(InvalidateTable(t, bit), k) else CellOf(t, k))
  }

  lemma NextPartly(t: Table, bit: nat, i: nat)
    requires t.Shape() && SmallWords(t) && i < |t.slots|
    ensures Partly(t, bit, i)[i] == CellOf(t, i)
    ensures Partly(t, bit, i + 1) ==
            if Tagged(t.slots[i], bit) then Partly(t, bit, i)[i := Changed(CallInvalidate(bit), CellOf(t, i))]
            else Partly(t, bit, i)
  {
    hide After, Writes, Tagged;
    AfterWrites(CellOf(t, i), CallInvalidate(bit));
  }

  lemma {:induction false} InvalidateAlone(t: Table, bit: nat, i: nat)
    requires t.Shape() && SmallWords(t) && i < |t.slots|
    ensures Alone(Partly(t, bit, i), LoadVer(CallInvalidate(bit), i), CallInvalidate(bit),
                  CellsOf(InvalidateTable(t, bit)), None)
    decreases |t.slots| - i
  {
    hide Alone, Changed, NextVer, BitAnd, InvalidateTable;
    var n, op, cells, cells' := |t.slots|, CallInvalidate(bit), Partly(t, bit, i), CellsOf(InvalidateTable(t, bit));
    NextPartly(t, bit, i);
    if i + 1 < n {
      InvalidateAlone(t, bit, i + 1);
    } else {
      assert Partly(t, bit, n) == cells';
    }
    if Tagged(t.slots[i], bit) {
      WantedAlone(cells, op, i, cells', None);
    } else {
      UnwantedAlone(cells, op, i, cells', None);
    }
  }

  /** One Put, SetTag, Delete or InvalidateTag alone does to the slots what the table
      operation does. */
  lemma CallAlone(t: Table, op: Op)
    requires t.Shape() && SmallWords(t) && |t.slots| > 0
    ensures Alone(CellsOf(t), Idle, CallOf(op), CellsOf(StepTable(t, op)), None)
  {
    match op {
      case Put(h, p) => PutAlone(t, h, p, 0);
      case SetTag(h, mask) => TagAlone(t, h, mask, 0);
      case Delete(h) => DeleteAlone(t, h, 0);
      case Invalidate(bit) =>
        assert Partly(t, bit, 0) == CellsOf(t);
        InvalidateAlone(t, bit, 0);
    }
    hide Alone, StepTable;
    StepBack(CellsOf(t), Idle, CallOf(op), CellsOf(StepTable(t, op)), None);
  }

  /** The last step of a Get that has found its hash. */
  lemma LoadEnds(cells: seq<Cell>, h: nat, i: nat, v: nat)
    requires i < |cells|
    ensures var op := CallGet(h);
            Alone(cells, LoadProgram(op, i, v), op, cells, cells[SlotOf(op, i, |cells|)].prog)
  {
    hide Home, Pos;
    var op := CallGet(h);
    assert Ends(cells, LoadProgram(op, i, v), op, cells, cells[SlotOf(op, i, |cells|)].prog, 1);
  }

  lemma {:induction false} GetAlone(t: Table, h: nat, i: nat)
    requires t.Shape() && i < |t.slots| && FindSlot(t.slots, h, i) == FindSlot(t.slots, h, 0)
    ensures Alone(CellsOf(t), LoadVer(CallGet(h), i), CallGet(h), CellsOf(t), GetTable(t, h))
    decreases |t.slots| - i
  {
    hide Home, Pos, Alone;
    var n, op, cells, hit := |t.slots|, CallGet(h), CellsOf(t), GetTable(t, h);
    var v, hash := cells[SlotOf(op, i, n)].ver, Probe(t.slots, h, i).hash;
    if hash == h && hash != 0 {
      LoadEnds(cells, h, i, v);
      StepBack(cells, ReloadVer(op, i, v), op, cells, hit);
    } else if hash != 0 && i + 1 < n {
      GetAlone(t, h, i + 1);
    }
    StepBack(cells, LoadCheck(op, i, v), op, cells, hit);
    StepBack(cells, LoadVer(op, i), op, cells, hit);
  }

  /** One Get alone finds what the table holds and changes nothing. */
  lemma LookupAlone(t: Table, h: nat)
    requires t.Shape() && |t.slots| > 0
    ensures Alone(CellsOf(t), Idle, CallGet(h), CellsOf(t), GetTable(t, h))
  {
    hide Alone, GetTable;
    GetAlone(t, h, 0);
    StepBack(CellsOf(t), Idle, CallGet(h), CellsOf(t), GetTable(t, h));
  }

  // ------------------------------------------------------------------------
  // Calls one after the other
  // ------------------------------------------------------------------------

  /** A call that comes to its end alone does so in a run of the system. */
  lemma {:induction false} AloneRuns(n: nat, run: seq<Choice>, op: Call, cells': seq<Cell>, hit: Option<Program>,
                                     steps: nat) returns (run': seq<Choice>)
    requires n > 0 && InThreads(run, 1)
    requires var s := RunState(n, 1, run); Ends(s.cells, s.pcs[0], op, cells', hit, steps)
    ensures InThreads(run', 1)
    ensures RunState(n, 1, run').cells == cells' && RunState(n, 1, run').pcs == [Idle]
    decreases steps
  {
    hide StepPc, InRange;
    run' := run + [Choice(0, op)];
    assert run'[..|run|] == run;
    var s, s' := RunState(n, 1, run), RunState(n, 1, run');
    assert s'.pcs == [StepPc(s.cells, s.pcs[0], op).pc];
    if !s'.pcs[0].Idle? {
      run' := AloneRuns(n, run', op, cells', hit, steps - 1);
    }
  }

  /** Calls that do not overlap: the slots are those of the table after the same
      operations. */
  lemma {:induction false} SequentialRun(n: nat, ops: seq<Op>) returns (run: seq<Choice>)
    requires n > 0 && 2 * |ops| < U64
    ensures InThreads(run, 1)
    ensures RunState(n, 1, run).cells == CellsOf(RunTable(n, ops)) && RunState(n, 1, run).pcs == [Idle]
  {
    if ops == [] {
      run := [];
      assert Start(n, 1).cells == CellsOf(EmptyTable(n));
    } else {
      hide StepTable, RunState, Ends;
      var before := ops[..|ops| - 1];
      run := SequentialRun(n, before);
      var t, op := RunTable(n, before), ops[|ops| - 1];
      forall k | 0 <= k < n
        ensures t.slots[k].ver + 2 < U64
      {
        WordIsTouches(n, before, k);
      }
      CallAlone(t, op);
      var steps: nat :| Ends(CellsOf(t), Idle, CallOf(op), CellsOf(StepTable(t, op)), None, steps);
      run := AloneRuns(n, run, CallOf(op), CellsOf(StepTable(t, op)), None, steps);
    }
  }
}
