/** The program cache with many callers (cache.go): a transition system whose
    steps are the atomic operations on a slot's sequence word, hash, tags and
    program. A run is any sequence of (thread, operation) choices. The sequence
    word is unbounded here: a run of 2^63 writes to one slot is not considered. */
module SlotProtocol {
  import opened Wrappers
  import opened Bits
  import opened ProgramCache

  /** All atomics of one slot. */
  datatype Cell = Cell(ver: nat, hash: nat, tags: nat, prog: Option<Program>)

  datatype Call =
    | CallPut(h: nat, p: Program)
    | CallGet(h: nat)
    | CallSetTag(h: nat, mask: nat)
    | CallDelete(h: nat)
    | CallInvalidate(bit: nat)

  /** What the owner of a slot still has to store. */
  datatype Write =
    | SetHash(h: nat)
    | SetProg(p: Option<Program>)
    | LoadTags(mask: nat)
    | SetTags(tags: nat)
    | Release

  /** Where a thread is; each constructor but Idle names the next atomic step. */
  datatype Pc =
    | Idle
    | LoadVer(op: Call, i: nat)
    | LoadCheck(op: Call, i: nat, v: nat)
    | TryCas(op: Call, i: nat, v: nat, seen: nat)
    | ReloadVer(op: Call, i: nat, v: nat)
    | LoadProgram(op: Call, i: nat, v: nat)
    | ScanVer(op: Call, i: nat, best: nat, bestVer: nat)
    | EvictLoad(op: Call, k: nat)
    | EvictCas(op: Call, k: nat, v: nat)
    | Owning(op: Call, i: nat, k: nat, v: nat, todo: seq<Write>)

  /** `log` holds every (hash, program) pair that some Put has stored. */
  datatype State = State(cells: seq<Cell>, pcs: seq<Pc>, log: set<(nat, Program)>)

  /** The slot an operation looks at in its i-th step. */
  function SlotOf(op: Call, i: nat, n: nat): (k: nat)
    requires i < n
    ensures k < n
  {
    match op
    case CallInvalidate(_) => i
    case _ => Pos(n, Home(op.h, n), i)
  }

  /** Go on to the next slot; after the last, Put evicts and the others return. */
  function Advance(op: Call, i: nat, n: nat): Pc {
    if i + 1 < n then LoadVer(op, i + 1)
    else match op case CallPut(_, _) => ScanVer(op, 0, 0, U63 - 1) case _ => Idle
  }

  /** What an operation stores once it owns a slot. */
  function Writes(op: Call): seq<Write> {
    match op
    case CallPut(h, p) => [SetHash(h), SetProg(Some(p)), Release]
    case CallGet(_) => [Release]
    case CallSetTag(_, mask) => [LoadTags(mask), Release]
    case CallDelete(_) => [SetHash(0), SetProg(None), Release]
    case CallInvalidate(_) => [SetHash(0), SetProg(None), SetTags(0), Release]
  }

  /** Whether the operation wants the slot whose hash (or tags) it has read. */
  function Wants(op: Call, seen: nat): bool {
    match op
    case CallPut(h, _) => seen == 0 || seen == h
    case CallInvalidate(bit) => BitAnd(seen, bit) != 0
    case _ => seen == op.h
  }

  /** What the operation checks: the hash, or the tags for an invalidation. */
  function Checked(op: Call, c: Cell): nat {
    if op.CallInvalidate? then c.tags else c.hash
  }

  /** The indices a thread holds are slots. */
  ghost predicate InRange(pc: Pc, n: nat) {
    match pc
    case Idle => true
    case LoadVer(_, i) => i < n
    case LoadCheck(_, i, _) => i < n
    case TryCas(op, i, _, _) => i < n && !op.CallGet?
    case ReloadVer(op, i, _) => i < n && op.CallGet?
    case LoadProgram(op, i, _) => i < n && op.CallGet?
    case ScanVer(op, i, best, _) => i < n && best < n && op.CallPut?
    case EvictLoad(op, k) => k < n && op.CallPut?
    case EvictCas(op, k, _) => k < n && op.CallPut?
    case Owning(op, i, k, _, todo) => k < n && i < n && todo != []
  }

  ghost predicate Shape(s: State) {
    |s.cells| > 0 && forall t :: 0 <= t < |s.pcs| ==> InRange(s.pcs[t], |s.cells|)
  }

  datatype Effect = Effect(cells: seq<Cell>, pc: Pc, hit: Option<Program>)

  /** One atomic step of a thread at `pc`; an idle thread calls `start`. */
  ghost function StepPc(cells: seq<Cell>, pc: Pc, start: Call): (e: Effect)
    requires |cells| > 0 && InRange(pc, |cells|)
    ensures |e.cells| == |cells|
  {
    var n := |cells|;
    match pc
    case Idle => Effect(cells, LoadVer(start, 0), None)
    case LoadVer(op, i) =>
      var v := cells[SlotOf(op, i, n)].ver;
      if v % 2 == 0 then Effect(cells, LoadCheck(op, i, v), None)
      else if op.CallDelete? || op.CallInvalidate? then Effect(cells, pc, None)
      else Effect(cells, Advance(op, i, n), None)
    case LoadCheck(op, i, v) =>
      var seen := Checked(op, cells[SlotOf(op, i, n)]);
      if op.CallGet? then
        Effect(cells,
          if seen == 0 then Idle else if seen == op.h then ReloadVer(op, i, v) else Advance(op, i, n), None)
      else Effect(cells, if Wants(op, seen) then TryCas(op, i, v, seen) else Advance(op, i, n), None)
    case TryCas(op, i, v, _) => TakeSlot(cells, op, i, SlotOf(op, i, n), v, LoadVer(op, i))
    case ReloadVer(op, i, v) =>
      Effect(cells, if cells[SlotOf(op, i, n)].ver == v then LoadProgram(op, i, v) else Advance(op, i, n), None)
    case LoadProgram(op, i, _) => Effect(cells, Idle, cells[SlotOf(op, i, n)].prog)
    case ScanVer(op, i, best, bestVer) =>
      var v := cells[i].ver;
      var older := v % 2 == 0 && v < bestVer;
      var best', bestVer' := if older then i else best, if older then v else bestVer;
      Effect(cells, if i + 1 < n then ScanVer(op, i + 1, best', bestVer') else EvictLoad(op, best'), None)
    case EvictLoad(op, k) =>
      Effect(cells, if cells[k].ver % 2 == 0 then EvictCas(op, k, cells[k].ver) else pc, None)
    case EvictCas(op, k, v) => TakeSlot(cells, op, 0, k, v, EvictLoad(op, k))
    case Owning(op, i, k, v, todo) => StepOwner(cells, op, i, k, v, todo)
  }

  /** Compare-and-swap on the sequence word. */
  ghost function TakeSlot(cells: seq<Cell>, op: Call, i: nat, k: nat, v: nat, retry: Pc): (e: Effect)
    requires k < |cells|
    ensures |e.cells| == |cells|
  {
    if cells[k].ver == v then
      Effect(cells[k := cells[k].(ver := v + 1)], Owning(op, i, k, v, Writes(op)), None)
    else Effect(cells, retry, None)
  }

  ghost function StepOwner(cells: seq<Cell>, op: Call, i: nat, k: nat, v: nat, todo: seq<Write>): (e: Effect)
    requires k < |cells| && i < |cells| && todo != []
    ensures |e.cells| == |cells|
  {
    var c, rest := cells[k], todo[1..];
    var next := if rest == [] then Idle else Owning(op, i, k, v, rest);
    match todo[0]
    case SetHash(h) => Effect(cells[k := c.(hash := h)], next, None)
    case SetProg(p) => Effect(cells[k := c.(prog := p)], next, None)
    case LoadTags(mask) => Effect(cells, Owning(op, i, k, v, [SetTags(BitOr(c.tags, mask))] + rest), None)
    case SetTags(tags) => Effect(cells[k := c.(tags := tags)], next, None)
    case Release =>
      Effect(cells[k := c.(ver := v + 2)],
             if op.CallInvalidate? then Advance(op, i, |cells|) else Idle, None)
  }

  /** Thread `t` takes one step. */
  ghost function Step(s: State, t: nat, start: Call): (s': State)
    requires Shape(s) && t < |s.pcs|
    ensures |s'.cells| == |s.cells| && |s'.pcs| == |s.pcs| && s.log <= s'.log
  {
    var e := StepPc(s.cells, s.pcs[t], start);
    State(e.cells, s.pcs[t := e.pc], Logs(s.pcs[t], s.log))
  }

  /** A Put has stored its program once it has set it. */
  function Logs(pc: Pc, log: set<(nat, Program)>): set<(nat, Program)> {
    if pc.Owning? && pc.op.CallPut? && pc.todo != [] && pc.todo[0].SetProg? then log + {(pc.op.h, pc.op.p)} else log
  }

  ghost function Start(n: nat, threads: nat): State {
    State(seq(n, _ => Cell(0, 0, 0, None)), seq(threads, _ => Idle), {})
  }

  // ------------------------------------------------------------------------
  // Ownership
  // ------------------------------------------------------------------------

  /** Thread state `pc` owns slot `k`. */
  predicate Owns(pc: Pc, k: nat) {
    pc.Owning? && pc.k == k
  }

  /** What a thread knows of the slot it is looking at. */
  ghost predicate Knows(pc: Pc, cells: seq<Cell>)
    requires InRange(pc, |cells|)
  {
    var n := |cells|;
    match pc
    case LoadCheck(op, i, v) => v % 2 == 0 && v <= cells[SlotOf(op, i, n)].ver
    case TryCas(op, i, v, seen) =>
      var c := cells[SlotOf(op, i, n)];
      v % 2 == 0 && v <= c.ver && Wants(op, seen) && (c.ver == v ==> Checked(op, c) == seen)
    case ReloadVer(op, i, v) => HashRead(op, v, cells[SlotOf(op, i, n)])
    case LoadProgram(op, i, v) => HashRead(op, v, cells[SlotOf(op, i, n)])
    case EvictCas(_, k, v) => v % 2 == 0 && v <= cells[k].ver
    case Owning(_, _, k, v, todo) => v % 2 == 0 && cells[k].ver == v + 1 && OwnerTodo(todo)
    case _ => true
  }

  /** A Get has read its hash: it is there unless the word has moved on. */
  predicate HashRead(op: Call, v: nat, c: Cell)
    requires !op.CallInvalidate?
  {
    v % 2 == 0 && v <= c.ver && (c.ver == v ==> c.hash == op.h)
  }

  /** A release comes last. */
  predicate OwnerTodo(todo: seq<Write>) {
    todo != [] && todo[|todo| - 1] == Release && forall j :: 0 <= j < |todo| - 1 ==> todo[j] != Release
  }

  /** Each slot's sequence word is odd exactly while one thread owns it. */
  ghost predicate Inv(s: State) {
    && Shape(s)
    && (forall t :: 0 <= t < |s.pcs| ==> Knows(s.pcs[t], s.cells))
    && (forall k :: 0 <= k < |s.cells| && s.cells[k].ver % 2 == 1 ==> exists t :: 0 <= t < |s.pcs| && Owns(s.pcs[t], k))
    && (forall t, u, k :: 0 <= t < u < |s.pcs| && Owns(s.pcs[t], k) ==> !Owns(s.pcs[u], k))
  }

  /** How one step may change one slot. */
  ghost predicate CellStep(c: Cell, c': Cell, owned: bool) {
    && c.ver <= c'.ver
    && (!owned ==> c'.hash == c.hash && c'.tags == c.tags && c'.prog == c.prog)
    && (c'.ver != c.ver ==> c'.hash == c.hash && c'.tags == c.tags && c'.prog == c.prog)
    && (!owned && c'.ver != c.ver ==> c.ver % 2 == 0 && c'.ver == c.ver + 1)
    && (owned && c'.ver != c.ver ==> c'.ver == c.ver + 1)
  }

  /** A sequence word never decreases, and hash, tags and program change only in
      a step of the thread that owns the slot. */
  lemma StepCells(s: State, t: nat, start: Call, k: nat)
    requires Inv(s) && t < |s.pcs| && k < |s.cells|
    ensures CellStep(s.cells[k], Step(s, t, start).cells[k], Owns(s.pcs[t], k))
  {
    assert Knows(s.pcs[t], s.cells);
  }

  lemma OwnerRange(cells: seq<Cell>, pc: Pc, start: Call)
    requires |cells| > 0 && InRange(pc, |cells|) && Knows(pc, cells)
    ensures InRange(StepPc(cells, pc, start).pc, |cells|)
  {
    hide Home, Pos, BitOr, BitAnd;
  }

  /** The stepping thread knows what it should about the slot it looks at next. */
  lemma StepperKnows(cells: seq<Cell>, pc: Pc, start: Call)
    requires |cells| > 0 && InRange(pc, |cells|) && Knows(pc, cells)
    ensures var e := StepPc(cells, pc, start);
            InRange(e.pc, |cells|) && Knows(e.pc, e.cells)
  {
    hide Home, Pos, BitOr, BitAnd;
    OwnerRange(cells, pc, start);
    if pc.Owning? {
      OwnerKnows(cells, pc);
    }
  }

  lemma OwnerKnows(cells: seq<Cell>, pc: Pc)
    requires pc.Owning? && InRange(pc, |cells|) && Knows(pc, cells)
    ensures var e := StepOwner(cells, pc.op, pc.i, pc.k, pc.v, pc.todo);
            InRange(e.pc, |cells|) && Knows(e.pc, e.cells)
  {
    hide Home, Pos, BitOr, BitAnd;
    var todo := pc.todo;
    if |todo| == 1 {
      assert todo[0] == Release;
    } else {
      assert todo[1..][|todo| - 2] == Release;
    }
  }

  /** What the other threads know stays true. */
  lemma OthersKnow(pc: Pc, cells: seq<Cell>, cells': seq<Cell>)
    requires |cells'| == |cells| && InRange(pc, |cells|) && Knows(pc, cells)
    requires forall k :: 0 <= k < |cells| ==> cells[k].ver <= cells'[k].ver
    requires forall k :: 0 <= k < |cells| && cells[k].ver % 2 == 0 && cells'[k] != cells[k]
                         ==> cells[k].ver < cells'[k].ver
    requires forall k :: 0 <= k < |cells| && Owns(pc, k) ==> cells'[k] == cells[k]
    ensures Knows(pc, cells')
  {
    hide Home, Pos, BitOr, BitAnd;
  }

  lemma StepKeepsInv(s: State, t: nat, start: Call)
    requires Inv(s) && t < |s.pcs|
    ensures Inv(Step(s, t, start))
  {
    hide StepPc, Knows;
    var s' := Step(s, t, start);
    StepperKnows(s.cells, s.pcs[t], start);
    StepOwnership(s, t, start);
    forall u | 0 <= u < |s.pcs|
      ensures InRange(s'.pcs[u], |s'.cells|) && Knows(s'.pcs[u], s'.cells)
    {
      if u != t {
        assert Knows(s.pcs[u], s.cells);
        OthersKnow(s.pcs[u], s.cells, s'.cells);
      }
    }
  }

  /** What one step does to slot `k` and who owns it. */
  lemma LocalStep(cells: seq<Cell>, pc: Pc, start: Call, k: nat)
    requires |cells| > 0 && InRange(pc, |cells|) && Knows(pc, cells) && k < |cells|
    ensures var e := StepPc(cells, pc, start);
            && cells[k].ver <= e.cells[k].ver
            && (e.cells[k] != cells[k] && !Owns(pc, k) ==> cells[k].ver % 2 == 0 && cells[k].ver < e.cells[k].ver)
            && (Owns(e.pc, k) && !Owns(pc, k) ==> cells[k].ver % 2 == 0)
            && (Owns(pc, k) && !Owns(e.pc, k) ==> e.cells[k].ver % 2 == 0)
            && (!Owns(e.pc, k) && cells[k].ver % 2 == 0 ==> e.cells[k].ver % 2 == 0)
  {
    hide Home, Pos, BitOr, BitAnd;
  }

  /** Which slots change hands in a step, and what it does to the others. */
  lemma StepOwnership(s: State, t: nat, start: Call)
    requires Inv(s) && t < |s.pcs|
    ensures var s' := Step(s, t, start);
            && (forall k :: 0 <= k < |s.cells| ==> s.cells[k].ver <= s'.cells[k].ver)
            && (forall k :: 0 <= k < |s.cells| && s.cells[k].ver % 2 == 0 && s'.cells[k] != s.cells[k]
                  ==> s.cells[k].ver < s'.cells[k].ver)
            && (forall u, k :: 0 <= u < |s.pcs| && u != t && 0 <= k < |s.cells| && Owns(s.pcs[u], k)
                  ==> s'.cells[k] == s.cells[k] && !Owns(s'.pcs[t], k))
            && (forall k :: 0 <= k < |s.cells| && s'.cells[k].ver % 2 == 1
                  ==> exists u :: 0 <= u < |s.pcs| && Owns(s'.pcs[u], k))
  {
    hide StepPc;
    var s' := Step(s, t, start);
    forall k | 0 <= k < |s.cells|
      ensures s.cells[k].ver <= s'.cells[k].ver
      ensures s.cells[k].ver % 2 == 0 && s'.cells[k] != s.cells[k] ==> s.cells[k].ver < s'.cells[k].ver
    {
      LocalStep(s.cells, s.pcs[t], start, k);
      assert Knows(s.pcs[t], s.cells);
    }
    forall u, k | 0 <= u < |s.pcs| && u != t && 0 <= k < |s.cells| && Owns(s.pcs[u], k)
      ensures s'.cells[k] == s.cells[k] && !Owns(s'.pcs[t], k)
    {
      LocalStep(s.cells, s.pcs[t], start, k);
      assert Knows(s.pcs[u], s.cells);
      assert !Owns(s.pcs[t], k);
    }
    forall k | 0 <= k < |s.cells| && s'.cells[k].ver % 2 == 1
      ensures exists u :: 0 <= u < |s.pcs| && Owns(s'.pcs[u], k)
    {
      OwnerOfOdd(s, t, start, k);
    }
  }

  lemma OwnerOfOdd(s: State, t: nat, start: Call, k: nat)
    requires Inv(s) && t < |s.pcs| && k < |s.cells| && Step(s, t, start).cells[k].ver % 2 == 1
    ensures exists u :: 0 <= u < |s.pcs| && Owns(Step(s, t, start).pcs[u], k)
  {
    hide StepPc;
    var s' := Step(s, t, start);
    assert Knows(s.pcs[t], s.cells);
    LocalStep(s.cells, s.pcs[t], start, k);
    if !Owns(s'.pcs[t], k) {
      var u :| 0 <= u < |s.pcs| && Owns(s.pcs[u], k);
      assert Owns(s'.pcs[u], k);
    }
  }

  /** A compare-and-swap that succeeds proves the value read before it is still
      current. */
  lemma CasProvesRead(s: State, t: nat, start: Call)
    requires Inv(s) && t < |s.pcs| && s.pcs[t].TryCas?
    requires Step(s, t, start).pcs[t].Owning?
    ensures var pc, s' := s.pcs[t], Step(s, t, start);
            var k := SlotOf(pc.op, pc.i, |s.cells|);
            && Owns(s'.pcs[t], k)
            && Checked(pc.op, s.cells[k]) == Checked(pc.op, s'.cells[k]) == pc.seen
            && Wants(pc.op, pc.seen)
  {
    assert Knows(s.pcs[t], s.cells);
  }

  /** At a slot that is being written, a Delete or an invalidation waits; a Put, a Get
      or a SetTag goes past it. */
  lemma WaitsOrPasses(s: State, t: nat, start: Call)
    requires Shape(s) && t < |s.pcs| && s.pcs[t].LoadVer?
    requires s.cells[SlotOf(s.pcs[t].op, s.pcs[t].i, |s.cells|)].ver % 2 == 1
    ensures var pc, s' := s.pcs[t], Step(s, t, start);
            if pc.op.CallDelete? || pc.op.CallInvalidate? then s' == s
            else s'.cells == s.cells && s'.pcs[t] == Advance(pc.op, pc.i, |s.cells|)
  {
    hide SlotOf, Advance;
    assert s.pcs[t := s.pcs[t]] == s.pcs;
  }

  /** When the word has moved on, nothing is written: a swap is tried again from the load
      of the word, and a Get goes past the slot. */
  lemma MovedWordGoesBack(s: State, t: nat, start: Call)
    requires Shape(s) && t < |s.pcs|
    ensures var pc, s', n := s.pcs[t], Step(s, t, start), |s.cells|;
            match pc
            case TryCas(op, i, v, _) =>
              s.cells[SlotOf(op, i, n)].ver != v ==> s'.cells == s.cells && s'.pcs[t] == LoadVer(op, i)
            case EvictCas(op, k, v) => s.cells[k].ver != v ==> s'.cells == s.cells && s'.pcs[t] == EvictLoad(op, k)
            case ReloadVer(op, i, v) =>
              s.cells[SlotOf(op, i, n)].ver != v ==> s'.cells == s.cells && s'.pcs[t] == Advance(op, i, n)
            case _ => true
  {
    hide Home, Pos, Advance;
    assert InRange(s.pcs[t], |s.cells|);
  }

  // ------------------------------------------------------------------------
  // Runs
  // ------------------------------------------------------------------------

  /** Thread `t` moves; if it was idle it calls `start`. */
  datatype Choice = Choice(t: nat, start: Call)

  ghost predicate InThreads(run: seq<Choice>, threads: nat) {
    forall c :: c in run ==> c.t < threads
  }

  ghost function RunState(n: nat, threads: nat, run: seq<Choice>): (s: State)
    requires n > 0 && InThreads(run, threads)
    ensures Inv(s) && |s.cells| == n && |s.pcs| == threads
  {
    if run == [] then Start(n, threads)
    else
      var s, c := RunState(n, threads, run[..|run| - 1]), run[|run| - 1];
      StepKeepsInv(s, c.t, c.start);
      Step(s, c.t, c.start)
  }

  /** Over every interleaving: sequence words never decrease, each is odd exactly
      while one thread owns its slot, and the rest of a slot changes only in its
      owner's steps. */
  lemma RunIsSafe(n: nat, threads: nat, run: seq<Choice>, c: Choice, k: nat)
    requires n > 0 && c.t < threads && k < n && InThreads(run, threads)
    ensures var s, s' := RunState(n, threads, run), RunState(n, threads, run + [c]);
            && CellStep(s.cells[k], s'.cells[k], Owns(s.pcs[c.t], k))
            && (s.cells[k].ver % 2 == 1 <==> exists t :: 0 <= t < threads && Owns(s.pcs[t], k))
            && (forall t, u :: 0 <= t < threads && 0 <= u < threads && Owns(s.pcs[t], k) && Owns(s.pcs[u], k)
                               ==> t == u)
  {
    hide CellStep, Step, StepPc;
    var s := RunState(n, threads, run);
    assert (run + [c])[..|run|] == run;
    StepCells(s, c.t, c.start, k);
    forall t | 0 <= t < threads && Owns(s.pcs[t], k)
      ensures s.cells[k].ver % 2 == 1
    {
      assert Knows(s.pcs[t], s.cells);
    }
  }
}
