/** Fluent components (fluent.go): the middleware chain, and the rendering of
    trees of synchronous components that may succeed, fail or panic. */
module Fluent {
  import opened Wrappers
  import opened Sequences
  import opened Escaping
  import opened OutOfBand
  import opened ContextStack

  /** How a render function ends. */
  datatype Ending = Fine | Failed | Panicked

  /** A component with its render function, its error boundary, and the element
      it updates out of band ("" for none). */
  datatype Component = Component(body: Script, boundary: Option<Script>, oobID: string)

  /** What a render function does, one call after the other. */
  datatype Script = End(ending: Ending) | Then(cmd: Cmd, rest: Script)

  datatype Cmd =
    | Emit(bytes: string)
    | Provide(key: string, val: Option<string>)
    | EmitContext(key: string)
    | SetState
    | Nested(component: Component, propagate: bool)

  /** The writer at hand, the out-of-band sink and the context stack. */
  datatype World = World(main: string, sink: string, stack: seq<Binding>)

  datatype Result = Result(world: World, dirty: bool, ending: Ending)

  function Shown(val: Option<string>): string {
    match val case Some(bytes) => bytes case None => ""
  }

  // ------------------------------------------------------------------------
  // What rendering does
  // ------------------------------------------------------------------------

  /** `oob` says whether state changes make the frame dirty. */
  function RunScript(s: Script, oob: bool, dirty: bool, w: World): Result
    decreases s, 0
  {
    match s
    case End(ending) => Result(w, dirty, ending)
    case Then(Emit(bytes), rest) => RunScript(rest, oob, dirty, w.(main := w.main + bytes))
    case Then(Provide(key, val), rest) => RunScript(rest, oob, dirty, w.(stack := w.stack + [Binding(key, val)]))
    case Then(EmitContext(key), rest) => RunScript(rest, oob, dirty, w.(main := w.main + Shown(Lookup(w.stack, key))))
    case Then(SetState, rest) => RunScript(rest, oob, dirty || oob, w)
    case Then(Nested(component, propagate), rest) =>
      var r := RenderTo(component, w);
      if r.ending.Panicked? || (r.ending.Failed? && propagate) then Result(r.world, dirty, r.ending)
      else RunScript(rest, oob, dirty, r.world)
  }

  /** The boundary writes to the live writer; the page never sees it fail. */
  function RunBoundary(boundary: Script, oob: bool, w: World): World
    decreases boundary, 1
  {
    var r := RunScript(boundary, oob, false, w);
    if r.ending.Fine? then r.world else r.world.(main := r.world.main + PLACEHOLDER)
  }

  /** After the body has run into a buffer of its own: `r` is what came of it. */
  function Settle(c: Component, main: string, r: Result): Result {
    match r.ending
    case Panicked => Result(r.world.(main := main), false, Panicked)
    case Failed => Result(r.world.(main := main), false, Failed)
    case Fine =>
      if r.dirty then
        Result(World(main, r.world.sink + OobChunk(c.oobID, r.world.main), r.world.stack), false, Fine)
      else Result(r.world.(main := main + r.world.main), false, Fine)
  }

  /** Before the deferred pop of the context stack. */
  function RenderFrame(c: Component, w: World): Result
    decreases c, 2
  {
    if c.boundary.None? && c.oobID == "" then RunScript(c.body, false, false, w)
    else
      var r := RunScript(c.body, c.oobID != "", false, w.(main := ""));
      if r.ending.Panicked? && c.boundary.Some? then
        Result(RunBoundary(c.boundary.value, c.oobID != "", r.world.(main := w.main)), false, Fine)
      else Settle(c, w.main, r)
  }

  function RenderTo(c: Component, w: World): Result
    decreases c, 3
  {
    var r := RenderFrame(c, w);
    Result(r.world.(stack := PopTo(r.world.stack, |w.stack|)), false, r.ending)
  }

  // ------------------------------------------------------------------------
  // The stack
  // ------------------------------------------------------------------------

  /** A script only adds to the stack, whatever its ending. */
  lemma {:induction false} ScriptOnlyPushes(s: Script, oob: bool, dirty: bool, w: World)
    ensures w.stack <= RunScript(s, oob, dirty, w).world.stack
    decreases s, 0
  {
    match s
    case End(_) =>
    case Then(Emit(bytes), rest) => ScriptOnlyPushes(rest, oob, dirty, w.(main := w.main + bytes));
    case Then(Provide(key, val), rest) =>
      ScriptOnlyPushes(rest, oob, dirty, w.(stack := w.stack + [Binding(key, val)]));
    case Then(EmitContext(key), rest) =>
      ScriptOnlyPushes(rest, oob, dirty, w.(main := w.main + Shown(Lookup(w.stack, key))));
    case Then(SetState, rest) => ScriptOnlyPushes(rest, oob, dirty || oob, w);
    case Then(Nested(component, _), rest) =>
      StackIsRestored(component, w);
      ScriptOnlyPushes(rest, oob, dirty, RenderTo(component, w).world);
  }

  /** Rendering a component restores the stack it found: on success, on an error,
      on a panic, and when a boundary takes over. */
  lemma {:induction false} StackIsRestored(c: Component, w: World)
    ensures RenderTo(c, w).world.stack == w.stack
    decreases c, 1
  {
    ScriptOnlyPushes(c.body, c.oobID != "", false, w.(main := ""));
    ScriptOnlyPushes(c.body, false, false, w);
    var r := RunScript(c.body, c.oobID != "", false, w.(main := ""));
    if c.boundary.Some? {
      ScriptOnlyPushes(c.boundary.value, c.oobID != "", false, r.world.(main := w.main));
    }
    assert w.stack <= RenderFrame(c, w).world.stack;
  }

  // ------------------------------------------------------------------------
  // The output
  // ------------------------------------------------------------------------

  /** The same world after more output on both streams. */
  function After(main: string, sink: string, w: World): World {
    World(main + w.main, sink + w.sink, w.stack)
  }

  function ResultAfter(main: string, sink: string, r: Result): Result {
    r.(world := After(main, sink, r.world))
  }

  /** Scripts only append, and what they append does not depend on what was
      written before. */
  lemma {:induction false} ScriptAppends(s: Script, oob: bool, dirty: bool, w: World, main: string, sink: string)
    ensures RunScript(s, oob, dirty, After(main, sink, w)) == ResultAfter(main, sink, RunScript(s, oob, dirty, w))
    decreases s, 0
  {
    match s
    case End(_) =>
    case Then(Emit(bytes), rest) =>
      Assoc(main, w.main, bytes);
      ScriptAppends(rest, oob, dirty, w.(main := w.main + bytes), main, sink);
    case Then(Provide(key, val), rest) =>
      ScriptAppends(rest, oob, dirty, w.(stack := w.stack + [Binding(key, val)]), main, sink);
    case Then(EmitContext(key), rest) =>
      var bytes := Shown(Lookup(w.stack, key));
      Assoc(main, w.main, bytes);
      ScriptAppends(rest, oob, dirty, w.(main := w.main + bytes), main, sink);
    case Then(SetState, rest) => ScriptAppends(rest, oob, dirty || oob, w, main, sink);
    case Then(Nested(component, _), rest) =>
      ComponentAppends(component, w, main, sink);
      ScriptAppends(rest, oob, dirty, RenderTo(component, w).world, main, sink);
  }

  lemma {:induction false} ComponentAppends(c: Component, w: World, main: string, sink: string)
    ensures RenderTo(c, After(main, sink, w)) == ResultAfter(main, sink, RenderTo(c, w))
    decreases c, 1
  {
    var oob := c.oobID != "";
    var start := w.(main := "");
    var r := RunScript(c.body, oob, false, start);
    if c.boundary.None? && c.oobID == "" {
      ScriptAppends(c.body, false, false, w, main, sink);
    } else {
      ScriptAppends(c.body, oob, false, start, "", sink);
      assert After("", sink, start) == After(main, sink, w).(main := "");
      assert "" + r.world.main == r.world.main;
      if r.ending.Panicked? && c.boundary.Some? {
        var live := r.world.(main := w.main);
        ScriptAppends(c.boundary.value, oob, false, live, main, sink);
        Assoc(main, RunScript(c.boundary.value, oob, false, live).world.main, PLACEHOLDER);
      } else {
        SettleAppends(c, w.main, r, main, sink);
      }
    }
    assert RenderFrame(c, After(main, sink, w)).world == After(main, sink, RenderFrame(c, w).world);
    assert RenderFrame(c, After(main, sink, w)).ending == RenderFrame(c, w).ending;
  }

  lemma SettleAppends(c: Component, before: string, r: Result, main: string, sink: string)
    ensures Settle(c, main + before, ResultAfter("", sink, r)) == ResultAfter(main, sink, Settle(c, before, r))
  {
    assert "" + r.world.main == r.world.main;
    Assoc(main, before, r.world.main);
    Assoc(sink, r.world.sink, OobChunk(c.oobID, r.world.main));
  }

  /** The state-change flag changes neither output nor ending. */
  lemma {:induction false} FlagsDoNotShow(s: Script, oob: bool, dirty: bool, w: World)
    ensures RunScript(s, oob, dirty, w).world == RunScript(s, false, false, w).world
    ensures RunScript(s, oob, dirty, w).ending == RunScript(s, false, false, w).ending
    ensures !RunScript(s, false, false, w).dirty
    decreases s
  {
    match s
    case End(_) =>
    case Then(Emit(bytes), rest) => FlagsDoNotShow(rest, oob, dirty, w.(main := w.main + bytes));
    case Then(Provide(key, val), rest) =>
      FlagsDoNotShow(rest, oob, dirty, w.(stack := w.stack + [Binding(key, val)]));
    case Then(EmitContext(key), rest) =>
      FlagsDoNotShow(rest, oob, dirty, w.(main := w.main + Shown(Lookup(w.stack, key))));
    case Then(SetState, rest) => FlagsDoNotShow(rest, oob, dirty || oob, w);
    case Then(Nested(component, _), rest) => FlagsDoNotShow(rest, oob, dirty, RenderTo(component, w).world);
  }

  // ------------------------------------------------------------------------
  // Isolation of failures
  // ------------------------------------------------------------------------

  /** The component's body on a main stream of its own. */
  function BodyAlone(c: Component, w: World): Result {
    RunScript(c.body, c.oobID != "", false, World("", w.sink, w.stack))
  }

  /** The boundary on a main stream of its own, as the failed body left the rest:
      it still sees the bindings the body provided. */
  function BoundaryAlone(c: Component, w: World): Result
    requires c.boundary.Some?
  {
    var failed := BodyAlone(c, w).world;
    RunScript(c.boundary.value, c.oobID != "", false, World("", failed.sink, failed.stack))
  }

  /** The bytes that stand in for a component whose body panicked. */
  function Replacement(c: Component, w: World): string
    requires c.boundary.Some?
  {
    BoundaryAlone(c, w).world.main + if BoundaryAlone(c, w).ending.Fine? then "" else PLACEHOLDER
  }

  /** A component with a boundary never lets a panic out. When its body panics,
      the main stream gains the boundary's bytes, plus the placeholder if the
      boundary fails or panics in turn, and nothing the body wrote. */
  lemma PanicIsIsolated(c: Component, w: World)
    requires c.boundary.Some?
    ensures !RenderTo(c, w).ending.Panicked?
    ensures BodyAlone(c, w).ending.Panicked? ==>
              var world := World(w.main + Replacement(c, w), BoundaryAlone(c, w).world.sink, w.stack);
              RenderTo(c, w) == Result(world, false, Fine)
  {
    StackIsRestored(c, w);
    var r := BodyAlone(c, w);
    if r.ending.Panicked? {
      var alone := World("", r.world.sink, r.world.stack);
      ScriptAppends(c.boundary.value, c.oobID != "", false, alone, w.main, "");
      assert After(w.main, "", alone) == r.world.(main := w.main);
      var b := BoundaryAlone(c, w);
      assert After(w.main, "", b.world) == b.world.(main := w.main + b.world.main);
      Assoc(w.main, b.world.main, PLACEHOLDER);
      assert RenderFrame(c, w).world.main == w.main + Replacement(c, w);
    }
  }

  /** So a page goes on after a failed component just as if the component had
      been its replacement bytes. */
  lemma PageGoesOn(c: Component, propagate: bool, rest: Script, oob: bool, dirty: bool, w: World)
    requires c.boundary.Some? && BodyAlone(c, w).ending.Panicked?
    ensures RunScript(Then(Nested(c, propagate), rest), oob, dirty, w)
         == RunScript(Then(Emit(Replacement(c, w)), rest), oob, dirty, w.(sink := BoundaryAlone(c, w).world.sink))
  {
    PanicIsIsolated(c, w);
  }

  /** Without a boundary the panic goes on. The body's bytes stay out of the main
      stream only if the component has a buffer, and never reach the sink. */
  lemma PanicWithoutBoundary(c: Component, w: World)
    requires c.boundary.None? && BodyAlone(c, w).ending.Panicked?
    ensures var r := BodyAlone(c, w);
            var written := if c.oobID == "" then r.world.main else "";
            RenderTo(c, w) == Result(World(w.main + written, r.world.sink, w.stack), false, Panicked)
  {
    BodyFromHere(c, w);
    StackIsRestored(c, w);
    FlagsDoNotShow(c.body, c.oobID != "", false, World("", w.sink, w.stack));
    assert w.main + "" == w.main;
  }

  /** The body on the live stream: what it does alone, after what was there. */
  lemma BodyFromHere(c: Component, w: World)
    ensures RunScript(c.body, false, false, w).ending == BodyAlone(c, w).ending
    ensures RunScript(c.body, false, false, w).world
         == BodyAlone(c, w).world.(main := w.main + BodyAlone(c, w).world.main)
  {
    var alone := World("", w.sink, w.stack);
    ScriptAppends(c.body, false, false, alone, w.main, "");
    FlagsDoNotShow(c.body, c.oobID != "", false, alone);
    assert After(w.main, "", alone) == w;
    var r := RunScript(c.body, false, false, alone);
    assert After(w.main, "", r.world) == r.world.(main := w.main + r.world.main);
  }

  /** A clean success renders as if there were neither boundary nor buffer. */
  lemma CleanPassesThrough(c: Component, w: World)
    requires BodyAlone(c, w).ending.Fine? && !BodyAlone(c, w).dirty
    ensures RenderTo(c, w) == RenderTo(Component(c.body, None, ""), w)
    ensures var r := BodyAlone(c, w);
            RenderTo(c, w) == Result(World(w.main + r.world.main, r.world.sink, w.stack), false, Fine)
  {
    BodyFromHere(c, w);
    StackIsRestored(c, w);
  }

  /** A dirty success leaves the main stream alone and puts the body's bytes on
      the sink, wrapped once, after what nested components put there. */
  lemma DirtyGoesToSink(c: Component, w: World)
    requires BodyAlone(c, w).ending.Fine? && BodyAlone(c, w).dirty
    ensures var r := BodyAlone(c, w);
            var world := World(w.main, r.world.sink + OobChunk(c.oobID, r.world.main), w.stack);
            RenderTo(c, w) == Result(world, false, Fine)
  {
    StackIsRestored(c, w);
    FlagsDoNotShow(c.body, false, false, World("", w.sink, w.stack));
  }

  /** An error is passed on; a component with a boundary or a target writes nothing
      anywhere then, any other leaves the bytes it had written. The sink holds only
      what nested components put there. */
  lemma ErrorIsPassedOn(c: Component, w: World)
    requires BodyAlone(c, w).ending.Failed?
    ensures var r := BodyAlone(c, w);
            var written := if c.boundary.None? && c.oobID == "" then r.world.main else "";
            RenderTo(c, w) == Result(World(w.main + written, r.world.sink, w.stack), false, Failed)
  {
    BodyFromHere(c, w);
    StackIsRestored(c, w);
    FlagsDoNotShow(c.body, c.oobID != "", false, World("", w.sink, w.stack));
    assert w.main + "" == w.main;
  }

  // ------------------------------------------------------------------------
  // What the calls of a render function do
  // ------------------------------------------------------------------------

  /** First `s`, then, if it succeeds, `t`. */
  function Seq(s: Script, t: Script): Script {
    match s
    case End(ending) => if ending.Fine? then t else s
    case Then(cmd, rest) => Then(cmd, Seq(rest, t))
  }

  lemma {:induction false} SeqRuns(s: Script, t: Script, oob: bool, dirty: bool, w: World)
    ensures var r := RunScript(s, oob, dirty, w);
            RunScript(Seq(s, t), oob, dirty, w) == if r.ending.Fine? then RunScript(t, oob, r.dirty, r.world) else r
    decreases s
  {
    hide RenderTo;
    match s
    case End(_) =>
    case Then(Emit(bytes), rest) => SeqRuns(rest, t, oob, dirty, w.(main := w.main + bytes));
    case Then(Provide(key, val), rest) => SeqRuns(rest, t, oob, dirty, w.(stack := w.stack + [Binding(key, val)]));
    case Then(EmitContext(key), rest) =>
      SeqRuns(rest, t, oob, dirty, w.(main := w.main + Shown(Lookup(w.stack, key))));
    case Then(SetState, rest) => SeqRuns(rest, t, oob, dirty || oob, w);
    case Then(Nested(c, _), rest) => SeqRuns(rest, t, oob, dirty, RenderTo(c, w).world);
  }

  /** The render function provides the key itself. */
  predicate Provides(s: Script, key: string) {
    s.Then? && ((s.cmd.Provide? && s.cmd.key == key) || Provides(s.rest, key))
  }

  /** What others provide, nested components included, does not hide a key. */
  lemma {:induction false} KeyIsKept(s: Script, key: string, oob: bool, dirty: bool, w: World)
    requires !Provides(s, key)
    ensures Lookup(RunScript(s, oob, dirty, w).world.stack, key) == Lookup(w.stack, key)
    decreases s
  {
    hide RenderTo;
    match s
    case End(_) =>
    case Then(Emit(bytes), rest) => KeyIsKept(rest, key, oob, dirty, w.(main := w.main + bytes));
    case Then(Provide(k, val), rest) =>
      OtherKey(w.stack, Binding(k, val), key);
      KeyIsKept(rest, key, oob, dirty, w.(stack := w.stack + [Binding(k, val)]));
    case Then(EmitContext(k), rest) =>
      KeyIsKept(rest, key, oob, dirty, w.(main := w.main + Shown(Lookup(w.stack, k))));
    case Then(SetState, rest) => KeyIsKept(rest, key, oob, dirty || oob, w);
    case Then(Nested(c, _), rest) =>
      StackIsRestored(c, w);
      KeyIsKept(rest, key, oob, dirty, RenderTo(c, w).world);
  }

  lemma OtherKey(stack: seq<Binding>, b: Binding, key: string)
    requires b.key != key
    ensures Lookup(stack + [b], key) == Lookup(stack, key)
  {
    assert (stack + [b])[..|stack|] == stack;
  }

  /** A provided value is what a later read of its key writes, whatever has happened
      in between, as long as it was not provided again. */
  lemma ProvidedIsRead(key: string, val: Option<string>, between: Script, rest: Script,
                       oob: bool, dirty: bool, w: World)
    requires !Provides(between, key)
    requires RunScript(between, oob, dirty, w.(stack := w.stack + [Binding(key, val)])).ending.Fine?
    ensures var r := RunScript(between, oob, dirty, w.(stack := w.stack + [Binding(key, val)]));
            RunScript(Then(Provide(key, val), Seq(between, Then(EmitContext(key), rest))), oob, dirty, w)
            == RunScript(rest, oob, r.dirty,
                         r.world.(main := r.world.main + match val case Some(bytes) => bytes case None => ""))
  {
    var w' := w.(stack := w.stack + [Binding(key, val)]);
    SeqRuns(between, Then(EmitContext(key), rest), oob, dirty, w');
    KeyIsKept(between, key, oob, dirty, w');
    LookupFindsNearest(w.stack, Binding(key, val), []);
    assert w.stack + [Binding(key, val)] + [] == w'.stack;
  }

  lemma EndsAtOnce(oob: bool, w: World)
    ensures RunScript(End(Fine), oob, false, w) == Result(w, false, Fine)
  {
  }

  /** A nested component reads what the components around it have provided. */
  lemma ChildReads(key: string, below: seq<Binding>, val: Option<string>, above: seq<Binding>, w: World)
    requires w.stack == below + [Binding(key, val)] + above
    requires forall j :: 0 <= j < |above| ==> above[j].key != key
    ensures RenderTo(Component(Then(EmitContext(key), End(Fine)), None, ""), w)
            == Result(w.(main := w.main + match val case Some(bytes) => bytes case None => ""), false, Fine)
  {
    LookupFindsNearest(below, Binding(key, val), above);
    var body := Then(EmitContext(key), End(Fine));
    EndsAtOnce(false, w.(main := w.main + Shown(val)));
    assert RenderFrame(Component(body, None, ""), w) == RunScript(body, false, false, w);
    assert PopTo(w.stack, |w.stack|) == w.stack;
  }

  /** The render function changes state itself. */
  predicate SetsState(s: Script) {
    s.Then? && (s.cmd.SetState? || SetsState(s.rest))
  }

  /** A body that succeeds is dirty exactly when the component has a target and the
      body has changed state. */
  lemma {:induction false} DirtyExactly(s: Script, oob: bool, dirty: bool, w: World)
    ensures var r := RunScript(s, oob, dirty, w);
            r.ending.Fine? ==> (r.dirty <==> dirty || (oob && SetsState(s)))
    decreases s
  {
    hide RenderTo;
    match s
    case End(_) =>
    case Then(Emit(bytes), rest) => DirtyExactly(rest, oob, dirty, w.(main := w.main + bytes));
    case Then(Provide(key, val), rest) => DirtyExactly(rest, oob, dirty, w.(stack := w.stack + [Binding(key, val)]));
    case Then(EmitContext(key), rest) =>
      DirtyExactly(rest, oob, dirty, w.(main := w.main + Shown(Lookup(w.stack, key))));
    case Then(SetState, rest) => DirtyExactly(rest, oob, dirty || oob, w);
    case Then(Nested(c, _), rest) => DirtyExactly(rest, oob, dirty, RenderTo(c, w).world);
  }

  /** A nested component's error ends the body if it is passed on, whatever follows; if
      not, the body goes on with what the component has left. */
  lemma NestedError(c: Component, rest: Script, oob: bool, dirty: bool, w: World)
    requires RenderTo(c, w).ending.Failed?
    ensures RunScript(Then(Nested(c, true), rest), oob, dirty, w) == Result(RenderTo(c, w).world, dirty, Failed)
    ensures RunScript(Then(Nested(c, false), rest), oob, dirty, w) == RunScript(rest, oob, dirty, RenderTo(c, w).world)
  {
    hide RenderTo;
  }

  /** Every panic of the script sits below some error boundary. */
  predicate Guarded(s: Script) {
    match s
    case End(ending) => !ending.Panicked?
    case Then(Nested(c, _), rest) => (c.boundary.Some? || Guarded(c.body)) && Guarded(rest)
    case Then(_, rest) => Guarded(rest)
  }

  /** A tree whose panics all sit below boundaries renders without a panic. */
  lemma {:induction false} GuardedNeverPanics(s: Script, oob: bool, dirty: bool, w: World)
    requires Guarded(s)
    ensures !RunScript(s, oob, dirty, w).ending.Panicked?
    decreases s
  {
    match s
    case End(_) =>
    case Then(Emit(bytes), rest) => GuardedNeverPanics(rest, oob, dirty, w.(main := w.main + bytes));
    case Then(Provide(key, val), rest) =>
      GuardedNeverPanics(rest, oob, dirty, w.(stack := w.stack + [Binding(key, val)]));
    case Then(EmitContext(key), rest) =>
      GuardedNeverPanics(rest, oob, dirty, w.(main := w.main + Shown(Lookup(w.stack, key))));
    case Then(SetState, rest) => GuardedNeverPanics(rest, oob, dirty || oob, w);
    case Then(Nested(c, propagate), rest) =>
      if c.boundary.Some? {
        PanicIsIsolated(c, w);
      } else {
        GuardedNeverPanics(c.body, c.oobID != "", false, w.(main := ""));
        GuardedNeverPanics(c.body, false, false, w);
      }
      assert !RenderTo(c, w).ending.Panicked?;
      GuardedNeverPanics(rest, oob, dirty, RenderTo(c, w).world);
  }

  // ------------------------------------------------------------------------
  // The rendering methods; a panic is an ending that the callers unwind
  // ------------------------------------------------------------------------

  ghost function WorldOf(w: Sink, oobSink: Sink, rc: RenderContext): World
    requires rc.Valid()
    reads w, oobSink, rc, rc.inlineCtx
  {
    World(w.out, oobSink.out, rc.Contents())
  }

  method Exec(s: Script, oob: bool, wasDirty: bool, w: Sink, oobSink: Sink, rc: RenderContext)
    returns (dirty: bool, ending: Ending)
    requires rc.Valid() && w != oobSink
    modifies w, oobSink, rc, rc.inlineCtx
    ensures rc.Valid()
    ensures Result(WorldOf(w, oobSink, rc), dirty, ending) == RunScript(s, oob, wasDirty, old(WorldOf(w, oobSink, rc)))
    decreases s, 0
  {
    match s
    case End(e) =>
      dirty, ending := wasDirty, e;
    case Then(Emit(bytes), rest) =>
      w.Write(bytes);
      dirty, ending := Exec(rest, oob, wasDirty, w, oobSink, rc);
    case Then(Provide(key, val), rest) =>
      rc.PushContext(key, val);
      dirty, ending := Exec(rest, oob, wasDirty, w, oobSink, rc);
    case Then(EmitContext(key), rest) =>
      var val := rc.GetContext(key);
      w.Write(Shown(val));
      dirty, ending := Exec(rest, oob, wasDirty, w, oobSink, rc);
    case Then(SetState, rest) =>
      dirty, ending := Exec(rest, oob, wasDirty || oob, w, oobSink, rc);
    case Then(Nested(c, propagate), rest) =>
      ending := Render(c, w, oobSink, rc);
      if ending.Panicked? || (ending.Failed? && propagate) {
        dirty := wasDirty;
      } else {
        dirty, ending := Exec(rest, oob, wasDirty, w, oobSink, rc);
      }
  }

  method RunBoundaryOn(boundary: Script, oob: bool, w: Sink, oobSink: Sink, rc: RenderContext)
    requires rc.Valid() && w != oobSink
    modifies w, oobSink, rc, rc.inlineCtx
    ensures rc.Valid()
    ensures WorldOf(w, oobSink, rc) == RunBoundary(boundary, oob, old(WorldOf(w, oobSink, rc)))
    decreases boundary, 1
  {
    var _, ending := Exec(boundary, oob, false, w, oobSink, rc);
    if !ending.Fine? {
      w.Write(PLACEHOLDER);
    }
  }

  /** Writes out a buffered body that succeeded. */
  method Deliver(c: Component, buf: string, dirty: bool, w: Sink, oobSink: Sink)
    requires w != oobSink
    modifies w, oobSink
    ensures dirty ==> w.out == old(w.out) && oobSink.out == old(oobSink.out) + OobChunk(c.oobID, buf)
    ensures !dirty ==> w.out == old(w.out) + buf && oobSink.out == old(oobSink.out)
  {
    if !dirty {
      w.Write(buf);
      return;
    }
    oobSink.Write("<div id=\"");
    oobSink.Write(Escape(c.oobID));
    oobSink.Write("\" hx-swap-oob=\"true\">");
    oobSink.Write(buf);
    oobSink.Write("</div>");
    ChunkInPieces(old(oobSink.out), c.oobID, buf);
  }

  lemma ChunkInPieces(before: string, id: string, buf: string)
    ensures before + "<div id=\"" + Escape(id) + "\" hx-swap-oob=\"true\">" + buf + "</div>"
         == before + OobChunk(id, buf)
  {
    hide Concat, Escape;
    FivePieces(before, OobPieces(id, buf));
  }

  lemma FivePieces(before: string, ps: seq<string>)
    requires |ps| == 5
    ensures before + ps[0] + ps[1] + ps[2] + ps[3] + ps[4] == before + Concat(ps)
  {
    hide Concat;
    NoPieces(before, ps);
    PieceAfter(before, ps, 0);
    PieceAfter(before, ps, 1);
    PieceAfter(before, ps, 2);
    PieceAfter(before, ps, 3);
    PieceAfter(before, ps, 4);
    assert ps[..5] == ps;
  }

  lemma NoPieces(before: string, ps: seq<string>)
    ensures before + Concat(ps[..0]) == before
  {
  }

  lemma PieceAfter(before: string, ps: seq<string>, k: nat)
    requires k < |ps|
    ensures before + Concat(ps[..k + 1]) == before + Concat(ps[..k]) + ps[k]
  {
    hide Concat;
    ConcatPrefix(ps, k);
    Assoc(before, Concat(ps[..k]), ps[k]);
  }

  method Render(c: Component, w: Sink, oobSink: Sink, rc: RenderContext) returns (ending: Ending)
    requires rc.Valid() && w != oobSink
    modifies w, oobSink, rc, rc.inlineCtx
    ensures rc.Valid()
    ensures Result(WorldOf(w, oobSink, rc), false, ending) == RenderTo(c, old(WorldOf(w, oobSink, rc)))
    decreases c, 3
  {
    var savedCtxPtr := rc.ctxPtr;
    ending := RenderInFrame(c, w, oobSink, rc);
    rc.PopContextTo(savedCtxPtr);
  }

  method RenderInFrame(c: Component, w: Sink, oobSink: Sink, rc: RenderContext) returns (ending: Ending)
    requires rc.Valid() && w != oobSink
    modifies w, oobSink, rc, rc.inlineCtx
    ensures rc.Valid()
    ensures WorldOf(w, oobSink, rc) == RenderFrame(c, old(WorldOf(w, oobSink, rc))).world
    ensures ending == RenderFrame(c, old(WorldOf(w, oobSink, rc))).ending
    decreases c, 2
  {
    var dirty;
    if c.boundary.None? && c.oobID == "" {
      dirty, ending := Exec(c.body, false, false, w, oobSink, rc);
      return;
    }
    var buf := new Sink();
    dirty, ending := Exec(c.body, c.oobID != "", false, buf, oobSink, rc);
    if ending.Panicked? {
      if c.boundary.Some? {
        RunBoundaryOn(c.boundary.value, c.oobID != "", w, oobSink, rc);
        ending := Fine;
      }
    } else if ending.Fine? {
      Deliver(c, buf.out, dirty, w, oobSink);
    }
  }

  // ------------------------------------------------------------------------
  // Asynchronous components
  // ------------------------------------------------------------------------

  /** What a middleware does: it acts, calls the next handler any number of times, and
      goes on by how that ended. One that does not recover has `Return(Panicked)`
      for a panic. */
  datatype Middleware =
    | Return(ending: Ending)
    | Do(cmd: Cmd, rest: Middleware)
    | CallNext(fine: Middleware, failed: Middleware, panicked: Middleware)

  /** `submits` counts the workers submitted. */
  datatype Forked = Forked(world: World, submits: nat, ending: Ending)

  function Act(cmd: Cmd, oob: bool, w: World): Result {
    RunScript(Then(cmd, End(Fine)), oob, false, w)
  }

  /** The chain of an asynchronous component, first middleware outermost. The
      innermost handler writes the fallback and then submits the worker. */
  function RunAsync(ms: seq<Middleware>, fallback: Script, oob: bool, w: World): Forked
    decreases |ms|, 0
  {
    if ms == [] then
      var r := RunScript(fallback, oob, false, w);
      Forked(r.world, if r.ending.Fine? then 1 else 0, r.ending)
    else RunMiddleware(ms[0], ms[1..], fallback, oob, w)
  }

  /** The rest `m` of a middleware, with the chain `ms` inside it. */
  function RunMiddleware(m: Middleware, ms: seq<Middleware>, fallback: Script, oob: bool, w: World): Forked
    decreases |ms|, 1, m
  {
    match m
    case Return(ending) => Forked(w, 0, ending)
    case Do(cmd, rest) =>
      var r := Act(cmd, oob, w);
      if r.ending.Fine? then RunMiddleware(rest, ms, fallback, oob, r.world) else Forked(r.world, 0, r.ending)
    case CallNext(fine, failed, panicked) =>
      var n := RunAsync(ms, fallback, oob, w);
      var after := match n.ending
        case Fine => RunMiddleware(fine, ms, fallback, oob, n.world)
        case Failed => RunMiddleware(failed, ms, fallback, oob, n.world)
        case Panicked => RunMiddleware(panicked, ms, fallback, oob, n.world);
      after.(submits := n.submits + after.submits)
  }

  /** What a middleware goes on with after its call has ended. */
  function GoesOn(m: Middleware, ending: Ending): (rest: Middleware)
    requires m.CallNext?
    ensures rest < m
  {
    match ending case Fine => m.fine case Failed => m.failed case Panicked => m.panicked
  }

  lemma CallUnfolds(m: Middleware, ms: seq<Middleware>, fallback: Script, oob: bool, w: World)
    requires m.CallNext?
    ensures var n := RunAsync(ms, fallback, oob, w);
            var after := RunMiddleware(GoesOn(m, n.ending), ms, fallback, oob, n.world);
            RunMiddleware(m, ms, fallback, oob, w) == after.(submits := n.submits + after.submits)
  {
  }

  function DispatchAsync(ms: seq<Middleware>, fallback: Script, oob: bool, w: World): Forked {
    var r := RunAsync(ms, fallback, oob, w);
    r.(world := r.world.(stack := PopTo(r.world.stack, |w.stack|)))
  }

  lemma {:induction false} AsyncOnlyPushes(ms: seq<Middleware>, fallback: Script, oob: bool, w: World)
    ensures w.stack <= RunAsync(ms, fallback, oob, w).world.stack
    decreases |ms|, 0
  {
    if ms == [] {
      ScriptOnlyPushes(fallback, oob, false, w);
    } else {
      MiddlewareOnlyPushes(ms[0], ms[1..], fallback, oob, w);
    }
  }

  lemma {:induction false} MiddlewareOnlyPushes(m: Middleware, ms: seq<Middleware>, fallback: Script,
                                                oob: bool, w: World)
    ensures w.stack <= RunMiddleware(m, ms, fallback, oob, w).world.stack
    decreases |ms|, 1, m
  {
    match m
    case Return(_) =>
    case Do(cmd, rest) =>
      ScriptOnlyPushes(Then(cmd, End(Fine)), oob, false, w);
      MiddlewareOnlyPushes(rest, ms, fallback, oob, Act(cmd, oob, w).world);
    case CallNext(_, _, _) =>
      var n := RunAsync(ms, fallback, oob, w);
      CallUnfolds(m, ms, fallback, oob, w);
      AsyncOnlyPushes(ms, fallback, oob, w);
      MiddlewareOnlyPushes(GoesOn(m, n.ending), ms, fallback, oob, n.world);
  }

  lemma AsyncRestoresStack(ms: seq<Middleware>, fallback: Script, oob: bool, w: World)
    ensures DispatchAsync(ms, fallback, oob, w).world.stack == w.stack
  {
    AsyncOnlyPushes(ms, fallback, oob, w);
  }

  predicate NeverCalls(m: Middleware) {
    match m
    case Return(_) => true
    case Do(_, rest) => NeverCalls(rest)
    case CallNext(_, _, _) => false
  }

  /** A middleware that does not call the next one prevents both the fallback and
      the worker, whatever the ones around it do: the outcome is that of the chain
      up to it. */
  lemma {:induction false} AbortPreventsFork(outer: seq<Middleware>, abort: Middleware, inner: seq<Middleware>,
                                             fallback: Script, fallback': Script, oob: bool, w: World)
    requires NeverCalls(abort)
    ensures var r := RunAsync(outer + [abort] + inner, fallback, oob, w);
            r.submits == 0 && r == RunAsync(outer + [abort], fallback', oob, w)
    decreases |outer|, 0
  {
    var ms, ms' := outer + [abort] + inner, outer + [abort];
    assert ms[0] == ms'[0];
    if outer == [] {
      assert ms[1..] == inner && ms'[1..] == [];
      AbortAlone(abort, inner, fallback, fallback', oob, w);
    } else {
      assert ms[1..] == outer[1..] + [abort] + inner && ms'[1..] == outer[1..] + [abort];
      AbortInside(outer[0], outer[1..], abort, inner, fallback, fallback', oob, w);
    }
  }

  lemma {:induction false} AbortAlone(m: Middleware, inner: seq<Middleware>,
                                      fallback: Script, fallback': Script, oob: bool, w: World)
    requires NeverCalls(m)
    ensures var r := RunMiddleware(m, inner, fallback, oob, w);
            r.submits == 0 && r == RunMiddleware(m, [], fallback', oob, w)
  {
    if m.Do? {
      AbortAlone(m.rest, inner, fallback, fallback', oob, Act(m.cmd, oob, w).world);
    }
  }

  lemma {:induction false} AbortInside(m: Middleware, outer: seq<Middleware>, abort: Middleware,
                                       inner: seq<Middleware>, fallback: Script, fallback': Script,
                                       oob: bool, w: World)
    requires NeverCalls(abort)
    ensures var r := RunMiddleware(m, outer + [abort] + inner, fallback, oob, w);
            r.submits == 0 && r == RunMiddleware(m, outer + [abort], fallback', oob, w)
    decreases |outer|, 1, m
  {
    match m
    case Return(_) =>
    case Do(cmd, rest) =>
      AbortInside(rest, outer, abort, inner, fallback, fallback', oob, Act(cmd, oob, w).world);
    case CallNext(_, _, _) =>
      var n := RunAsync(outer + [abort] + inner, fallback, oob, w);
      CallUnfolds(m, outer + [abort] + inner, fallback, oob, w);
      CallUnfolds(m, outer + [abort], fallback', oob, w);
      AbortPreventsFork(outer, abort, inner, fallback, fallback', oob, w);
      AbortInside(GoesOn(m, n.ending), outer, abort, inner, fallback, fallback', oob, n.world);
  }

  /** The worlds in which the chain starts the fallback, in order. */
  function Starts(ms: seq<Middleware>, fallback: Script, oob: bool, w: World): seq<World>
    decreases |ms|, 0
  {
    if ms == [] then [w] else StartsFrom(ms[0], ms[1..], fallback, oob, w)
  }

  function StartsFrom(m: Middleware, ms: seq<Middleware>, fallback: Script, oob: bool, w: World): seq<World>
    decreases |ms|, 1, m
  {
    match m
    case Return(_) => []
    case Do(cmd, rest) =>
      var r := Act(cmd, oob, w);
      if r.ending.Fine? then StartsFrom(rest, ms, fallback, oob, r.world) else []
    case CallNext(_, _, _) =>
      var n := RunAsync(ms, fallback, oob, w);
      Starts(ms, fallback, oob, w) + StartsFrom(GoesOn(m, n.ending), ms, fallback, oob, n.world)
  }

  /** In how many of the worlds the fallback succeeds. */
  function Successes(starts: seq<World>, fallback: Script, oob: bool): nat {
    if starts == [] then 0
    else (if RunScript(fallback, oob, false, starts[0]).ending.Fine? then 1 else 0)
         + Successes(starts[1..], fallback, oob)
  }

  lemma {:induction false} SuccessesConcat(a: seq<World>, b: seq<World>, fallback: Script, oob: bool)
    ensures Successes(a + b, fallback, oob) == Successes(a, fallback, oob) + Successes(b, fallback, oob)
    decreases |a|
  {
    if a == [] {
      assert a + b == b;
    } else {
      assert (a + b)[1..] == a[1..] + b;
      SuccessesConcat(a[1..], b, fallback, oob);
    }
  }

  /** What was on the main stream at the start precedes each start of the fallback,
      and what each run of the fallback has left there precedes the rest. */
  ghost predicate StartsBetween(starts: seq<World>, fallback: Script, oob: bool, before: string, after: string) {
    forall k :: 0 <= k < |starts| ==>
      before <= starts[k].main && RunScript(fallback, oob, false, starts[k]).world.main <= after
  }

  lemma BetweenConcat(a: seq<World>, b: seq<World>, fallback: Script, oob: bool,
                      before: string, middle: string, after: string)
    requires StartsBetween(a, fallback, oob, before, middle) && StartsBetween(b, fallback, oob, middle, after)
    requires before <= middle <= after
    ensures StartsBetween(a + b, fallback, oob, before, after) && before <= after
  {
    hide RunScript;
  }

  lemma NoneStarted(fallback: Script, oob: bool, before: string, after: string)
    ensures StartsBetween([], fallback, oob, before, after) && Successes([], fallback, oob) == 0
  {
  }

  /** A worker is submitted for each run of the fallback that succeeded, and for
      nothing else; the bytes of every such run are on the main stream. */
  lemma {:induction false} SubmitFollowsFallback(ms: seq<Middleware>, fallback: Script, oob: bool, w: World)
    ensures var n, starts := RunAsync(ms, fallback, oob, w), Starts(ms, fallback, oob, w);
            && n.submits == Successes(starts, fallback, oob)
            && w.main <= n.world.main && StartsBetween(starts, fallback, oob, w.main, n.world.main)
    decreases |ms|, 0
  {
    if ms == [] {
      MainGrows(fallback, oob, w);
    } else {
      MiddlewareFollows(ms[0], ms[1..], fallback, oob, w);
    }
  }

  lemma {:induction false} MiddlewareFollows(m: Middleware, ms: seq<Middleware>, fallback: Script, oob: bool, w: World)
    ensures var n, starts := RunMiddleware(m, ms, fallback, oob, w), StartsFrom(m, ms, fallback, oob, w);
            && n.submits == Successes(starts, fallback, oob)
            && w.main <= n.world.main && StartsBetween(starts, fallback, oob, w.main, n.world.main)
    decreases |ms|, 1, m
  {
    hide StartsBetween, Successes, RunScript;
    match m
    case Return(_) => NoneStarted(fallback, oob, w.main, w.main);
    case Do(cmd, rest) =>
      var r := Act(cmd, oob, w);
      MainGrows(Then(cmd, End(Fine)), oob, w);
      NoneStarted(fallback, oob, w.main, r.world.main);
      if r.ending.Fine? {
        var starts := StartsFrom(rest, ms, fallback, oob, r.world);
        MiddlewareFollows(rest, ms, fallback, oob, r.world);
        BetweenConcat([], starts, fallback, oob, w.main, r.world.main,
                      RunMiddleware(rest, ms, fallback, oob, r.world).world.main);
        assert [] + starts == starts;
      }
    case CallNext(_, _, _) =>
      var n := RunAsync(ms, fallback, oob, w);
      var rest := GoesOn(m, n.ending);
      var after := RunMiddleware(rest, ms, fallback, oob, n.world);
      CallUnfolds(m, ms, fallback, oob, w);
      SubmitFollowsFallback(ms, fallback, oob, w);
      MiddlewareFollows(rest, ms, fallback, oob, n.world);
      var a, b := Starts(ms, fallback, oob, w), StartsFrom(rest, ms, fallback, oob, n.world);
      SuccessesConcat(a, b, fallback, oob);
      BetweenConcat(a, b, fallback, oob, w.main, n.world.main, after.world.main);
  }

  lemma MainGrows(s: Script, oob: bool, w: World)
    ensures w.main <= RunScript(s, oob, false, w).world.main
  {
    var alone := World("", w.sink, w.stack);
    ScriptAppends(s, oob, false, alone, w.main, "");
    assert After(w.main, "", alone) == w;
  }

  /** The middleware calls the next handler at most once. */
  predicate CallsOnce(m: Middleware) {
    match m
    case Return(_) => true
    case Do(_, rest) => CallsOnce(rest)
    case CallNext(fine, failed, panicked) => NeverCalls(fine) && NeverCalls(failed) && NeverCalls(panicked)
  }

  /** If no middleware calls the next handler twice, the fallback is started at most
      once and at most one worker is submitted. */
  lemma {:induction false} OnceSubmitsOnce(ms: seq<Middleware>, fallback: Script, oob: bool, w: World)
    requires forall m :: m in ms ==> CallsOnce(m)
    ensures |Starts(ms, fallback, oob, w)| <= 1 && RunAsync(ms, fallback, oob, w).submits <= 1
    decreases |ms|, 0
  {
    SubmitFollowsFallback(ms, fallback, oob, w);
    if ms != [] {
      StartsOnce(ms[0], ms[1..], fallback, oob, w);
    }
  }

  lemma {:induction false} StartsOnce(m: Middleware, ms: seq<Middleware>, fallback: Script, oob: bool, w: World)
    requires CallsOnce(m) && forall m' :: m' in ms ==> CallsOnce(m')
    ensures |StartsFrom(m, ms, fallback, oob, w)| <= 1
    ensures NeverCalls(m) ==> StartsFrom(m, ms, fallback, oob, w) == []
    decreases |ms|, 1, m
  {
    match m
    case Return(_) =>
    case Do(cmd, rest) => StartsOnce(rest, ms, fallback, oob, Act(cmd, oob, w).world);
    case CallNext(_, _, _) =>
      var n := RunAsync(ms, fallback, oob, w);
      NeverCallsOnce(GoesOn(m, n.ending));
      OnceSubmitsOnce(ms, fallback, oob, w);
      StartsOnce(GoesOn(m, n.ending), ms, fallback, oob, n.world);
  }

  lemma {:induction false} NeverCallsOnce(m: Middleware)
    requires NeverCalls(m)
    ensures CallsOnce(m)
  {
    if m.Do? {
      NeverCallsOnce(m.rest);
    }
  }

  /** What a middleware does after its call depends on how that ended: one that writes
      `a` after a success and `b` after a failure, and passes the ending on. */
  lemma AfterFollowsEnding(a: string, b: string, ms: seq<Middleware>, fallback: Script, oob: bool, w: World)
    ensures var m := CallNext(Do(Emit(a), Return(Fine)), Do(Emit(b), Return(Failed)), Return(Panicked));
            var n := RunAsync(ms, fallback, oob, w);
            var text := match n.ending case Fine => a case Failed => b case Panicked => "";
            RunAsync([m] + ms, fallback, oob, w)
            == Forked(n.world.(main := n.world.main + text), n.submits, n.ending)
  {
    var m := CallNext(Do(Emit(a), Return(Fine)), Do(Emit(b), Return(Failed)), Return(Panicked));
    var n := RunAsync(ms, fallback, oob, w);
    assert ([m] + ms)[1..] == ms;
    assert n.world.main + "" == n.world.main;
    CallUnfolds(m, ms, fallback, oob, w);
    EmitThenReturn(a, Fine, ms, fallback, oob, n.world);
    EmitThenReturn(b, Failed, ms, fallback, oob, n.world);
  }

  /** A call of the middleware that fails ends it there: nothing is submitted after. */
  lemma FailedActEnds(cmd: Cmd, m: Middleware, ms: seq<Middleware>, fallback: Script, oob: bool, w: World)
    requires !Act(cmd, oob, w).ending.Fine?
    ensures RunAsync([Do(cmd, m)] + ms, fallback, oob, w)
            == Forked(Act(cmd, oob, w).world, 0, Act(cmd, oob, w).ending)
  {
    hide Act;
    assert ([Do(cmd, m)] + ms)[1..] == ms;
  }

  lemma EmitThenReturn(text: string, e: Ending, ms: seq<Middleware>, fallback: Script, oob: bool, w: World)
    ensures RunMiddleware(Do(Emit(text), Return(e)), ms, fallback, oob, w)
            == Forked(w.(main := w.main + text), 0, e)
  {
    EndsAtOnce(oob, w.(main := w.main + text));
  }

  method Fork(ms: seq<Middleware>, fallback: Script, oob: bool, w: Sink, oobSink: Sink, rc: RenderContext)
    returns (submits: nat, ending: Ending)
    requires rc.Valid() && w != oobSink
    modifies w, oobSink, rc, rc.inlineCtx
    ensures rc.Valid()
    ensures Forked(WorldOf(w, oobSink, rc), submits, ending)
         == RunAsync(ms, fallback, oob, old(WorldOf(w, oobSink, rc)))
    decreases |ms|, 0
  {
    if ms == [] {
      var dirty;
      dirty, ending := Exec(fallback, oob, false, w, oobSink, rc);
      submits := if ending.Fine? then 1 else 0;
    } else {
      submits, ending := ForkThrough(ms[0], ms[1..], fallback, oob, w, oobSink, rc);
    }
  }

  method ForkThrough(m: Middleware, ms: seq<Middleware>, fallback: Script, oob: bool,
                     w: Sink, oobSink: Sink, rc: RenderContext)
    returns (submits: nat, ending: Ending)
    requires rc.Valid() && w != oobSink
    modifies w, oobSink, rc, rc.inlineCtx
    ensures rc.Valid()
    ensures Forked(WorldOf(w, oobSink, rc), submits, ending)
         == RunMiddleware(m, ms, fallback, oob, old(WorldOf(w, oobSink, rc)))
    decreases |ms|, 1, m
  {
    match m
    case Return(e) =>
      return 0, e;
    case Do(cmd, rest) =>
      var dirty;
      dirty, ending := Exec(Then(cmd, End(Fine)), oob, false, w, oobSink, rc);
      submits := 0;
      if ending.Fine? {
        submits, ending := ForkThrough(rest, ms, fallback, oob, w, oobSink, rc);
      }
    case CallNext(_, _, _) =>
      CallUnfolds(m, ms, fallback, oob, WorldOf(w, oobSink, rc));
      var inner, innerEnding := Fork(ms, fallback, oob, w, oobSink, rc);
      submits, ending := ForkThrough(GoesOn(m, innerEnding), ms, fallback, oob, w, oobSink, rc);
      submits := inner + submits;
  }

  /** The asynchronous path of a dispatch, unwinding the stack on every outcome. */
  method Dispatch(ms: seq<Middleware>, fallback: Script, oob: bool, w: Sink, oobSink: Sink, rc: RenderContext)
    returns (submits: nat, ending: Ending)
    requires rc.Valid() && w != oobSink
    modifies w, oobSink, rc, rc.inlineCtx
    ensures rc.Valid()
    ensures Forked(WorldOf(w, oobSink, rc), submits, ending)
         == DispatchAsync(ms, fallback, oob, old(WorldOf(w, oobSink, rc)))
  {
    var savedCtxPtr := rc.ctxPtr;
    submits, ending := Fork(ms, fallback, oob, w, oobSink, rc);
    rc.PopContextTo(savedCtxPtr);
  }

  // ------------------------------------------------------------------------
  // The middleware chain
  // ------------------------------------------------------------------------

  /** The chain: the first middleware wraps all others, the base is innermost. */
  function Chain<H>(middlewares: seq<H -> H>, base: H): H {
    if middlewares == [] then base else middlewares[0](Chain(middlewares[1..], base))
  }

  /** The fold that registers a component. */
  method FoldChain<H>(middlewares: seq<H -> H>, base: H) returns (chain: H)
    ensures chain == Chain(middlewares, base)
  {
    chain := base;
    var i := |middlewares|;
    while i > 0
      invariant 0 <= i <= |middlewares|
      invariant chain == Chain(middlewares[i..], base)
    {
      i := i - 1;
      assert middlewares[i..][0] == middlewares[i] && middlewares[i..][1..] == middlewares[i + 1..];
      chain := middlewares[i](chain);
    }
  }

  /** Adding middleware to a chain wraps the base, not what is there already. */
  lemma {:induction false} ChainConcat<H>(outer: seq<H -> H>, inner: seq<H -> H>, base: H)
    ensures Chain(outer + inner, base) == Chain(outer, Chain(inner, base))
  {
    if outer == [] {
      assert outer + inner == inner;
    } else {
      assert (outer + inner)[1..] == outer[1..] + inner;
      ChainConcat(outer[1..], inner, base);
    }
  }

  /** A middleware that never calls the next one keeps everything inside it from
      running: later middlewares and the base do not matter. */
  lemma AbortHidesTheRest<H(!new)>(outer: seq<H -> H>, abort: H -> H, inner: seq<H -> H>, base: H,
                             inner': seq<H -> H>, base': H)
    requires forall h, h' :: abort(h) == abort(h')
    ensures Chain(outer + [abort] + inner, base) == Chain(outer + [abort] + inner', base')
  {
    ChainConcat(outer + [abort], inner, base);
    ChainConcat(outer + [abort], inner', base');
    ChainConcat(outer, [abort], Chain(inner, base));
    ChainConcat(outer, [abort], Chain(inner', base'));
    ConstantAlone(abort, Chain(inner, base), Chain(inner', base'));
  }

  lemma ConstantAlone<H(!new)>(abort: H -> H, h: H, h': H)
    requires forall x, y :: abort(x) == abort(y)
    ensures Chain([abort], h) == Chain([abort], h')
  {
    assert [abort][1..] == [];
  }
}
