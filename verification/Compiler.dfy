/** The bytecode compiler (bytecode.go).

    `ItemsOf` says what a node means to the compiler; the methods emit packed
    code, and their contracts say that decoding the emitted range, plus the
    static bytes still pending, gives exactly those items. */
module Compiler {
  import opened Sequences
  import opened Escaping
  import opened NodeStreams
  import opened TreeWalk
  import opened Instructions

  // ------------------------------------------------------------------------
  // What the compiler makes of a node
  // ------------------------------------------------------------------------

  ghost function ItemsOf(s: NodeStream, i: nat): seq<Item>
    requires s.WellFormed() && i < s.Count()
    decreases Remaining(s, i), 0
  {
    var flags := s.flags[i];
    if Has(flags, FLAG_TEXT) then Bytes(TextHTML(s, i))
    else if Has(flags, FLAG_COMPONENT) then [Call(s.componentName[i], KidItems(s, s.firstChild[i]))]
    else if Has(flags, FLAG_VOID | FLAG_SELF_CLOSING) then Bytes(OpenTagHTML(s, i, true))
    else if Has(flags, FLAG_FRAGMENT) then KidItems(s, s.firstChild[i])
    else Bytes(OpenTagHTML(s, i, false)) + KidItems(s, s.firstChild[i]) + Bytes(CloseTagHTML(s.tag[i]))
  }

  /** A list of children; slot wrappers become marked regions. */
  ghost function KidItems(s: NodeStream, c: int): seq<Item>
    requires s.WellFormed() && IsLink(s, c)
    decreases Remaining(s, c), 2
  {
    if c == -1 then [] else KidItem(s, c) + KidItems(s, s.nextSibling[c])
  }

  ghost function KidItem(s: NodeStream, c: nat): seq<Item>
    requires s.WellFormed() && c < s.Count()
    decreases Remaining(s, c), 1
  {
    if s.IsSlot(c) then [Open(s.componentName[c])] + SlotItems(s, s.firstChild[c]) + [Close]
    else ItemsOf(s, c)
  }

  /** The content of a slot wrapper; wrappers directly inside are not marked. */
  ghost function SlotItems(s: NodeStream, c: int): seq<Item>
    requires s.WellFormed() && IsLink(s, c)
    decreases Remaining(s, c), 2
  {
    if c == -1 then [] else ItemsOf(s, c) + SlotItems(s, s.nextSibling[c])
  }

  ghost function ProgramItems(s: NodeStream): seq<Item>
    requires s.WellFormed()
  {
    if s.Count() == 0 then [] else ItemsOf(s, 0)
  }

  /** The literal bytes of a program, in document order. */
  ghost function Literals(items: seq<Item>): string {
    if items == [] then ""
    else
      (match items[0]
       case Byte(c) => [c]
       case Call(_, kids) => Literals(kids)
       case _ => "") + Literals(items[1..])
  }

  lemma {:induction false} LiteralsConcat(a: seq<Item>, b: seq<Item>)
    ensures Literals(a + b) == Literals(a) + Literals(b)
    decreases |a|
  {
    if a == [] {
      assert a + b == b;
    } else {
      var head := match a[0] case Byte(c) => [c] case Call(_, kids) => Literals(kids) case _ => "";
      assert (a + b)[1..] == a[1..] + b;
      LiteralsConcat(a[1..], b);
      Assoc(head, Literals(a[1..]), Literals(b));
    }
  }

  lemma {:induction false} LiteralsOfBytes(s: string)
    ensures Literals(Bytes(s)) == s
  {
    if s != "" {
      assert Bytes(s)[1..] == Bytes(s[1..]);
      LiteralsOfBytes(s[1..]);
    }
  }

  // ------------------------------------------------------------------------
  // Emitting
  // ------------------------------------------------------------------------

  /** What the compiler has built: a program and where its pending static run starts. */
  datatype State = State(p: Program, start: nat) {
    ghost predicate Small() {
      |p.staticBuf| < U32
    }

    /** The pending run ends the buffer; what precedes it is tiled by the code. */
    ghost predicate Valid() {
      start <= |p.staticBuf| && Tiles(p.code, |p.code|, start)
    }

    ghost function Pending(): string
      requires Valid()
    {
      p.staticBuf[start..]
    }
  }

  /** `b` is `a` with `items` appended. The buffer gains their literal bytes
      whatever its size; the rest holds while 32 bits can count it. */
  ghost predicate Appended(a: State, b: State, items: seq<Item>) {
    && b.p.staticBuf == a.p.staticBuf + Literals(items)
    && a.p.comps <= b.p.comps
    && |a.p.code| <= |b.p.code|
    && b.p.code[..|a.p.code|] == a.p.code
    && (b.Small() ==> a.Valid() && b.Valid() && Emitted(a, b, items))
  }

  /** Decoding the new code, then the pending bytes, gives the old pending
      bytes, then the items. */
  ghost predicate Emitted(a: State, b: State, items: seq<Item>)
    requires a.Valid() && b.Valid() && |a.p.code| <= |b.p.code|
  {
    && InBounds(b.p, |a.p.code|, |b.p.code|)
    && Decode(b.p, |a.p.code|, |b.p.code|) + Bytes(b.Pending()) == Bytes(a.Pending()) + items
  }

  lemma AppendedNothing(a: State)
    requires a.Small() ==> a.Valid()
    ensures Appended(a, a, [])
  {
    if a.Small() {
      assert Bytes(a.Pending()) + [] == Bytes(a.Pending());
      assert Decode(a.p, |a.p.code|, |a.p.code|) == [];
      assert [] + Bytes(a.Pending()) == Bytes(a.Pending());
    }
  }

  lemma AppendedThen(a: State, b: State, c: State, xs: seq<Item>, ys: seq<Item>)
    requires Appended(a, b, xs) && Appended(b, c, ys)
    ensures Appended(a, c, xs + ys)
  {
    LiteralsConcat(xs, ys);
    Assoc(a.p.staticBuf, Literals(xs), Literals(ys));
    assert c.p.code[..|a.p.code|] == c.p.code[..|b.p.code|][..|a.p.code|];
    if c.Small() {
      EmittedThen(a, b, c, xs, ys);
    }
  }

  lemma AppendedKeeps(a: State, b: State, items: seq<Item>)
    requires Appended(a, b, items)
    ensures a.p.comps <= b.p.comps && |a.p.code| <= |b.p.code| && b.p.code[..|a.p.code|] == a.p.code
  {
  }

  lemma EmittedThen(a: State, b: State, c: State, xs: seq<Item>, ys: seq<Item>)
    requires a.Valid() && b.Valid() && c.Valid()
    requires |a.p.code| <= |b.p.code| <= |c.p.code| && c.p.code[..|b.p.code|] == b.p.code
    requires b.p.staticBuf <= c.p.staticBuf && b.p.comps <= c.p.comps
    requires Emitted(a, b, xs) && Emitted(b, c, ys)
    ensures Emitted(a, c, xs + ys)
  {
    var la, lb, lc := |a.p.code|, |b.p.code|, |c.p.code|;
    forall k | la <= k < lb
      ensures b.p.code[k] == c.p.code[k]
    {
      assert c.p.code[..lb][k] == c.p.code[k];
    }
    DecodeFrame(b.p, c.p, la, lb);
    DecodeConcat(c.p, la, lb, lc);
    var first, second := Decode(b.p, la, lb), Decode(c.p, lb, lc);
    var pa, pb, pc := Bytes(a.Pending()), Bytes(b.Pending()), Bytes(c.Pending());
    calc {
      Decode(c.p, la, lc) + pc;
      first + second + pc;
      { Assoc(first, second, pc); }
      first + (second + pc);
      first + (pb + ys);
      { Assoc(first, pb, ys); }
      first + pb + ys;
      pa + xs + ys;
      { Assoc(pa, xs, ys); }
      pa + (xs + ys);
    }
  }

  ghost function EncodeAll(code: seq<Instr>): (r: seq<nat>)
    ensures |r| == |code|
  {
    seq(|code|, k requires 0 <= k < |code| => Encode(code[k]))
  }

  /** One marker or call instruction on top of a flushed state. */
  ghost function WithInstr(a: State, ins: Instr): State {
    State(Program(a.p.code + [ins], a.p.staticBuf, a.p.comps), a.start)
  }

  lemma MarkerAppended(a: State, ins: Instr, item: Item)
    requires a.Small() ==> a.Valid() && a.Pending() == ""
    requires match ins
      case OpSlotBegin(slot) => slot < |a.p.comps| && item == Open(a.p.comps[slot])
      case OpSlotEnd => item == Close
      case _ => false
    ensures Appended(a, WithInstr(a, ins), [item])
  {
    var b := WithInstr(a, ins);
    var n := |a.p.code|;
    assert [item][1..] == [];
    assert Literals([item]) == "";
    assert b.p.staticBuf == a.p.staticBuf + "";
    if b.Small() {
      TilesFrame(a.p.code, b.p.code, n, a.start);
      assert b.Pending() == a.Pending() == "";
      assert Decode(b.p, n + 1, n + 1) == [];
      assert Decode(b.p, n, n + 1) == [item] + [];
      assert Bytes("") == [];
    }
  }

  lemma LiteralsOfCall(name: string, kids: seq<Item>)
    ensures Literals([Call(name, kids)]) == Literals(kids)
  {
    assert [Call(name, kids)][1..] == [];
    assert Literals(kids) + "" == Literals(kids);
  }

  /** With nothing pending on either side, the new code alone is the items. */
  lemma EmittedFlushed(a: State, b: State, items: seq<Item>)
    requires a.Valid() && b.Valid() && |a.p.code| <= |b.p.code|
    requires Emitted(a, b, items) && a.Pending() == "" && b.Pending() == ""
    ensures Decode(b.p, |a.p.code|, |b.p.code|) == items
  {
    var d := Decode(b.p, |a.p.code|, |b.p.code|);
    assert Bytes("") == [];
    assert d == d + Bytes("") == Bytes("") + items == items;
  }

  /** Back-patching a call: the range after it becomes its children. `a` is the
      flushed state before the call, `c` the flushed state after the children. */
  lemma CallAppended(a: State, name: nat, c: State, kids: seq<Item>)
    requires name < |a.p.comps|
    requires a.Small() ==> a.Valid() && a.Pending() == ""
    requires Appended(WithInstr(a, OpComponent(name, 0)), c, kids)
    requires c.Small() ==> c.Valid() && c.Pending() == ""
    ensures var b := State(c.p.(code := c.p.code[|a.p.code| := OpComponent(name, |c.p.code|)]), c.start);
            Appended(a, b, [Call(a.p.comps[name], kids)])
  {
    var n, end := |a.p.code|, |c.p.code|;
    var m := WithInstr(a, OpComponent(name, 0));
    var b := State(c.p.(code := c.p.code[n := OpComponent(name, end)]), c.start);
    var item := Call(a.p.comps[name], kids);
    assert c.p.code[..n + 1] == m.p.code;
    assert b.p.code[..n] == m.p.code[..n] == a.p.code;
    LiteralsOfCall(item.name, kids);
    if b.Small() {
      CallEmitted(a, name, c, kids);
    }
  }

  lemma CallEmitted(a: State, name: nat, c: State, kids: seq<Item>)
    requires name < |a.p.comps| && a.Valid() && a.Pending() == "" && c.Valid() && c.Pending() == ""
    requires var m := WithInstr(a, OpComponent(name, 0));
             && |m.p.code| <= |c.p.code| && c.p.code[..|m.p.code|] == m.p.code && a.p.comps <= c.p.comps
             && m.Valid() && Emitted(m, c, kids)
    ensures var b := State(c.p.(code := c.p.code[|a.p.code| := OpComponent(name, |c.p.code|)]), c.start);
            b.Valid() && Emitted(a, b, [Call(a.p.comps[name], kids)])
  {
    hide Bytes;
    var n, end := |a.p.code|, |c.p.code|;
    var m := WithInstr(a, OpComponent(name, 0));
    var b := State(c.p.(code := c.p.code[n := OpComponent(name, end)]), c.start);
    assert c.p.code[n] == c.p.code[..n + 1][n];
    TilesFrame(c.p.code, b.p.code, end, c.start);
    EmittedFlushed(m, c, kids);
    DecodeFrame(c.p, b.p, n + 1, end);
    DecodeOneCall(b.p, n);
    EmittedAlone(a, b, [Call(a.p.comps[name], kids)]);
  }

  lemma DecodeOneCall(p: Program, n: nat)
    requires n < |p.code| && p.code[n].OpComponent? && p.code[n].end == |p.code|
    requires p.code[n].name < |p.comps| && InBounds(p, n + 1, |p.code|)
    ensures InBounds(p, n, |p.code|)
    ensures Decode(p, n, |p.code|) == [Call(p.comps[p.code[n].name], Decode(p, n + 1, |p.code|))]
  {
    assert Decode(p, |p.code|, |p.code|) == [];
  }

  /** The converse of EmittedFlushed. */
  lemma EmittedAlone(a: State, b: State, items: seq<Item>)
    requires a.Valid() && b.Valid() && |a.p.code| <= |b.p.code|
    requires a.Pending() == "" && b.Pending() == "" && InBounds(b.p, |a.p.code|, |b.p.code|)
    requires Decode(b.p, |a.p.code|, |b.p.code|) == items
    ensures Emitted(a, b, items)
  {
    hide Decode, InBounds;
    assert Bytes("") == [];
    assert items + [] == items == [] + items;
  }

  /** More bytes pending. */
  lemma TextAppended(a: State, b: string)
    requires a.Small() ==> a.Valid()
    ensures var c := State(Program(a.p.code, a.p.staticBuf + b, a.p.comps), a.start);
            Appended(a, c, Bytes(b)) && (c.Small() ==> c.Valid() && c.Pending() == a.Pending() + b)
  {
    hide Tiles;
    var c := State(Program(a.p.code, a.p.staticBuf + b, a.p.comps), a.start);
    LiteralsOfBytes(b);
    if c.Small() {
      assert c.Pending() == a.Pending() + b;
      BytesConcat(a.Pending(), b);
      assert [] + Bytes(c.Pending()) == Bytes(c.Pending());
    }
  }

  /** The pending run as one instruction. */
  lemma RunAppended(a: State, b: State, ins: Instr)
    requires a.Small() ==> a.Valid() && a.start < |a.p.staticBuf| && b.start == |a.p.staticBuf|
                           && ins == OpStatic(a.start, |a.p.staticBuf| - a.start)
    requires b.p == Program(a.p.code + [ins], a.p.staticBuf, a.p.comps)
    ensures Appended(a, b, [])
    ensures b.Small() ==> b.Valid() && b.Pending() == ""
  {
    assert a.p.staticBuf + "" == a.p.staticBuf;
    if b.Small() {
      TilesFrame(a.p.code, b.p.code, |a.p.code|, a.start);
      RunEmitted(a, b);
    }
  }

  lemma RunEmitted(a: State, b: State)
    requires a.Valid() && b.Valid() && a.start <= |a.p.staticBuf| == b.start && b.Pending() == ""
    requires b.p == Program(a.p.code + [OpStatic(a.start, |a.p.staticBuf| - a.start)], a.p.staticBuf, a.p.comps)
    ensures Emitted(a, b, [])
  {
    var n, end := |a.p.code|, |a.p.staticBuf|;
    assert a.p.staticBuf[a.start..end] == a.Pending();
    assert Decode(b.p, n + 1, n + 1) == [];
    assert Decode(b.p, n, n + 1) == Bytes(a.Pending()) + [];
    assert Bytes(a.Pending()) + [] + Bytes("") == Bytes(a.Pending()) + [];
  }

  lemma InstrKeepsTiles(a: State, ins: Instr)
    requires a.Valid() && !ins.OpStatic?
    ensures WithInstr(a, ins).Valid()
  {
    TilesFrame(a.p.code, WithInstr(a, ins).p.code, |a.p.code|, a.start);
  }

  lemma SameAppended(a: State, b: State, c: State, d: State, items: seq<Item>)
    requires Appended(a, b, []) && Appended(b, c, []) && Appended(c, d, items)
    ensures Appended(a, d, items)
  {
    AppendedThen(a, b, c, [], []);
    AppendedThen(a, c, d, [] + [], items);
    assert [] + [] + items == items;
  }

  /** Interning, flushing, emitting the children, flushing and patching together. */
  lemma ComponentAppended(s0: State, s1: State, s2: State, s4: State, s5: State, ci: nat, kids: seq<Item>)
    requires Appended(s0, s1, []) && Appended(s1, s2, []) && ci < |s1.p.comps|
    requires s2.Small() ==> s2.Valid() && s2.Pending() == ""
    requires Appended(WithInstr(s2, OpComponent(ci, 0)), s4, kids) && Appended(s4, s5, [])
    requires s5.Small() ==> s5.Valid() && s5.Pending() == ""
    ensures var n := |s2.p.code|;
            && n < |s5.p.code| && s5.p.code[n] == OpComponent(ci, 0)
            && Appended(s0, State(s5.p.(code := s5.p.code[n := OpComponent(ci, |s5.p.code|)]), s5.start),
                        [Call(s1.p.comps[ci], kids)])
  {
    hide Appended;
    var n, s3 := |s2.p.code|, WithInstr(s2, OpComponent(ci, 0));
    AppendedKeeps(s1, s2, []);
    AppendedThen(s3, s4, s5, kids, []);
    assert kids + [] == kids;
    AppendedKeeps(s3, s5, kids);
    assert s5.p.code[n] == s5.p.code[..n + 1][n];
    CallAppended(s2, ci, s5, kids);
    SameAppended(s0, s1, s2, State(s5.p.(code := s5.p.code[n := OpComponent(ci, |s5.p.code|)]), s5.start),
                 [Call(s1.p.comps[ci], kids)]);
  }

  class Bytecode {
    var code: seq<nat>
    var staticBuf: string
    var comps: seq<string>
    var stStart: nat
    var stLen: nat
    /** The code before packing. */
    ghost var ideal: seq<Instr>

    ghost function St(): State
      reads this
    {
      State(Program(ideal, staticBuf, comps), stStart)
    }

    /** The 32-bit counters describe the pending run as long as they can. */
    ghost predicate Valid()
      reads this
    {
      && code == EncodeAll(ideal)
      && (|staticBuf| < U32 ==> St().Valid() && stLen == |staticBuf| - stStart)
    }

    /** Every name was interned for an instruction. */
    ghost predicate Interned()
      reads this
    {
      |comps| <= |ideal|
    }

    constructor ()
      ensures Interned()
      ensures Valid() && St() == State(Program([], "", []), 0)
    {
      code, staticBuf, comps, stStart, stLen := [], "", [], 0, 0;
      ideal := [];
    }

    /** Interns a name. */
    method AddComp(name: string) returns (index: nat)
      requires Valid()
      modifies this`comps
      ensures Valid()
      ensures index < |comps| && comps[index] == name
      ensures comps == if name in old(comps) then old(comps) else old(comps) + [name]
      ensures Appended(old(St()), St(), [])
    {
      AppendedNothing(St());
      for i := 0 to |comps|
        invariant name !in comps[..i]
      {
        if comps[i] == name {
          return i;
        }
      }
      comps := comps + [name];
      index := |comps| - 1;
    }

    method AppendStatic(b: string)
      requires Valid()
      modifies this`staticBuf, this`stLen
      ensures Valid()
      ensures Appended(old(St()), St(), Bytes(b))
    {
      hide Appended, Bytes, Tiles, EncodeAll;
      TextAppended(St(), b);
      staticBuf := staticBuf + b;
      stLen := (stLen + |b| % U32) % U32;
    }

    /** Turns the pending run into one instruction. */
    method FlushStatic()
      requires Valid()
      modifies this`code, this`ideal, this`stStart, this`stLen
      ensures Valid()
      ensures Appended(old(St()), St(), [])
      ensures |staticBuf| < U32 ==> St().Pending() == ""
      ensures |ideal| >= old(|ideal|)
    {
      hide Appended, Tiles, Inst, Bytes;
      ghost var before := St();
      AppendedNothing(before);
      if stLen == 0 {
        return;
      }
      code := code + [Inst(0, stStart % U32, stLen % U32)];
      ideal := ideal + [OpStatic(stStart, stLen)];
      stStart := (stStart + stLen) % U32;
      stLen := 0;
      RunAppended(before, St(), ideal[|ideal| - 1]);
    }

    /** Flushes, then appends a dynamic instruction. */
    method Dynamic(ins: Instr) returns (ghost flushed: State)
      requires Valid()
      modifies this`code, this`ideal, this`stStart, this`stLen
      ensures St() == WithInstr(flushed, ins)
      ensures Appended(old(St()), flushed, [])
      ensures flushed.Small() ==> flushed.Valid() && flushed.Pending() == ""
      ensures !ins.OpStatic? ==> Valid()
      ensures |ideal| > old(|ideal|)
    {
      hide Appended, Tiles, Encode, Bytes;
      FlushStatic();
      flushed := St();
      code := code + [Encode(ins)];
      ideal := ideal + [ins];
      if !ins.OpStatic? && |staticBuf| < U32 {
        InstrKeepsTiles(flushed, ins);
      }
    }

    /** Emits node `i` and its subtree. */
    method Emit(s: NodeStream, i: nat)
      requires s.WellFormed() && i < s.Count() && Interned() && Valid()
      modifies this
      ensures Valid() && Interned()
      ensures Appended(old(St()), St(), ItemsOf(s, i))
      decreases Remaining(s, i), 2
    {
      var flags := s.flags[i];
      if Has(flags, FLAG_TEXT) {
        EmitText(s, i);
      } else if Has(flags, FLAG_COMPONENT) {
        EmitComponent(s, i);
      } else if Has(flags, FLAG_VOID | FLAG_SELF_CLOSING) {
        AppendOpenTag(s, i, true);
      } else if Has(flags, FLAG_FRAGMENT) {
        EmitChildren(s, i);
      } else {
        EmitElement(s, i);
      }
    }

    method EmitText(s: NodeStream, i: nat)
      requires s.WellFormed() && i < s.Count() && Valid()
      modifies this`staticBuf, this`stLen
      ensures Valid()
      ensures Appended(old(St()), St(), Bytes(TextHTML(s, i)))
    {
      var txt := s.Text(i);
      if |txt| == 0 {
        AppendedNothing(St());
        assert Bytes(TextHTML(s, i)) == [];
        return;
      }
      if Has(s.flags[i], FLAG_RAW) {
        AppendStatic(txt);
      } else {
        var escaped := EscapeAppend("", txt);
        assert escaped == Escape(txt);
        AppendStatic(escaped);
      }
    }

    /** The call comes first; its end is patched in once the children, and the
        static bytes they left pending, are out. */
    method EmitComponent(s: NodeStream, i: nat)
      requires s.WellFormed() && i < s.Count() && Interned() && Valid()
      modifies this
      ensures Valid() && Interned()
      ensures Appended(old(St()), St(), [Call(s.componentName[i], KidItems(s, s.firstChild[i]))])
      decreases Remaining(s, i), 1, 1
    {
      hide KidItems, Inst, Appended, EncodeAll;
      ghost var kids := KidItems(s, s.firstChild[i]);
      ghost var s0 := St();
      var ci := AddComp(s.componentName[i]);
      ghost var s1 := St();
      ghost var s2 := Dynamic(OpComponent(ci, 0));
      var start := |code| - 1;
      EmitChildren(s, i);
      ghost var s4 := St();
      FlushStatic();
      ComponentAppended(s0, s1, s2, s4, St(), ci, kids);
      Patch(start, ci);
    }

    /** Back-patches a call's end, which is the current end of the code. */
    method Patch(start: nat, ci: nat)
      requires Valid() && start < |ideal| && ideal[start].OpComponent?
      modifies this`code, this`ideal
      ensures Valid()
      ensures ideal == old(ideal)[start := OpComponent(ci, |old(ideal)|)]
    {
      code := code[start := Inst(1, ci % U32, |code| % U32)];
      ideal := ideal[start := OpComponent(ci, |ideal|)];
      if |staticBuf| < U32 {
        TilesFrame(old(ideal), ideal, |ideal|, stStart);
      }
    }

    method EmitElement(s: NodeStream, i: nat)
      requires s.WellFormed() && i < s.Count() && Interned() && Valid()
      modifies this
      ensures Valid() && Interned()
      ensures Appended(old(St()), St(), Bytes(OpenTagHTML(s, i, false)) + KidItems(s, s.firstChild[i])
                                        + Bytes(CloseTagHTML(s.tag[i])))
      decreases Remaining(s, i), 1, 1
    {
      ghost var s0 := St();
      AppendOpenTag(s, i, false);
      ghost var s1 := St();
      EmitChildren(s, i);
      ghost var s2 := St();
      AppendStatic("</" + s.tag[i] + ">");
      ghost var open, kids := Bytes(OpenTagHTML(s, i, false)), KidItems(s, s.firstChild[i]);
      AppendedThen(s0, s1, s2, open, kids);
      AppendedThen(s0, s2, St(), open + kids, Bytes(CloseTagHTML(s.tag[i])));
    }

    /** Emits the children of node `i`; slot wrappers are marked with their name. */
    method EmitChildren(s: NodeStream, i: nat)
      requires s.WellFormed() && i < s.Count() && Interned() && Valid()
      modifies this
      ensures Valid() && Interned()
      ensures Appended(old(St()), St(), KidItems(s, s.firstChild[i]))
      decreases Remaining(s, i), 1, 0
    {
      var c := s.firstChild[i];
      ghost var all, done := KidItems(s, c), [];
      AppendedNothing(St());
      assert done + all == all;
      while c != -1
        invariant IsLink(s, c) && (c == -1 || i < c)
        invariant Valid() && Interned()
        invariant done + KidItems(s, c) == all
        invariant Appended(old(St()), St(), done)
        decreases Remaining(s, c)
      {
        ghost var before := St();
        if s.IsSlot(c) {
          EmitSlot(s, c);
        } else {
          Emit(s, c);
        }
        AppendedThen(old(St()), before, St(), done, KidItem(s, c));
        Assoc(done, KidItem(s, c), KidItems(s, s.nextSibling[c]));
        done := done + KidItem(s, c);
        c := s.nextSibling[c];
      }
      assert done + [] == done;
    }

    method EmitSlot(s: NodeStream, c: nat)
      requires s.WellFormed() && c < s.Count() && Interned() && Valid()
      modifies this
      ensures Valid() && Interned()
      ensures Appended(old(St()), St(), [Open(s.componentName[c])] + SlotItems(s, s.firstChild[c]) + [Close])
      decreases Remaining(s, c), 1, 0
    {
      ghost var s0 := St();
      var si := AddComp(s.componentName[c]);
      ghost var s1 := St();
      Marker(OpSlotBegin(si), Open(s.componentName[c]));
      ghost var s2 := St();
      AppendedThen(s0, s1, s2, [], [Open(s.componentName[c])]);
      assert [] + [Open(s.componentName[c])] == [Open(s.componentName[c])];
      EmitSlotContent(s, c);
      ghost var s3 := St();
      ghost var content := SlotItems(s, s.firstChild[c]);
      AppendedThen(s0, s2, s3, [Open(s.componentName[c])], content);
      Marker(OpSlotEnd, Close);
      AppendedThen(s0, s3, St(), [Open(s.componentName[c])] + content, [Close]);
    }

    method Marker(ins: Instr, ghost item: Item)
      requires Valid()
      requires match ins
        case OpSlotBegin(slot) => slot < |comps| && item == Open(comps[slot])
        case OpSlotEnd => item == Close
        case _ => false
      modifies this`code, this`ideal, this`stStart, this`stLen
      ensures Valid()
      ensures Appended(old(St()), St(), [item])
      ensures |ideal| > old(|ideal|)
    {
      ghost var s0 := St();
      ghost var flushed := Dynamic(ins);
      assert flushed.p.comps == comps;
      MarkerAppended(flushed, ins, item);
      AppendedThen(s0, flushed, St(), [], [item]);
      assert [] + [item] == [item];
    }

    method EmitSlotContent(s: NodeStream, c: nat)
      requires s.WellFormed() && c < s.Count() && Interned() && Valid()
      modifies this
      ensures Valid() && Interned()
      ensures Appended(old(St()), St(), SlotItems(s, s.firstChild[c]))
      decreases Remaining(s, c), 0
    {
      var gc := s.firstChild[c];
      ghost var all, done := SlotItems(s, gc), [];
      AppendedNothing(St());
      assert done + all == all;
      while gc != -1
        invariant IsLink(s, gc) && (gc == -1 || c < gc)
        invariant Valid() && Interned()
        invariant done + SlotItems(s, gc) == all
        invariant Appended(old(St()), St(), done)
        decreases Remaining(s, gc)
      {
        ghost var before := St();
        Emit(s, gc);
        AppendedThen(old(St()), before, St(), done, ItemsOf(s, gc));
        Assoc(done, ItemsOf(s, gc), SlotItems(s, s.nextSibling[gc]));
        done := done + ItemsOf(s, gc);
        gc := s.nextSibling[gc];
      }
      assert done + [] == done;
    }

    /** The whole stream, with nothing left pending. */
    method EmitProgram(s: NodeStream)
      requires s.WellFormed() && Interned() && Valid()
      modifies this
      ensures Valid() && Interned()
      ensures Appended(old(St()), St(), ProgramItems(s))
      ensures |staticBuf| < U32 ==> St().Pending() == ""
    {
      hide Appended, Tiles, Literals, ItemsOf, EncodeAll;
      ghost var s0 := St();
      if s.Count() > 0 {
        Emit(s, 0);
      } else {
        AppendedNothing(s0);
      }
      ghost var s1 := St();
      FlushStatic();
      AppendedThen(s0, s1, St(), ProgramItems(s), []);
      assert ProgramItems(s) + [] == ProgramItems(s);
    }

    method AppendOpenTag(s: NodeStream, i: nat, self: bool)
      requires s.WellFormed() && i < s.Count() && Valid()
      modifies this`staticBuf, this`stLen
      ensures Valid()
      ensures Appended(old(St()), St(), Bytes(OpenTagHTML(s, i, self)))
    {
      var tag := TagWithAttrs(s, i);
      AppendStatic(tag + if self then "/>" else ">");
    }
  }

  method TagWithAttrs(s: NodeStream, i: nat) returns (tag: string)
    requires s.WellFormed() && i < s.Count()
    ensures tag == "<" + s.tag[i] + AttrsHTML(s, i, s.NumAttr(i))
  {
    ghost var open := "<" + s.tag[i];
    tag := "<" + s.tag[i];
    assert open + "" == open;
    for k := 0 to s.NumAttr(i)
      invariant tag == open + AttrsHTML(s, i, k)
    {
      AttrsUnfold(s, i, k, open);
      tag := AppendAttr(tag, s, i, k);
    }
  }

  method AppendAttr(dst: string, s: NodeStream, i: nat, k: nat) returns (r: string)
    requires s.TablesInBounds() && i < s.Count() && k < s.NumAttr(i)
    ensures r == dst + AttrHTML(s, i, k)
  {
    var key, val := s.AttrKey(i, k), s.AttrVal(i, k);
    r := dst + " ";
    r := r + key;
    Assoc(dst, " ", key);
    if val.NoValue? {
      return;
    }
    r := r + "=\"";
    r := EscapeAppend(r, Stringify(val));
    r := r + "\"";
    AttrInPieces(dst, key, Escape(Stringify(val)));
  }

  /** Compiles a stream. The packed code decodes to the program's items, its
      static ranges tile the buffer and its component ranges nest; what is
      needed is that 32 bits can count the static bytes. */
  method CompileBytecode(s: NodeStream) returns (bc: Bytecode)
    requires s.WellFormed()
    ensures fresh(bc)
    ensures bc.code == EncodeAll(bc.ideal)
    ensures bc.staticBuf == Literals(ProgramItems(s))
    ensures |bc.comps| <= |bc.ideal|
    ensures |bc.staticBuf| < U32 ==>
      var p := Program(bc.ideal, bc.staticBuf, bc.comps);
      && InBounds(p, 0, |p.code|)
      && Decode(p, 0, |p.code|) == ProgramItems(s)
      && Tiles(p.code, |p.code|, |p.staticBuf|)
  {
    hide Appended, Emitted, Tiles, InBounds, Decode, Literals, ProgramItems, EncodeAll;
    bc := new Bytecode();
    ghost var start := bc.St();
    bc.EmitProgram(s);
    Finished(start, bc.St(), ProgramItems(s));
  }

  /** A program built from nothing, with nothing pending. */
  lemma Finished(a: State, b: State, items: seq<Item>)
    requires a == State(Program([], "", []), 0) && Appended(a, b, items)
    requires b.Small() ==> b.Valid() && b.Pending() == ""
    ensures b.p.staticBuf == Literals(items)
    ensures b.Small() ==>
      && InBounds(b.p, 0, |b.p.code|) && Decode(b.p, 0, |b.p.code|) == items
      && Tiles(b.p.code, |b.p.code|, |b.p.staticBuf|)
  {
    assert "" + Literals(items) == Literals(items);
    if b.Small() {
      EmittedFlushed(a, b, items);
      assert b.start == |b.p.staticBuf|;
    }
  }
}
