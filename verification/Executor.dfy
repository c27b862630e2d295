/** The bytecode executor (bytecode.go) and what it writes. */
module Executor {
  import opened Sequences
  import opened Escaping
  import opened TreeWalk
  import opened Instructions

  // ------------------------------------------------------------------------
  // What items write
  // ------------------------------------------------------------------------

  /** In the main stream, slot markers are ignored. */
  ghost function RunHTML(items: seq<Item>, reg: Registry): string {
    if items == [] then "" else ItemHTML(items[0], reg) + RunHTML(items[1..], reg)
  }

  ghost function ItemHTML(item: Item, reg: Registry): string {
    match item
    case Byte(c) => [c]
    case Call(name, kids) =>
      var acc := CollectItems(kids, reg, EMPTY_ACC).Flush();
      Dispatch(reg, name, acc.children, acc.slots)
    case _ => ""
  }

  /** The state of collecting a component's children. */
  datatype Acc = Acc(children: Children, slots: Slots, cur: string, curName: string) {
    function Flush(): Acc {
      if cur == "" then this.(curName := "")
      else if curName == "" then Acc(children + [cur], slots, "", "")
      else Acc(children, slots[curName := SlotText(slots, curName) + cur], "", "")
    }

    function Append(s: string): Acc {
      this.(cur := cur + s)
    }
  }

  const EMPTY_ACC := Acc([], map[], "", "")

  /** Inside a component, a nested component is not dispatched: its own children
      run in its place. */
  ghost function CollectItems(items: seq<Item>, reg: Registry, acc: Acc): Acc {
    if items == [] then acc else CollectItems(items[1..], reg, Step(items[0], reg, acc))
  }

  ghost function Step(item: Item, reg: Registry, acc: Acc): Acc {
    match item
    case Byte(c) => acc.Append([c])
    case Call(_, kids) => acc.Append(RunHTML(kids, reg))
    case Open(name) => acc.Flush().(curName := name)
    case Close => acc.Flush()
  }

  lemma {:induction false} RunConcat(a: seq<Item>, b: seq<Item>, reg: Registry)
    ensures RunHTML(a + b, reg) == RunHTML(a, reg) + RunHTML(b, reg)
    decreases |a|
  {
    if a == [] {
      assert a + b == b;
    } else {
      assert (a + b)[1..] == a[1..] + b;
      RunConcat(a[1..], b, reg);
      Assoc(ItemHTML(a[0], reg), RunHTML(a[1..], reg), RunHTML(b, reg));
    }
  }

  lemma {:induction false} RunBytes(s: string, reg: Registry)
    ensures RunHTML(Bytes(s), reg) == s
  {
    if s != "" {
      assert Bytes(s)[1..] == Bytes(s[1..]);
      RunBytes(s[1..], reg);
    }
  }

  lemma RunSingle(item: Item, reg: Registry)
    ensures RunHTML([item], reg) == ItemHTML(item, reg)
  {
    assert [item][1..] == [];
  }

  lemma {:induction false} CollectConcat(a: seq<Item>, b: seq<Item>, reg: Registry, acc: Acc)
    ensures CollectItems(a + b, reg, acc) == CollectItems(b, reg, CollectItems(a, reg, acc))
    decreases |a|
  {
    if a == [] {
      assert a + b == b;
    } else {
      assert (a + b)[1..] == a[1..] + b;
      CollectConcat(a[1..], b, reg, Step(a[0], reg, acc));
    }
  }

  lemma {:induction false} CollectBytes(s: string, reg: Registry, acc: Acc)
    ensures CollectItems(Bytes(s), reg, acc) == acc.Append(s)
    decreases |s|
  {
    if s == "" {
      assert acc.cur + "" == acc.cur;
    } else {
      assert Bytes(s)[1..] == Bytes(s[1..]);
      CollectBytes(s[1..], reg, acc.Append([s[0]]));
      Assoc(acc.cur, [s[0]], s[1..]);
      assert [s[0]] + s[1..] == s;
    }
  }

  lemma BytesThen(text: string, rest: seq<Item>, reg: Registry, acc: Acc)
    ensures CollectItems(Bytes(text) + rest, reg, acc) == CollectItems(rest, reg, acc.Append(text))
    ensures RunHTML(Bytes(text) + rest, reg) == text + RunHTML(rest, reg)
  {
    hide CollectItems, RunHTML, Bytes;
    CollectConcat(Bytes(text), rest, reg, acc);
    CollectBytes(text, reg, acc);
    RunConcat(Bytes(text), rest, reg);
    RunBytes(text, reg);
  }

  /** A component nested under another is not dispatched: the outer one gets what the
      inner one's children write, as if it stood there in plain bytes. */
  lemma NestedIsInlined(name: string, before: seq<Item>, inner: string, kids: seq<Item>, after: seq<Item>,
                        reg: Registry)
    ensures RunHTML([Call(name, before + [Call(inner, kids)] + after)], reg)
         == RunHTML([Call(name, before + Bytes(RunHTML(kids, reg)) + after)], reg)
  {
    var nested, plain := [Call(inner, kids)], Bytes(RunHTML(kids, reg));
    RunSingle(Call(name, before + nested + after), reg);
    RunSingle(Call(name, before + plain + after), reg);
    CollectConcat(before + nested, after, reg, EMPTY_ACC);
    CollectConcat(before + plain, after, reg, EMPTY_ACC);
    CollectConcat(before, nested, reg, EMPTY_ACC);
    CollectConcat(before, plain, reg, EMPTY_ACC);
    var acc := CollectItems(before, reg, EMPTY_ACC);
    CollectBytes(RunHTML(kids, reg), reg, acc);
    assert nested[1..] == [];
  }

  // ------------------------------------------------------------------------
  // The executor
  // ------------------------------------------------------------------------

  /** The program the executor reads out of packed words. */
  ghost function Fetched(code: seq<nat>, staticBuf: string, comps: seq<string>): (p: Program)
    ensures |p.code| == |code| && p.staticBuf == staticBuf && p.comps == comps
  {
    Program(seq(|code|, k requires 0 <= k < |code| => Fetch(code[k])), staticBuf, comps)
  }

  class VM {
    const code: seq<nat>
    const staticBuf: string
    const comps: seq<string>
    const reg: Registry

    constructor (code: seq<nat>, staticBuf: string, comps: seq<string>, reg: Registry)
      ensures this.code == code && this.staticBuf == staticBuf && this.comps == comps && this.reg == reg
    {
      this.code, this.staticBuf, this.comps, this.reg := code, staticBuf, comps, reg;
    }

    ghost function P(): (p: Program)
      ensures |p.code| == |code| && p.staticBuf == staticBuf && p.comps == comps
    {
      Fetched(code, staticBuf, comps)
    }

    /** Unpacks one instruction. */
    method Read(i: nat) returns (ins: Instr)
      requires i < |code|
      ensures ins == P().code[i]
    {
      var w := code[i];
      match OpOf(w)
      case 0 => ins := OpStatic(Arg1(w), Arg2(w));
      case 1 => ins := OpComponent(Arg1(w), Arg2(w));
      case 2 => ins := OpSlotBegin(Arg1(w));
      case _ => ins := OpSlotEnd;
    }

    /** Runs [start, end). */
    method Run(start: nat, end: nat, w: Sink)
      requires start <= end <= |code| && InBounds(P(), start, end)
      modifies w
      ensures w.out == old(w.out) + RunHTML(Decode(P(), start, end), reg)
      decreases end - start, 2
    {
      var i := start;
      ghost var all := RunHTML(Decode(P(), start, end), reg);
      while i < end
        invariant start <= i <= end && InBounds(P(), i, end)
        invariant w.out + RunHTML(Decode(P(), i, end), reg) == old(w.out) + all
        decreases end - i
      {
        i := RunOne(i, end, w);
      }
      assert w.out + "" == w.out;
    }

    /** Runs the instruction at `i` and says where to go on. */
    method RunOne(i: nat, end: nat, w: Sink) returns (next: nat)
      requires i < end <= |code| && InBounds(P(), i, end)
      modifies w
      ensures i < next <= end && InBounds(P(), next, end)
      ensures w.out + RunHTML(Decode(P(), next, end), reg) == old(w.out) + RunHTML(Decode(P(), i, end), reg)
      decreases end - i, 1
    {
      hide RunHTML, Decode, CollectItems, Fetch;
      var ins := Read(i);
      match ins
      case OpStatic(a, b) =>
        RunStatic(i, end, w.out);
        w.Write(staticBuf[a..a + b]);
        next := i + 1;
      case OpComponent(a, b) =>
        RunCall(i, end, w.out);
        var children, slots := CollectChildren(i + 1, b);
        w.Write(Dispatch(reg, comps[a], children, slots));
        next := b;
      case _ =>
        RunMarker(i, end);
        next := i + 1;
    }

    /** Renders [start, end) into plain children and named slots. */
    method CollectChildren(start: nat, end: nat) returns (children: Children, slots: Slots)
      requires start <= end <= |code| && InBounds(P(), start, end)
      ensures var acc := CollectItems(Decode(P(), start, end), reg, EMPTY_ACC).Flush();
              children == acc.children && slots == acc.slots
      decreases end - start, 2
    {
      var acc := EMPTY_ACC;
      ghost var all := CollectItems(Decode(P(), start, end), reg, EMPTY_ACC);
      var i := start;
      while i < end
        invariant start <= i <= end && InBounds(P(), i, end)
        invariant CollectItems(Decode(P(), i, end), reg, acc) == all
        decreases end - i
      {
        i, acc := CollectOne(i, end, acc);
      }
      acc := acc.Flush();
      return acc.children, acc.slots;
    }

    method CollectOne(i: nat, end: nat, acc: Acc) returns (next: nat, r: Acc)
      requires i < end <= |code| && InBounds(P(), i, end)
      ensures i < next <= end && InBounds(P(), next, end)
      ensures CollectItems(Decode(P(), next, end), reg, r) == CollectItems(Decode(P(), i, end), reg, acc)
      decreases end - i, 1
    {
      hide RunHTML, Decode, CollectItems, Fetch;
      var ins := Read(i);
      match ins
      case OpStatic(a, b) =>
        CollectStatic(i, end, acc);
        next, r := i + 1, acc.Append(staticBuf[a..a + b]);
      case OpComponent(_, b) =>
        var bw := new Sink();
        Run(i + 1, b, bw);
        assert bw.out == RunHTML(Decode(P(), i + 1, b), reg);
        CollectCall(i, end, acc);
        next, r := b, acc.Append(bw.out);
      case OpSlotBegin(slot) =>
        CollectMarker(i, end, acc);
        next, r := i + 1, acc.Flush().(curName := comps[slot]);
      case OpSlotEnd =>
        CollectMarker(i, end, acc);
        next, r := i + 1, acc.Flush();
    }

    lemma RunStatic(i: nat, end: nat, out: string)
      requires i < end <= |code| && InBounds(P(), i, end) && P().code[i].OpStatic?
      ensures var OpStatic(a, b) := P().code[i];
              out + RunHTML(Decode(P(), i, end), reg)
              == (out + staticBuf[a..a + b]) + RunHTML(Decode(P(), i + 1, end), reg)
    {
      hide RunHTML, Bytes;
      var OpStatic(a, b) := P().code[i];
      var text, rest := staticBuf[a..a + b], Decode(P(), i + 1, end);
      BytesThen(text, rest, reg, EMPTY_ACC);
      Assoc(out, text, RunHTML(rest, reg));
    }

    lemma RunCall(i: nat, end: nat, out: string)
      requires i < end <= |code| && InBounds(P(), i, end) && P().code[i].OpComponent?
      ensures var OpComponent(a, b) := P().code[i];
              var acc := CollectItems(Decode(P(), i + 1, b), reg, EMPTY_ACC).Flush();
              out + RunHTML(Decode(P(), i, end), reg)
              == (out + Dispatch(reg, comps[a], acc.children, acc.slots)) + RunHTML(Decode(P(), b, end), reg)
    {
      var OpComponent(a, b) := P().code[i];
      var call, rest := Call(comps[a], Decode(P(), i + 1, b)), Decode(P(), b, end);
      RunConcat([call], rest, reg);
      RunSingle(call, reg);
      Assoc(out, ItemHTML(call, reg), RunHTML(rest, reg));
    }

    lemma RunMarker(i: nat, end: nat)
      requires i < end <= |code| && InBounds(P(), i, end)
      requires P().code[i].OpSlotBegin? || P().code[i].OpSlotEnd?
      ensures RunHTML(Decode(P(), i, end), reg) == RunHTML(Decode(P(), i + 1, end), reg)
    {
      var rest := Decode(P(), i + 1, end);
      var marker := Decode(P(), i, end)[0];
      RunConcat([marker], rest, reg);
      RunSingle(marker, reg);
    }

    lemma CollectStatic(i: nat, end: nat, acc: Acc)
      requires i < end <= |code| && InBounds(P(), i, end) && P().code[i].OpStatic?
      ensures var OpStatic(a, b) := P().code[i];
              CollectItems(Decode(P(), i, end), reg, acc)
              == CollectItems(Decode(P(), i + 1, end), reg, acc.Append(staticBuf[a..a + b]))
    {
      var OpStatic(a, b) := P().code[i];
      hide CollectItems, Bytes;
      BytesThen(staticBuf[a..a + b], Decode(P(), i + 1, end), reg, acc);
    }

    lemma CollectCall(i: nat, end: nat, acc: Acc)
      requires i < end <= |code| && InBounds(P(), i, end) && P().code[i].OpComponent?
      ensures var OpComponent(_, b) := P().code[i];
              CollectItems(Decode(P(), i, end), reg, acc)
              == CollectItems(Decode(P(), b, end), reg, acc.Append(RunHTML(Decode(P(), i + 1, b), reg)))
    {
      assert Decode(P(), i, end)[1..] == Decode(P(), P().code[i].end, end);
    }

    lemma CollectMarker(i: nat, end: nat, acc: Acc)
      requires i < end <= |code| && InBounds(P(), i, end)
      requires P().code[i].OpSlotBegin? || P().code[i].OpSlotEnd?
      ensures CollectItems(Decode(P(), i, end), reg, acc)
              == CollectItems(Decode(P(), i + 1, end), reg,
                   match P().code[i]
                   case OpSlotBegin(slot) => acc.Flush().(curName := comps[slot])
                   case _ => acc.Flush())
    {
      assert Decode(P(), i, end)[1..] == Decode(P(), i + 1, end);
    }
  }

  method Exec(code: seq<nat>, staticBuf: string, comps: seq<string>, reg: Registry, w: Sink)
    requires InBounds(Fetched(code, staticBuf, comps), 0, |code|)
    modifies w
    ensures w.out == old(w.out) + RunHTML(Decode(Fetched(code, staticBuf, comps), 0, |code|), reg)
  {
    var vm := new VM(code, staticBuf, comps, reg);
    vm.Run(0, |code|, w);
  }
}
