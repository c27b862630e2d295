/** What 24 bits for the second operand lose (bytecode.go): exactly the programs
    with a longer static run write something else. */
module Packing {
  import opened Sequences
  import opened NodeStreams
  import opened TreeWalk
  import opened Instructions
  import opened Compiler
  import opened Executor
  import opened Agreement

  // ------------------------------------------------------------------------
  // Components that lose nothing
  // ------------------------------------------------------------------------

  /** The bytes in all slots together. */
  ghost function Total(slots: Slots): nat
    decreases |slots|
  {
    if slots == map[] then 0
    else
      var name :| name in slots;
      |slots[name]| + Total(slots - {name})
  }

  ghost function Filler(n: nat): (s: string)
    ensures |s| == n
  {
    seq(n, _ => 'x')
  }

  /** Each component writes its children, and as many bytes as its slots hold. */
  ghost function Echo(names: set<string>): Registry {
    map name | name in names :: (children: Children, slots: Slots) => Concat(children) + Filler(Total(slots))
  }

  lemma {:induction false} TotalWithout(slots: Slots, name: string)
    requires name in slots
    ensures Total(slots) == |slots[name]| + Total(slots - {name})
    decreases |slots|
  {
    var first :| first in slots && Total(slots) == |slots[first]| + Total(slots - {first});
    if first != name {
      TotalWithout(slots - {first}, name);
      TotalWithout(slots - {name}, first);
      assert slots - {first} - {name} == slots - {name} - {first};
    }
  }

  lemma TotalAppend(slots: Slots, name: string, s: string)
    ensures Total(slots[name := SlotText(slots, name) + s]) == Total(slots) + |s|
  {
    var slots' := slots[name := SlotText(slots, name) + s];
    TotalWithout(slots', name);
    if name in slots {
      TotalWithout(slots, name);
      assert slots' - {name} == slots - {name};
    } else {
      assert slots' - {name} == slots;
    }
  }

  /** The bytes an accumulator holds. */
  ghost function AccSize(acc: Acc): nat {
    |Concat(acc.children)| + Total(acc.slots) + |acc.cur|
  }

  lemma FlushKeepsSize(acc: Acc)
    ensures AccSize(acc.Flush()) == AccSize(acc) && acc.Flush().cur == ""
  {
    ConcatSnoc(acc.children, acc.cur);
    TotalAppend(acc.slots, acc.curName, acc.cur);
  }

  /** Every component has one of the names. */
  ghost predicate Named(items: seq<Item>, names: set<string>) {
    items == [] ||
    (Named(items[1..], names) && (items[0].Call? ==> items[0].name in names && Named(items[0].kids, names)))
  }

  /** With such components the executor writes as many bytes as the program has
      literal ones, slots and nested components included. */
  lemma {:induction false} EchoLength(items: seq<Item>, names: set<string>)
    requires Named(items, names)
    ensures |RunHTML(items, Echo(names))| == |Literals(items)|
    decreases items, 1
  {
    if items != [] {
      EchoLength(items[1..], names);
      if items[0].Call? {
        var acc := CollectItems(items[0].kids, Echo(names), EMPTY_ACC);
        EchoCollects(items[0].kids, names, EMPTY_ACC);
        FlushKeepsSize(acc);
      }
    }
  }

  lemma {:induction false} EchoCollects(items: seq<Item>, names: set<string>, acc: Acc)
    requires Named(items, names)
    ensures AccSize(CollectItems(items, Echo(names), acc)) == AccSize(acc) + |Literals(items)|
    decreases items, 0
  {
    if items != [] {
      FlushKeepsSize(acc);
      if items[0].Call? {
        EchoLength(items[0].kids, names);
      }
      EchoCollects(items[1..], names, Step(items[0], Echo(names), acc));
    }
  }

  // ------------------------------------------------------------------------
  // How many bytes a program has
  // ------------------------------------------------------------------------

  ghost function StaticBytes(code: seq<Instr>, lo: nat, hi: nat): nat
    requires lo <= hi <= |code|
    decreases hi - lo
  {
    if lo == hi then 0
    else (if code[lo].OpStatic? then code[lo].len else 0) + StaticBytes(code, lo + 1, hi)
  }

  lemma {:induction false} StaticBytesSplit(code: seq<Instr>, lo: nat, mid: nat, hi: nat)
    requires lo <= mid <= hi <= |code|
    ensures StaticBytes(code, lo, hi) == StaticBytes(code, lo, mid) + StaticBytes(code, mid, hi)
    decreases mid - lo
  {
    if lo < mid {
      StaticBytesSplit(code, lo + 1, mid, hi);
    }
  }

  lemma NoLiterals()
    ensures Literals([]) == ""
  {
  }

  lemma LiteralRun(run: string, rest: seq<Item>)
    ensures |Literals(Bytes(run) + rest)| == |run| + |Literals(rest)|
  {
    LiteralsOfBytes(run);
    LiteralsConcat(Bytes(run), rest);
  }

  lemma LiteralItem(item: Item, rest: seq<Item>)
    requires !item.Byte?
    ensures |Literals([item] + rest)| == (if item.Call? then |Literals(item.kids)| else 0) + |Literals(rest)|
  {
    assert ([item] + rest)[1..] == rest;
  }

  /** The static runs of a range are its literal bytes, each run once. */
  lemma {:induction false} LiteralBytes(p: Program, lo: nat, hi: nat)
    requires lo <= hi <= |p.code| && InBounds(p, lo, hi)
    ensures |Literals(Decode(p, lo, hi))| == StaticBytes(p.code, lo, hi)
    decreases hi - lo
  {
    hide Literals, Bytes;
    if lo == hi {
      NoLiterals();
    } else {
      match p.code[lo] {
        case OpStatic(start, len) =>
          LiteralBytes(p, lo + 1, hi);
          LiteralRun(p.staticBuf[start..start + len], Decode(p, lo + 1, hi));
        case OpComponent(_, end) =>
          LiteralBytes(p, lo + 1, end);
          LiteralBytes(p, end, hi);
          StaticBytesSplit(p.code, lo + 1, end, hi);
          LiteralItem(Call(p.comps[p.code[lo].name], Decode(p, lo + 1, end)), Decode(p, end, hi));
        case OpSlotBegin(slot) =>
          LiteralBytes(p, lo + 1, hi);
          LiteralItem(Open(p.comps[slot]), Decode(p, lo + 1, hi));
        case OpSlotEnd =>
          LiteralBytes(p, lo + 1, hi);
          LiteralItem(Close, Decode(p, lo + 1, hi));
      }
    }
  }

  lemma {:induction false} NamedConcat(a: seq<Item>, b: seq<Item>, names: set<string>)
    requires Named(a, names) && Named(b, names)
    ensures Named(a + b, names)
    decreases |a|
  {
    if a == [] {
      assert a + b == b;
    } else {
      assert (a + b)[1..] == a[1..] + b;
      NamedConcat(a[1..], b, names);
    }
  }

  lemma {:induction false} NamedBytes(s: string, names: set<string>)
    ensures Named(Bytes(s), names)
  {
    if s != "" {
      assert Bytes(s)[1..] == Bytes(s[1..]);
      NamedBytes(s[1..], names);
    }
  }

  ghost function NameSet(p: Program): set<string> {
    set name | name in p.comps
  }

  lemma {:induction false} DecodeNamed(p: Program, lo: nat, hi: nat)
    requires lo <= hi <= |p.code| && InBounds(p, lo, hi)
    ensures Named(Decode(p, lo, hi), NameSet(p))
    decreases hi - lo
  {
    if lo < hi {
      match p.code[lo] {
        case OpStatic(start, len) =>
          DecodeNamed(p, lo + 1, hi);
          NamedBytes(p.staticBuf[start..start + len], NameSet(p));
          NamedConcat(Bytes(p.staticBuf[start..start + len]), Decode(p, lo + 1, hi), NameSet(p));
        case OpComponent(_, end) =>
          DecodeNamed(p, lo + 1, end);
          DecodeNamed(p, end, hi);
          assert Decode(p, lo, hi)[1..] == Decode(p, end, hi);
        case _ =>
          DecodeNamed(p, lo + 1, hi);
          assert Decode(p, lo, hi)[1..] == Decode(p, lo + 1, hi);
      }
    }
  }

  // ------------------------------------------------------------------------
  // Packing
  // ------------------------------------------------------------------------

  /** What comes back of an instruction whose other operands fit. */
  function Cut(ins: Instr): Instr {
    match ins
    case OpStatic(start, len) => OpStatic(start, len % U24)
    case _ => ins
  }

  lemma CutComesBack(ins: Instr)
    requires AlmostFits(ins)
    ensures Fetch(Encode(ins)) == Cut(ins)
  {
    hide Inst, OpOf, Arg1, Arg2;
    FetchEncode(ins);
    if ins.OpStatic? {
      InstFields(0, ins.start % U32, ins.len % U32);
      Mod24(ins.len);
    }
  }

  /** The program with every run cut to 24 bits. */
  ghost function CutProgram(p: Program): (q: Program)
    ensures |q.code| == |p.code|
  {
    Program(seq(|p.code|, k requires 0 <= k < |p.code| => Cut(p.code[k])), p.staticBuf, p.comps)
  }

  lemma FetchedIsCut(p: Program)
    requires InBounds(p, 0, |p.code|)
    requires |p.code| < U24 && |p.staticBuf| < U32 && |p.comps| < U32
    ensures Fetched(EncodeAll(p.code), p.staticBuf, p.comps) == CutProgram(p)
  {
    var q := Fetched(EncodeAll(p.code), p.staticBuf, p.comps);
    hide Encode, Fetch, InBounds, Cut, AlmostFits;
    forall k | 0 <= k < |p.code|
      ensures q.code[k] == CutProgram(p).code[k]
    {
      InBoundsAlmostFits(p, 0, |p.code|, k);
      CutComesBack(p.code[k]);
    }
  }

  lemma CutIsShorter(len: nat)
    ensures len % U24 <= len && (len % U24 == len <==> len < U24)
  {
  }

  /** A cut program is as well formed, and has fewer bytes unless all runs are short. */
  lemma {:induction false} CutInBounds(p: Program, lo: nat, hi: nat)
    requires lo <= hi <= |p.code| && InBounds(p, lo, hi)
    ensures InBounds(CutProgram(p), lo, hi)
    decreases hi - lo
  {
    if lo < hi {
      match p.code[lo] {
        case OpStatic(start, len) =>
          CutIsShorter(len);
          CutInBounds(p, lo + 1, hi);
        case OpComponent(_, end) =>
          CutInBounds(p, lo + 1, end);
          CutInBounds(p, end, hi);
        case _ => CutInBounds(p, lo + 1, hi);
      }
    }
  }

  lemma {:induction false} CutLosesBytes(p: Program, lo: nat, hi: nat)
    requires lo <= hi <= |p.code|
    ensures StaticBytes(CutProgram(p).code, lo, hi) <= StaticBytes(p.code, lo, hi)
    ensures StaticBytes(CutProgram(p).code, lo, hi) == StaticBytes(p.code, lo, hi)
            <==> forall k :: lo <= k < hi && p.code[k].OpStatic? ==> p.code[k].len < U24
    decreases hi - lo
  {
    if lo < hi {
      CutLosesBytes(p, lo + 1, hi);
      if p.code[lo].OpStatic? {
        CutIsShorter(p.code[lo].len);
      }
    }
  }

  // ------------------------------------------------------------------------
  // The theorem
  // ------------------------------------------------------------------------

  /** What the executor reads out of the packed program. */
  ghost function Packed(p: Program): Program {
    Fetched(EncodeAll(p.code), p.staticBuf, p.comps)
  }

  /** Executing the packed program writes the stream's meaning, whatever the components. */
  ghost predicate PackingIsSafe(p: Program, s: NodeStream)
    requires s.WellFormed() && InBounds(Packed(p), 0, |p.code|)
  {
    forall reg: Registry :: RunHTML(Decode(Packed(p), 0, |p.code|), reg) == RunHTML(ProgramItems(s), reg)
  }

  /** For every compiled program below 2^24 instructions: the packed code can be
      executed, and it writes what the stream means exactly when every static run
      is shorter than 2^24. */
  lemma PackedExactly(p: Program, s: NodeStream)
    requires s.WellFormed() && IsCompiled(p, s) && |p.code| < U24
    ensures InBounds(Packed(p), 0, |p.code|)
    ensures PackingIsSafe(p, s) <==> Short(p)
  {
    var q, n := CutProgram(p), |p.code|;
    FetchedIsCut(p);
    CutInBounds(p, 0, n);
    if Short(p) {
      ShortIsPacked(p, s);
    } else {
      CutLosesBytes(p, 0, n);
      LiteralBytes(p, 0, n);
      LiteralBytes(q, 0, n);
      DecodeNamed(p, 0, n);
      DecodeNamed(q, 0, n);
      EchoLength(Decode(p, 0, n), NameSet(p));
      EchoLength(Decode(q, 0, n), NameSet(p));
      hide RunHTML, Decode, InBounds, Literals, StaticBytes, Echo;
      assert RunHTML(Decode(q, 0, n), Echo(NameSet(p))) != RunHTML(ProgramItems(s), Echo(NameSet(p)));
    }
  }
}
