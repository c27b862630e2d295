/** Packed instructions and what a range of them stands for (bytecode.go). */
module Instructions {
  import opened Sequences
  import opened Bits

  const U24: nat := 0x100_0000
  const U32: nat := 0x1_0000_0000
  const U40: nat := 0x100_0000_0000

  /** An instruction before packing, with unbounded operands. */
  datatype Instr =
    | OpStatic(start: nat, len: nat)
    | OpComponent(name: nat, end: nat)
    | OpSlotBegin(slot: nat)
    | OpSlotEnd

  /** bytecode.go `inst`: the or of three shifted fields. The top field loses what
      exceeds 64 bits. */
  function Inst(op: nat, a: nat, b: nat): nat
    requires op < 256 && a < U32 && b < U32
  {
    BitOr(BitOr(op, ShiftLeft(a, 8)), ShiftLeft(b, 40) % U64)
  }

  function OpOf(w: nat): nat {
    w % 0x100
  }

  function Arg1(w: nat): nat {
    ShiftRight(w, 8) % U32
  }

  function Arg2(w: nat): nat {
    ShiftRight(w, 40) % U32
  }

  lemma Powers()
    ensures Pow2(8) == 0x100 && Pow2(40) == U40
  {
    hide Pow2;
    PowEight();
    Pow2Add(8, 8);
    Pow2Add(16, 16);
    Pow2Add(32, 8);
  }

  lemma PowEight()
    ensures Pow2(8) == 0x100
  {
    assert Pow2(4) == 0x10;
  }

  /** The fields do not overlap, so their or is a sum. */
  lemma InstIsSum(op: nat, a: nat, b: nat)
    requires op < 256 && a < U32 && b < U32
    ensures Inst(op, a, b) == op + a * 0x100 + b % U24 * U40
  {
    Powers();
    hide Pow2, BitOr, ShiftLeft;
    var q, r := b / U24, b % U24;
    ShiftLeftIsTimes(a, 8);
    ShiftLeftIsTimes(b, 40);
    ShiftLeftIsTimes(r, 40);
    assert b * U40 == q * U64 + r * U40;
    assert (b * U40) % U64 == r * U40;
    OrIsSum(op, a, 8);
    OrIsSum(op + a * 0x100, r, 40);
  }

  /** Only 24 bits of the second operand survive packing. */
  lemma InstFields(op: nat, a: nat, b: nat)
    requires op < 256 && a < U32 && b < U32
    ensures var w := Inst(op, a, b);
            w < U64 && OpOf(w) == op && Arg1(w) == a && Arg2(w) == b % U24
  {
    Powers();
    hide Pow2, Inst, ShiftRight;
    var w, r := Inst(op, a, b), b % U24;
    InstIsSum(op, a, b);
    ShiftRightIsDiv(w, 8);
    ShiftRightIsDiv(w, 40);
  }

  /** How the compiler packs an instruction: operands are cut to 32 bits first. */
  function Encode(ins: Instr): nat {
    match ins
    case OpStatic(start, len) => Inst(0, start % U32, len % U32)
    case OpComponent(name, end) => Inst(1, name % U32, end % U32)
    case OpSlotBegin(slot) => Inst(2, slot % U32, 0)
    case OpSlotEnd => Inst(3, 0, 0)
  }

  /** How the executor reads a word back. No compiled word has another opcode. */
  function Fetch(w: nat): Instr {
    match OpOf(w)
    case 0 => OpStatic(Arg1(w), Arg2(w))
    case 1 => OpComponent(Arg1(w), Arg2(w))
    case 2 => OpSlotBegin(Arg1(w))
    case _ => OpSlotEnd
  }

  /** The operands fit their fields. */
  predicate Fits(ins: Instr) {
    match ins
    case OpStatic(start, len) => start < U32 && len < U24
    case OpComponent(name, end) => name < U32 && end < U24
    case OpSlotBegin(slot) => slot < U32
    case OpSlotEnd => true
  }

  /** Every operand is read back as packed exactly when it fits its field. */
  lemma FetchEncode(ins: Instr)
    ensures Fetch(Encode(ins)) == ins <==> Fits(ins)
  {
    hide Inst, OpOf, Arg1, Arg2;
    match ins
    case OpStatic(start, len) => InstFields(0, start % U32, len % U32); Mod24(len);
    case OpComponent(name, end) => InstFields(1, name % U32, end % U32); Mod24(end);
    case OpSlotBegin(slot) => InstFields(2, slot % U32, 0);
    case OpSlotEnd => InstFields(3, 0, 0);
  }

  lemma Mod24(n: nat)
    ensures n % U32 % U24 == n % U24
    ensures n % U24 == n <==> n < U24
  {
    var q, r := n / U32, n % U32;
    var q', r' := r / U24, r % U24;
    assert n == (q * 256 + q') * U24 + r';
  }

  // ------------------------------------------------------------------------
  // What a range of instructions stands for
  // ------------------------------------------------------------------------

  /** A program read as a tree: output bytes, component calls with their
      children, and slot markers. */
  datatype Item =
    | Byte(c: char)
    | Call(name: string, kids: seq<Item>)
    | Open(name: string)
    | Close

  function Bytes(s: string): (r: seq<Item>)
    ensures |r| == |s|
  {
    seq(|s|, i requires 0 <= i < |s| => Byte(s[i]))
  }

  lemma BytesConcat(a: string, b: string)
    ensures Bytes(a + b) == Bytes(a) + Bytes(b)
  {
  }

  datatype Program = Program(code: seq<Instr>, staticBuf: string, comps: seq<string>)

  /** The range is well formed: operands are in bounds, component ranges point
      strictly forward and nest. */
  ghost predicate InBounds(p: Program, lo: nat, hi: nat)
    requires lo <= hi <= |p.code|
    decreases hi - lo
  {
    lo == hi ||
    match p.code[lo]
    case OpStatic(start, len) => start + len <= |p.staticBuf| && InBounds(p, lo + 1, hi)
    case OpComponent(name, end) =>
      && name < |p.comps|
      && lo < end <= hi
      && InBounds(p, lo + 1, end)
      && InBounds(p, end, hi)
    case OpSlotBegin(slot) => slot < |p.comps| && InBounds(p, lo + 1, hi)
    case OpSlotEnd => InBounds(p, lo + 1, hi)
  }

  ghost function Decode(p: Program, lo: nat, hi: nat): seq<Item>
    requires lo <= hi <= |p.code| && InBounds(p, lo, hi)
    decreases hi - lo
  {
    if lo == hi then []
    else
      match p.code[lo]
      case OpStatic(start, len) => Bytes(p.staticBuf[start..start + len]) + Decode(p, lo + 1, hi)
      case OpComponent(name, end) => [Call(p.comps[name], Decode(p, lo + 1, end))] + Decode(p, end, hi)
      case OpSlotBegin(slot) => [Open(p.comps[slot])] + Decode(p, lo + 1, hi)
      case OpSlotEnd => [Close] + Decode(p, lo + 1, hi)
  }

  /** Where the instructions that belong to the one at `lo` end. */
  function Next(p: Program, lo: nat): nat
    requires lo < |p.code|
  {
    match p.code[lo] case OpComponent(_, end) => end case _ => lo + 1
  }

  lemma FirstInBounds(p: Program, lo: nat, hi: nat)
    requires lo < hi <= |p.code| && InBounds(p, lo, hi)
    ensures lo < Next(p, lo) <= hi && InBounds(p, lo, Next(p, lo)) && InBounds(p, Next(p, lo), hi)
  {
  }

  lemma DecodeFirst(p: Program, lo: nat, hi: nat)
    requires lo < hi <= |p.code| && lo < Next(p, lo) <= hi
    requires InBounds(p, lo, Next(p, lo)) && InBounds(p, Next(p, lo), hi)
    ensures InBounds(p, lo, hi)
    ensures Decode(p, lo, hi) == Decode(p, lo, Next(p, lo)) + Decode(p, Next(p, lo), hi)
  {
    hide Bytes;
    DecodeNone(p, Next(p, lo));
  }

  lemma DecodeNone(p: Program, lo: nat)
    requires lo <= |p.code|
    ensures InBounds(p, lo, lo) && Decode(p, lo, lo) == []
  {
  }

  /** Neighbouring ranges join. */
  lemma {:induction false} DecodeConcat(p: Program, lo: nat, mid: nat, hi: nat)
    requires lo <= mid <= hi <= |p.code| && InBounds(p, lo, mid) && InBounds(p, mid, hi)
    ensures InBounds(p, lo, hi)
    ensures Decode(p, lo, hi) == Decode(p, lo, mid) + Decode(p, mid, hi)
    decreases mid - lo
  {
    hide Decode, InBounds, Next;
    if lo == mid {
      DecodeNone(p, lo);
    } else {
      var next := Next(p, lo);
      FirstInBounds(p, lo, mid);
      DecodeConcat(p, next, mid, hi);
      DecodeFirst(p, lo, mid);
      DecodeFirst(p, lo, hi);
      Assoc(Decode(p, lo, next), Decode(p, next, mid), Decode(p, mid, hi));
    }
  }

  /** `q` has the same instructions in the range, and tables that have only grown. */
  ghost predicate Frames(p: Program, q: Program, lo: nat, hi: nat) {
    && lo <= hi <= |p.code| && hi <= |q.code|
    && (forall k :: lo <= k < hi ==> p.code[k] == q.code[k])
    && p.staticBuf <= q.staticBuf && p.comps <= q.comps
  }

  /** A range keeps its meaning when code is changed elsewhere and tables grow. */
  lemma {:induction false} DecodeFrame(p: Program, q: Program, lo: nat, hi: nat)
    requires Frames(p, q, lo, hi) && InBounds(p, lo, hi)
    ensures InBounds(q, lo, hi)
    ensures Decode(q, lo, hi) == Decode(p, lo, hi)
    decreases hi - lo, 1
  {
    hide Decode, InBounds;
    if lo == hi {
      DecodeNone(p, lo);
      DecodeNone(q, lo);
    } else {
      FirstInBounds(p, lo, hi);
      FirstFrame(p, q, lo);
      DecodeFrame(p, q, Next(p, lo), hi);
      DecodeFirst(p, lo, hi);
      DecodeFirst(q, lo, hi);
    }
  }

  lemma {:induction false} FirstFrame(p: Program, q: Program, lo: nat)
    requires lo < |p.code| && lo < Next(p, lo) && Frames(p, q, lo, Next(p, lo)) && InBounds(p, lo, Next(p, lo))
    ensures InBounds(q, lo, Next(p, lo))
    ensures Decode(q, lo, Next(p, lo)) == Decode(p, lo, Next(p, lo))
    decreases Next(p, lo) - lo, 0
  {
    hide Bytes;
    match p.code[lo] {
      case OpStatic(start, len) =>
        assert p.staticBuf[start..start + len] == q.staticBuf[start..start + len];
      case OpComponent(name, end) =>
        DecodeFrame(p, q, lo + 1, end);
      case _ =>
    }
  }

  // ------------------------------------------------------------------------
  // Tiling
  // ------------------------------------------------------------------------

  /** The static ranges of the first `n` instructions, in program order, cover
      [0, upto) of the buffer without gap, overlap or empty range. */
  ghost predicate Tiles(code: seq<Instr>, n: nat, upto: nat)
    requires n <= |code|
  {
    if n == 0 then upto == 0
    else
      match code[n - 1]
      case OpStatic(start, len) => len > 0 && start + len == upto && Tiles(code, n - 1, start)
      case _ => Tiles(code, n - 1, upto)
  }

  lemma {:induction false} TilesFrame(code: seq<Instr>, code': seq<Instr>, n: nat, upto: nat)
    requires n <= |code| && n <= |code'| && Tiles(code, n, upto)
    requires forall k :: 0 <= k < n ==> code[k] == code'[k] || (code[k].OpComponent? && code'[k].OpComponent?)
    ensures Tiles(code', n, upto)
  {
    if n > 0 {
      match code[n - 1]
      case OpStatic(start, len) => TilesFrame(code, code', n - 1, start);
      case _ => TilesFrame(code, code', n - 1, upto);
    }
  }

  /** Slot markers match up, here and inside every component's range. */
  ghost predicate Balanced(items: seq<Item>, depth: nat) {
    if items == [] then depth == 0
    else
      match items[0]
      case Byte(_) => Balanced(items[1..], depth)
      case Call(_, kids) => Balanced(kids, 0) && Balanced(items[1..], depth)
      case Open(_) => Balanced(items[1..], depth + 1)
      case Close => depth > 0 && Balanced(items[1..], depth - 1)
  }

  /** Joining two runs adds up the slots they close. */
  lemma {:induction false} BalancedThen(a: seq<Item>, d: nat, b: seq<Item>, depth: nat)
    requires Balanced(a, d) && Balanced(b, depth)
    ensures Balanced(a + b, d + depth)
    decreases |a|
  {
    if a == [] {
      assert a + b == b;
    } else {
      assert (a + b)[1..] == a[1..] + b;
      match a[0]
      case Open(_) => BalancedThen(a[1..], d + 1, b, depth);
      case Close => BalancedThen(a[1..], d - 1, b, depth);
      case _ => BalancedThen(a[1..], d, b, depth);
    }
  }

  lemma {:induction false} BytesBalanced(s: string)
    ensures Balanced(Bytes(s), 0)
  {
    if s != "" {
      assert Bytes(s)[1..] == Bytes(s[1..]);
      BytesBalanced(s[1..]);
    }
  }
}
