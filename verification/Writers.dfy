/** The two buffered writers (writer.go): a byte writer over a sink, and a
    per-flush writer that holds a few bytes more in front of it. */
module Writers {
  import opened Sequences

  const DEFAULT_CAPACITY: nat := 8192

  /** A byte writer with its sink. `wired` counts the sink's bytes that a flush
      signal has pushed out; `signals` says whether there is a flusher to signal. */
  datatype Buffered = Buffered(sink: string, wired: nat, signals: bool, capacity: nat, held: string)

  /** A per-flush writer in front of a byte writer. */
  datatype Pipe = Pipe(parent: Buffered, threshold: nat, held: string)

  datatype Op =
    | Write(bytes: string)
    | WriteString(bytes: string)
    | WriteByte(c: char)
    | Flush

  // ------------------------------------------------------------------------
  // What each call does to the state
  // ------------------------------------------------------------------------

  /** Appending grows the buffer only when it does not fit. */
  function Append(b: Buffered, s: string): Buffered {
    var held := b.held + s;
    b.(held := held, capacity := if |held| <= b.capacity then b.capacity else |held|)
  }

  function SendOn(b: Buffered, s: string): Buffered {
    var sink := b.sink + s;
    b.(sink := sink, wired := if b.signals then |sink| else b.wired)
  }

  function Drain(b: Buffered): Buffered {
    if b.held == "" then b else SendOn(b, b.held).(held := "")
  }

  function PutString(b: Buffered, s: string): Buffered {
    if |b.held| + |s| <= b.capacity then Append(b, s)
    else if |s| > b.capacity then SendOn(Drain(b), s)
    else Append(Drain(b), s)
  }

  /** As `PutString`, except that a writer without a buffer makes one first. */
  function Put(b: Buffered, s: string): Buffered {
    PutString(if b.capacity == 0 then b.(capacity := DEFAULT_CAPACITY) else b, s)
  }

  function PutByte(b: Buffered, c: char): Buffered {
    Append(if |b.held| + 1 > b.capacity then Drain(b) else b, [c])
  }

  function DrainPipe(p: Pipe): Pipe {
    if p.held == "" then p else p.(parent := Drain(Put(p.parent, p.held)), held := "")
  }

  function Hold(p: Pipe, s: string): Pipe {
    var q := if |p.held| + |s| > p.threshold then DrainPipe(p) else p;
    q.(held := q.held + s)
  }

  function Apply(p: Pipe, op: Op): Pipe {
    match op
    case Write(s) =>
      if p.threshold == 0 then p.(parent := Put(p.parent, s))
      else if |s| >= p.threshold then
        var q := DrainPipe(p);
        q.(parent := Drain(Put(q.parent, s)))
      else Hold(p, s)
    case WriteString(s) =>
      if p.threshold == 0 then p.(parent := PutString(p.parent, s))
      else if |s| >= p.threshold then
        var q := DrainPipe(p);
        q.(parent := Drain(PutString(q.parent, s)))
      else Hold(p, s)
    case WriteByte(c) =>
      if p.threshold == 0 then p.(parent := PutByte(p.parent, c)) else Hold(p, [c])
    case Flush =>
      var q := DrainPipe(p);
      q.(parent := Drain(q.parent))
  }

  function Released(p: Pipe): Buffered {
    Drain(if p.held != "" then Put(p.parent, p.held) else p.parent)
  }

  function Run(p: Pipe, ops: seq<Op>): Pipe {
    if ops == [] then p else Apply(Run(p, ops[..|ops| - 1]), ops[|ops| - 1])
  }

  function Written(op: Op): string {
    match op
    case Write(s) => s
    case WriteString(s) => s
    case WriteByte(c) => [c]
    case Flush => ""
  }

  /** All bytes written, in order. */
  function AllWritten(ops: seq<Op>): string {
    if ops == [] then "" else AllWritten(ops[..|ops| - 1]) + Written(ops[|ops| - 1])
  }

  // ------------------------------------------------------------------------
  // Conservation
  // ------------------------------------------------------------------------

  function Bytes(b: Buffered): string {
    b.sink + b.held
  }

  /** The sink, then what the byte writer holds, then what the pipe holds. */
  function PipeBytes(p: Pipe): string {
    Bytes(p.parent) + p.held
  }

  lemma DrainConserves(b: Buffered)
    ensures Bytes(Drain(b)) == Bytes(b)
  {
    assert b.sink + b.held + "" == b.sink + b.held;
  }

  lemma AppendConserves(b: Buffered, s: string)
    ensures Bytes(Append(b, s)) == Bytes(b) + s
  {
    Assoc(b.sink, b.held, s);
  }

  lemma PutStringConserves(b: Buffered, s: string)
    ensures Bytes(PutString(b, s)) == Bytes(b) + s
  {
    DrainConserves(b);
    AppendConserves(b, s);
    AppendConserves(Drain(b), s);
    var d := Drain(b);
    assert d.sink + s + "" == d.sink + "" + s;
  }

  lemma PutConserves(b: Buffered, s: string)
    ensures Bytes(Put(b, s)) == Bytes(b) + s
  {
    PutStringConserves(if b.capacity == 0 then b.(capacity := DEFAULT_CAPACITY) else b, s);
  }

  lemma PutByteConserves(b: Buffered, c: char)
    ensures Bytes(PutByte(b, c)) == Bytes(b) + [c]
  {
    DrainConserves(b);
    AppendConserves(if |b.held| + 1 > b.capacity then Drain(b) else b, [c]);
  }

  lemma DrainPipeConserves(p: Pipe)
    ensures PipeBytes(DrainPipe(p)) == PipeBytes(p)
    ensures DrainPipe(p).held == ""
  {
    PutConserves(p.parent, p.held);
    DrainConserves(Put(p.parent, p.held));
    assert PipeBytes(p) + "" == PipeBytes(p);
  }

  lemma HoldConserves(p: Pipe, s: string)
    ensures PipeBytes(Hold(p, s)) == PipeBytes(p) + s
  {
    DrainPipeConserves(p);
    var q := if |p.held| + |s| > p.threshold then DrainPipe(p) else p;
    Assoc(Bytes(q.parent), q.held, s);
  }

  /** Nothing is held in front when the pipe writes straight through. */
  ghost predicate PassesThrough(p: Pipe) {
    p.threshold == 0 ==> p.held == ""
  }

  lemma ApplyConserves(p: Pipe, op: Op)
    requires PassesThrough(p)
    ensures PipeBytes(Apply(p, op)) == PipeBytes(p) + Written(op)
    ensures PassesThrough(Apply(p, op))
  {
    DrainPipeConserves(p);
    var q := DrainPipe(p);
    var s := Written(op);
    PutConserves(p.parent, s);
    PutStringConserves(p.parent, s);
    PutConserves(q.parent, s);
    PutStringConserves(q.parent, s);
    DrainConserves(Put(q.parent, s));
    DrainConserves(PutString(q.parent, s));
    DrainConserves(q.parent);
    HoldConserves(p, s);
    if op.WriteByte? {
      PutByteConserves(p.parent, op.c);
    }
    hide Put, PutString, PutByte, Drain, DrainPipe, Bytes, Hold;
    NothingHeld(p, s);
    NothingHeld(q, s);
    NothingHeld(q, "");
  }

  lemma NothingHeld(p: Pipe, s: string)
    ensures p.held == "" ==> PipeBytes(p) == Bytes(p.parent) && Bytes(p.parent) + s + "" == PipeBytes(p) + s
    ensures PipeBytes(p) + "" == PipeBytes(p)
    ensures p.held == "" ==> PipeBytes(p.(parent := p.parent)) == Bytes(p.parent)
  {
  }

  /** Over every sequence of writes and flushes, the sink followed by the two
      buffers is what was there before followed by all bytes written in order. */
  lemma {:induction false} RunConserves(p: Pipe, ops: seq<Op>)
    requires PassesThrough(p)
    ensures PipeBytes(Run(p, ops)) == PipeBytes(p) + AllWritten(ops)
    ensures PassesThrough(Run(p, ops))
  {
    hide PassesThrough, PipeBytes, Apply, Written;
    if ops != [] {
      var before, last := ops[..|ops| - 1], ops[|ops| - 1];
      RunConserves(p, before);
      ApplyConserves(Run(p, before), last);
      Assoc(PipeBytes(p), AllWritten(before), Written(last));
    }
  }

  // ------------------------------------------------------------------------
  // Bounds
  // ------------------------------------------------------------------------

  /** The byte writer's buffer has not outgrown its capacity. */
  predicate Fits(b: Buffered) {
    |b.held| <= b.capacity
  }

  /** What a writer with flusher has sent on is also on the wire. */
  predicate OnTheWire(b: Buffered) {
    b.signals ==> b.wired == |b.sink|
  }

  /** What no step changes: a real capacity is never exceeded and never grown,
      and nothing sent on waits for a signal. */
  ghost predicate Kept(b: Buffered, c: Buffered) {
    && c.signals == b.signals
    && (b.capacity > 0 && Fits(b) ==> c.capacity == b.capacity && Fits(c))
    && (OnTheWire(b) ==> OnTheWire(c))
    && (!b.signals ==> c.wired == b.wired)
  }

  lemma DrainKeeps(b: Buffered)
    ensures Kept(b, Drain(b)) && Drain(b).held == "" && Drain(b).capacity == b.capacity
  {
  }

  lemma PutKeeps(b: Buffered, s: string)
    ensures Kept(b, Put(b, s)) && Kept(b, PutString(b, s))
  {
  }

  lemma PutByteKeeps(b: Buffered, c: char)
    ensures Kept(b, PutByte(b, c))
  {
  }

  lemma KeptKept(a: Buffered, b: Buffered, c: Buffered)
    requires Kept(a, b) && Kept(b, c)
    ensures Kept(a, c)
  {
  }

  lemma DrainPipeKeeps(p: Pipe)
    ensures Kept(p.parent, DrainPipe(p).parent)
    ensures p.parent.held == "" ==> DrainPipe(p).parent.held == ""
    ensures DrainPipe(p).parent.held == p.parent.held || DrainPipe(p).parent.held == ""
  {
    PutKeeps(p.parent, p.held);
    DrainKeeps(Put(p.parent, p.held));
    KeptKept(p.parent, Put(p.parent, p.held), Drain(Put(p.parent, p.held)));
  }

  /** A pipe with a threshold holds back at most that much, and the byte writer
      behind it holds what it held at the start or nothing. */
  ghost predicate HoldsLittle(p: Pipe, start: string) {
    p.threshold > 0 ==> |p.held| <= p.threshold && (p.parent.held == start || p.parent.held == "")
  }

  lemma PutDrained(b: Buffered, s: string)
    ensures Kept(b, Drain(Put(b, s))) && Drain(Put(b, s)).held == ""
    ensures Kept(b, Drain(PutString(b, s))) && Drain(PutString(b, s)).held == ""
  {
    PutKeeps(b, s);
    DrainKeeps(Put(b, s));
    DrainKeeps(PutString(b, s));
    KeptKept(b, Put(b, s), Drain(Put(b, s)));
    KeptKept(b, PutString(b, s), Drain(PutString(b, s)));
  }

  lemma HoldKeeps(p: Pipe, s: string, start: string)
    requires HoldsLittle(p, start) && |s| <= p.threshold
    ensures Kept(p.parent, Hold(p, s).parent)
    ensures Hold(p, s).threshold == p.threshold && HoldsLittle(Hold(p, s), start)
  {
    DrainPipeKeeps(p);
  }

  lemma ApplyKeeps(p: Pipe, op: Op, start: string)
    requires HoldsLittle(p, start)
    ensures Kept(p.parent, Apply(p, op).parent)
    ensures Apply(p, op).threshold == p.threshold && HoldsLittle(Apply(p, op), start)
  {
    hide Put, PutString, PutByte, Drain;
    var q := DrainPipe(p);
    var s := Written(op);
    DrainPipeKeeps(p);
    DrainKeeps(q.parent);
    PutDrained(q.parent, s);
    PutKeeps(p.parent, s);
    if op.WriteByte? {
      PutByteKeeps(p.parent, op.c);
    }
    if |s| <= p.threshold {
      HoldKeeps(p, s, start);
    }
    if |s| >= p.threshold > 0 || op.Flush? {
      KeptKept(p.parent, q.parent, Apply(p, op).parent);
    }
    hide Kept;
  }

  lemma {:induction false} RunKeeps(p: Pipe, ops: seq<Op>, start: string)
    requires HoldsLittle(p, start)
    ensures Kept(p.parent, Run(p, ops).parent)
    ensures Run(p, ops).threshold == p.threshold && HoldsLittle(Run(p, ops), start)
  {
    if ops != [] {
      var q := Run(p, ops[..|ops| - 1]);
      RunKeeps(p, ops[..|ops| - 1], start);
      ApplyKeeps(q, ops[|ops| - 1], start);
      hide Kept, Apply, HoldsLittle;
      KeptKept(p.parent, q.parent, Run(p, ops).parent);
    }
  }

  // ------------------------------------------------------------------------
  // From acquiring to releasing
  // ------------------------------------------------------------------------

  /** A negative threshold counts as 0. */
  function Acquire(parent: Buffered, threshold: int): Pipe {
    Pipe(parent, if threshold < 0 then 0 else threshold, "")
  }

  /** Whatever is written through a pipe stands in order in the sink and the two
      buffers, and a release leaves all of it in the sink. */
  lemma WritersConserve(parent: Buffered, threshold: int, ops: seq<Op>)
    ensures var p := Run(Acquire(parent, threshold), ops);
            && p.parent.sink + p.parent.held + p.held == parent.sink + parent.held + AllWritten(ops)
            && Released(p).held == ""
            && Released(p).sink == parent.sink + parent.held + AllWritten(ops)
  {
    var start := Acquire(parent, threshold);
    var p := Run(start, ops);
    RunConserves(start, ops);
    assert PipeBytes(start) == Bytes(parent);
    PutConserves(p.parent, p.held);
    var last := if p.held != "" then Put(p.parent, p.held) else p.parent;
    DrainConserves(last);
    DrainKeeps(last);
    hide Put, Drain, Run;
    assert Bytes(last) == PipeBytes(p);
    assert Released(p).sink == Bytes(Released(p));
  }

  /** The byte writer never outgrows its buffer; and a pipe with a positive
      threshold keeps at most that many bytes, plus what the byte writer held
      before, from the sink, and with a flusher from the wire. */
  lemma WritersHoldLittle(parent: Buffered, threshold: int, ops: seq<Op>)
    requires parent.capacity > 0 && Fits(parent) && OnTheWire(parent)
    ensures var p := Run(Acquire(parent, threshold), ops);
            && p.parent.capacity == parent.capacity && |p.parent.held| <= parent.capacity
            && p.parent.wired == (if parent.signals then |p.parent.sink| else parent.wired)
            && (threshold > 0 ==>
                  && |PipeBytes(p)| - |p.parent.sink| <= |parent.held| + threshold
                  && (p.parent.held == parent.held || p.parent.held == ""))
  {
    RunKeeps(Acquire(parent, threshold), ops, parent.held);
  }

  lemma FlushDrains(p: Pipe)
    requires PassesThrough(p)
    ensures var q := Apply(p, Flush);
            q.held == "" && q.parent.held == "" && q.parent.sink == PipeBytes(p)
  {
    hide Put, Drain, Bytes;
    ApplyConserves(p, Flush);
    DrainPipeConserves(p);
    DrainKeeps(DrainPipe(p).parent);
    NothingBehind(Apply(p, Flush), PipeBytes(p));
  }

  lemma NothingBehind(p: Pipe, all: string)
    requires p.held == "" && p.parent.held == "" && PipeBytes(p) == all + ""
    ensures p.parent.sink == all
  {
    assert all + "" == all;
  }

  /** A flush after any writes leaves both buffers empty and every byte in the sink, in
      order, and with a flusher on the wire. */
  lemma FlushDelivers(parent: Buffered, threshold: int, ops: seq<Op>)
    ensures var q := Run(Acquire(parent, threshold), ops + [Flush]);
            && q.held == "" && q.parent.held == ""
            && q.parent.sink == parent.sink + parent.held + AllWritten(ops)
            && (OnTheWire(parent) ==> q.parent.wired == if parent.signals then |q.parent.sink| else parent.wired)
  {
    var start := Acquire(parent, threshold);
    assert (ops + [Flush])[..|ops|] == ops;
    assert PipeBytes(start) == Bytes(parent);
    RunConserves(start, ops);
    FlushDrains(Run(start, ops));
    RunKeeps(start, ops + [Flush], parent.held);
  }

  predicate NoFlush(ops: seq<Op>) {
    forall k :: 0 <= k < |ops| ==> !ops[k].Flush?
  }

  /** Less than the threshold stays in front: without a flush the byte writer and the
      sink are not touched. */
  lemma {:induction false} BelowThresholdWaits(parent: Buffered, threshold: nat, ops: seq<Op>)
    requires NoFlush(ops) && |AllWritten(ops)| < threshold
    ensures Run(Acquire(parent, threshold), ops) == Pipe(parent, threshold, AllWritten(ops))
  {
    hide Put, PutString, PutByte, DrainPipe;
    if ops != [] {
      BelowThresholdWaits(parent, threshold, ops[..|ops| - 1]);
    }
  }

  /** Without a threshold, what fits the byte writer's buffer stays in it: without a
      flush the sink is not touched. */
  lemma {:induction false} BelowCapacityWaits(parent: Buffered, ops: seq<Op>)
    requires NoFlush(ops) && parent.capacity > 0 && |parent.held| + |AllWritten(ops)| <= parent.capacity
    ensures Run(Acquire(parent, 0), ops) == Pipe(parent.(held := parent.held + AllWritten(ops)), 0, "")
  {
    hide DrainPipe, Drain, SendOn, Hold;
    if ops == [] {
      assert parent.held + "" == parent.held;
    } else {
      var before, last := ops[..|ops| - 1], ops[|ops| - 1];
      BelowCapacityWaits(parent, before);
      Assoc(parent.held, AllWritten(before), Written(last));
    }
  }

  /** Strings and byte slices are written alike, except when there is no buffer yet. */
  lemma StringsAreSlices(b: Buffered, s: string)
    ensures Put(b, s) == PutString(b, s) <==> b.capacity > 0
  {
  }

  // ------------------------------------------------------------------------
  // The writers
  // ------------------------------------------------------------------------

  /** A sink that counts which of its bytes were signalled out. */
  class Wire {
    var out: string
    var wired: nat
    const signals: bool

    constructor (signals: bool)
      ensures out == "" && wired == 0 && this.signals == signals
    {
      out := "";
      wired := 0;
      this.signals := signals;
    }

    method Write(s: string)
      modifies this
      ensures out == old(out) + s && wired == old(wired)
    {
      out := out + s;
    }

    method Signal()
      modifies this
      ensures out == old(out)
      ensures wired == if signals then |out| else old(wired)
    {
      if signals {
        wired := |out|;
      }
    }
  }

  class ByteWriter {
    const out: Wire
    var buf: string
    var capacity: nat

    function View(): Buffered
      reads this, out
    {
      Buffered(out.out, out.wired, out.signals, capacity, buf)
    }

    constructor (out: Wire)
      ensures this.out == out
      ensures View() == Buffered(out.out, out.wired, out.signals, DEFAULT_CAPACITY, "")
    {
      this.out := out;
      buf := "";
      capacity := DEFAULT_CAPACITY;
    }

    method AppendTo(s: string)
      modifies this
      ensures View() == Append(old(View()), s)
    {
      buf := buf + s;
      if |buf| > capacity {
        capacity := |buf|;
      }
    }

    method Flush()
      modifies this, out
      ensures View() == Drain(old(View()))
    {
      if |buf| == 0 {
        return;
      }
      out.Write(buf);
      buf := "";
      out.Signal();
    }

    method WriteString(s: string)
      modifies this, out
      ensures View() == PutString(old(View()), s)
    {
      if |buf| + |s| > capacity {
        Flush();
        if |s| > capacity {
          out.Write(s);
          out.Signal();
          return;
        }
      }
      AppendTo(s);
    }

    method Write(s: string)
      modifies this, out
      ensures View() == Put(old(View()), s)
    {
      if capacity == 0 {
        capacity := DEFAULT_CAPACITY;
      }
      if |buf| + |s| > capacity {
        Flush();
        if |s| > capacity {
          out.Write(s);
          out.Signal();
          return;
        }
      }
      AppendTo(s);
    }

    method WriteByte(c: char)
      modifies this, out
      ensures View() == PutByte(old(View()), c)
    {
      if |buf| + 1 > capacity {
        Flush();
      }
      AppendTo([c]);
    }
  }

  class PerFlushWriter {
    const parent: ByteWriter
    const threshold: nat
    var buf: string

    function View(): Pipe
      reads this, parent, parent.out
    {
      Pipe(parent.View(), threshold, buf)
    }

    constructor (parent: ByteWriter, threshold: int)
      ensures this.parent == parent
      ensures View() == Acquire(parent.View(), threshold)
    {
      this.parent := parent;
      this.threshold := if threshold < 0 then 0 else threshold;
      buf := "";
    }

    method FlushToParent()
      modifies this, parent, parent.out
      ensures View() == DrainPipe(old(View()))
    {
      if |buf| == 0 {
        return;
      }
      parent.Write(buf);
      buf := "";
      parent.Flush();
    }

    method HoldBack(s: string)
      modifies this, parent, parent.out
      ensures View() == Hold(old(View()), s)
    {
      if |buf| + |s| > threshold {
        FlushToParent();
      }
      buf := buf + s;
    }

    method Write(s: string)
      modifies this, parent, parent.out
      ensures View() == Apply(old(View()), Op.Write(s))
    {
      if threshold == 0 {
        parent.Write(s);
      } else if |s| >= threshold {
        FlushToParent();
        parent.Write(s);
        parent.Flush();
      } else {
        HoldBack(s);
      }
    }

    method WriteString(s: string)
      modifies this, parent, parent.out
      ensures View() == Apply(old(View()), Op.WriteString(s))
    {
      if threshold == 0 {
        parent.WriteString(s);
      } else if |s| >= threshold {
        FlushToParent();
        parent.WriteString(s);
        parent.Flush();
      } else {
        HoldBack(s);
      }
    }

    method WriteByte(c: char)
      modifies this, parent, parent.out
      ensures View() == Apply(old(View()), Op.WriteByte(c))
    {
      if threshold == 0 {
        parent.WriteByte(c);
      } else {
        HoldBack([c]);
      }
    }

    method Flush()
      modifies this, parent, parent.out
      ensures View() == Apply(old(View()), Op.Flush)
    {
      FlushToParent();
      parent.Flush();
    }

    method Release()
      modifies this, parent, parent.out
      ensures parent.View() == Released(old(View())) && buf == ""
    {
      if |buf| > 0 {
        parent.Write(buf);
        buf := "";
      }
      parent.Flush();
    }
  }
}
