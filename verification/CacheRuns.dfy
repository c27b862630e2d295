/** Whole runs of the program cache with one caller at a time (cache.go): what Get
    finds after them, and what the tags of a slot have come from. */
module CacheRuns {
  import opened Wrappers
  import opened Bits
  import opened ProgramCache

  datatype Op =
    | Put(h: nat, p: Program)
    | SetTag(h: nat, mask: nat)
    | Delete(h: nat)
    | Invalidate(bit: nat)

  predicate NonZero(op: Op) {
    op.Invalidate? || op.h != 0
  }

  function StepTable(t: Table, op: Op): (t': Table)
    requires t.Shape()
    ensures t'.Shape() && |t'.slots| == |t.slots|
  {
    match op
    case Put(h, p) => PutTable(t, h, p)
    case SetTag(h, mask) => TagTable(t, h, mask)
    case Delete(h) => DeleteTable(t, h)
    case Invalidate(bit) => InvalidateTable(t, bit)
  }

  /** The table after a run from an empty one. */
  ghost function RunTable(n: nat, ops: seq<Op>): (t: Table)
    requires n > 0
    ensures t.Shape() && |t.slots| == n
  {
    if ops == [] then EmptyTable(n) else StepTable(RunTable(n, ops[..|ops| - 1]), ops[|ops| - 1])
  }

  lemma RunSnoc(n: nat, ops: seq<Op>, op: Op)
    requires n > 0
    ensures RunTable(n, ops + [op]) == StepTable(RunTable(n, ops), op)
  {
    assert (ops + [op])[..|ops|] == ops;
  }

  /** The slots an operation empties. */
  ghost function Gone(t: Table, op: Op): set<nat>
    requires t.Shape()
  {
    match op
    case Delete(h) => DeletedSlot(t, h)
    case Invalidate(bit) => TaggedSlots(t, bit)
    case _ => {}
  }

  /** What an operation is to do to the map. */
  ghost function StepMap(t: Table, m: map<nat, Program>, op: Op): map<nat, Program>
    requires t.Shape()
  {
    match op
    case Put(h, p) => PutMap(t, m, h, p)
    case SetTag(_, _) => m
    case Delete(h) => m - {h}
    case Invalidate(bit) => Remaining(t, m, TaggedSlots(t, bit))
  }

  /** The latest Put of each hash, without the hashes evicted, deleted or
      invalidated since. */
  ghost function RunMap(n: nat, ops: seq<Op>): map<nat, Program>
    requires n > 0
  {
    if ops == [] then map[]
    else
      var before := ops[..|ops| - 1];
      StepMap(RunTable(n, before), RunMap(n, before), ops[|ops| - 1])
  }

  /** No operation of the run empties a slot on the probe path of an entry that
      stays. */
  ghost predicate NeverCuts(n: nat, ops: seq<Op>)
    requires n > 0
  {
    ops == [] ||
    var before := ops[..|ops| - 1];
    var t := RunTable(n, before);
    NeverCuts(n, before) && NoPathCut(t, Gone(t, ops[|ops| - 1]))
  }

  ghost predicate Agrees(t: Table, m: map<nat, Program>)
    requires t.Shape()
  {
    forall h: nat :: h != 0 ==> GetTable(t, h) == Lookup(m, h)
  }

  lemma RefinesAgrees(t: Table, m: map<nat, Program>)
    requires Refines(t, m)
    ensures Agrees(t, m)
  {
    hide GetTable, PathFull, Lookup;
    forall h: nat | h != 0
      ensures GetTable(t, h) == Lookup(m, h)
    {
      GetIsLookup(t, m, h);
    }
  }

  lemma ClearedAgrees(t: Table, m: map<nat, Program>, t': Table, m': map<nat, Program>, gone: set<nat>)
    requires Refines(t, m) && Cleared(t, t', gone) && m' == Remaining(t, m, gone)
    ensures NoPathCut(t, gone) ==> Refines(t', m')
    ensures Agrees(t', m') <==> NoPathCut(t, gone)
  {
    hide GetTable, Refines, Lookup, NoPathCut, Remaining;
    ClearedExactly(t, m, t', gone);
    if NoPathCut(t, gone) {
      ClearedRefines(t, m, t', gone);
    }
  }

  /** One operation keeps Get in agreement with the map exactly when it cuts no path. */
  lemma StepExactly(t: Table, m: map<nat, Program>, op: Op)
    requires Refines(t, m) && NonZero(op)
    ensures var t', m' := StepTable(t, op), StepMap(t, m, op);
            && (NoPathCut(t, Gone(t, op)) ==> Refines(t', m'))
            && (Agrees(t', m') <==> NoPathCut(t, Gone(t, op)))
  {
    var t', m' := StepTable(t, op), StepMap(t, m, op);
    hide PutTable, TagTable, DeleteTable, InvalidateTable, PutMap, Agrees, Refines, Remaining, DeletedSlot, TaggedSlots;
    match op {
      case Put(h, p) =>
        PutRefines(t, m, h, p);
        RefinesAgrees(t', m');
      case SetTag(h, mask) =>
        TagRefines(t, m, h, mask);
        RefinesAgrees(t', m');
      case Delete(h) =>
        DeleteClears(t, h);
        DeleteLeaves(t, m, h);
        ClearedAgrees(t, m, t', m', DeletedSlot(t, h));
      case Invalidate(bit) =>
        InvalidateClears(t, bit);
        ClearedAgrees(t, m, t', m', TaggedSlots(t, bit));
    }
  }

  /** Over every run that cuts no path, evictions included, the table stores
      exactly the map. */
  lemma {:induction false} RunRefines(n: nat, ops: seq<Op>)
    requires n > 0 && NeverCuts(n, ops) && forall op :: op in ops ==> NonZero(op)
    ensures Refines(RunTable(n, ops), RunMap(n, ops))
  {
    hide StepTable, StepMap, Refines, Gone, NoPathCut;
    if ops == [] {
      EmptyRefines(n);
    } else {
      var before, op := ops[..|ops| - 1], ops[|ops| - 1];
      RunRefines(n, before);
      StepExactly(RunTable(n, before), RunMap(n, before), op);
    }
  }

  lemma EmptyRefines(n: nat)
    requires n > 0
    ensures Refines(EmptyTable(n), map[])
  {
  }

  /** Get has agreed with the map after every step of a run exactly when no
      operation of the run has cut a path. */
  lemma {:induction false} RunGetExactly(n: nat, ops: seq<Op>)
    requires n > 0 && forall op :: op in ops ==> NonZero(op)
    ensures (forall k :: 0 <= k <= |ops| ==> Agrees(RunTable(n, ops[..k]), RunMap(n, ops[..k])))
            <==> NeverCuts(n, ops)
  {
    hide StepTable, StepMap, Refines, Gone, NoPathCut, Agrees;
    assert ops[..|ops|] == ops;
    if ops == [] {
      EmptyRefines(n);
      RefinesAgrees(EmptyTable(n), map[]);
    } else {
      var before, op := ops[..|ops| - 1], ops[|ops| - 1];
      RunGetExactly(n, before);
      assert forall k :: 0 <= k <= |before| ==> before[..k] == ops[..k];
      if NeverCuts(n, before) {
        RunRefines(n, before);
        StepExactly(RunTable(n, before), RunMap(n, before), op);
      }
    }
  }

  predicate KeepsEntries(op: Op) {
    op.Put? || op.SetTag?
  }

  lemma {:induction false} KeepersNeverCut(n: nat, ops: seq<Op>)
    requires n > 0 && forall op :: op in ops ==> KeepsEntries(op)
    ensures NeverCuts(n, ops)
  {
    hide NoPathCut, StepTable, DeletedSlot, TaggedSlots;
    if ops != [] {
      var before, op := ops[..|ops| - 1], ops[|ops| - 1];
      KeepersNeverCut(n, before);
      assert KeepsEntries(op);
      NothingGone(RunTable(n, before));
    }
  }

  lemma NothingGone(t: Table)
    ensures NoPathCut(t, {})
  {
  }

  /** After every run of Put and SetTag, evictions included, Get agrees with the map. */
  lemma RunGet(n: nat, ops: seq<Op>, h: nat)
    requires n > 0 && h != 0 && forall op :: op in ops ==> KeepsEntries(op) && op.h != 0
    ensures GetTable(RunTable(n, ops), h) == Lookup(RunMap(n, ops), h)
  {
    KeepersNeverCut(n, ops);
    RunRefines(n, ops);
    GetIsLookup(RunTable(n, ops), RunMap(n, ops), h);
  }

  /** Every slot in use holds a program put under its hash in the run. */
  ghost predicate WasPut(t: Table, ops: seq<Op>) {
    && t.Shape()
    && forall k :: 0 <= k < |t.slots| && t.slots[k].hash != 0 ==>
         t.programs[k].Some? && Put(t.slots[k].hash, t.programs[k].value) in ops
  }

  lemma StepWasPut(t: Table, ops: seq<Op>, op: Op)
    requires WasPut(t, ops)
    ensures WasPut(StepTable(t, op), ops + [op])
  {
    hide Home, Pos, BitOr, BitAnd, FindSlot, FindHash, Victim, NextVer;
  }

  /** After any run at all, what Get returns for a hash was put under that hash. */
  lemma {:induction false} RunHitWasPut(n: nat, ops: seq<Op>, h: nat)
    requires n > 0 && h != 0
    ensures var r := GetTable(RunTable(n, ops), h); r.Some? ==> Put(h, r.value) in ops
  {
    hide RunTable, FindSlot;
    RunWasPut(n, ops);
  }

  lemma {:induction false} RunWasPut(n: nat, ops: seq<Op>)
    requires n > 0
    ensures WasPut(RunTable(n, ops), ops)
  {
    if ops != [] {
      var before, op := ops[..|ops| - 1], ops[|ops| - 1];
      RunWasPut(n, before);
      StepWasPut(RunTable(n, before), before, op);
      assert before + [op] == ops;
      hide WasPut, StepTable;
    }
  }

  /** In a table of any size above 1, two hashes with one home: deleting the first
      hides the second. */
  lemma DeleteHidesWitness(n: nat)
    requires n >= 2
    ensures var ops := [Put(n, Program(1)), Put(2 * n, Program(2))];
            && GetTable(RunTable(n, ops), 2 * n) == Some(Program(2))
            && GetTable(RunTable(n, ops + [Delete(n)]), 2 * n) == None
  {
    var ops := TwoPut(n);
    SecondOf(RunTable(n, ops), 2 * n);
    RunSnoc(n, ops, Delete(n));
    FirstOf(RunTable(n, ops), n);
    FirstOf(RunTable(n, ops + [Delete(n)]), 2 * n);
  }

  /** What the probes for a hash find if its home is slot 0. */
  lemma FirstOf(t: Table, h: nat)
    requires t.Shape() && Home(h, |t.slots|) == 0
    ensures Probe(t.slots, h, 0) == t.slots[0]
    ensures t.slots[0].hash == h ==> FindHash(t.slots, h, 0) == 0
    ensures t.slots[0].hash == 0 || t.slots[0].hash == h ==> FindSlot(t.slots, h, 0) == 0
  {
    hide Home;
  }

  lemma SecondOf(t: Table, h: nat)
    requires t.Shape() && |t.slots| >= 2 && Home(h, |t.slots|) == 0
    requires t.slots[0].hash != 0 && t.slots[0].hash != h
    ensures Probe(t.slots, h, 1) == t.slots[1]
    ensures t.slots[1].hash == 0 || t.slots[1].hash == h ==> FindSlot(t.slots, h, 0) == 1
  {
    hide Home;
    assert Probe(t.slots, h, 0) == t.slots[0];
  }

  lemma HomeZero(n: nat)
    requires n > 0
    ensures Home(n, n) == 0 && Home(2 * n, n) == 0
  {
    DivModUnique(n, n, 1, 0);
    DivModUnique(2 * n, n, 2, 0);
  }

  lemma TwoPut(n: nat) returns (ops: seq<Op>)
    requires n >= 2
    ensures ops == [Put(n, Program(1)), Put(2 * n, Program(2))]
    ensures Home(n, n) == 0 && Home(2 * n, n) == 0
    ensures var t := RunTable(n, ops);
            && t.slots[0] == Slot(2, n, 0) && t.programs[0] == Some(Program(1))
            && t.slots[1] == Slot(2, 2 * n, 0) && t.programs[1] == Some(Program(2))
  {
    hide Home, RunTable, FindSlot;
    HomeZero(n);
    RunSnoc(n, [], Put(n, Program(1)));
    RunEmpty(n);
    FirstOf(EmptyTable(n), n);
    assert [] + [Put(n, Program(1))] == [Put(n, Program(1))];
    var t := RunTable(n, [Put(n, Program(1))]);
    assert t.slots[0] == Slot(2, n, 0) && t.slots[1] == Slot(0, 0, 0);
    RunSnoc(n, [Put(n, Program(1))], Put(2 * n, Program(2)));
    SecondOf(t, 2 * n);
    ops := [Put(n, Program(1))] + [Put(2 * n, Program(2))];
  }

  lemma RunEmpty(n: nat)
    requires n > 0
    ensures RunTable(n, []) == EmptyTable(n)
  {
  }

  /** In a table of any size above 1, a deleted entry comes back: hash 2n is put,
      put again with another program, and deleted; after one more Put of hash n its
      first program is found again. */
  lemma DeletedComesBack(n: nat)
    requires n >= 2
    ensures var ops := [Put(n, Program(1)), Put(2 * n, Program(2)), Delete(n), Put(2 * n, Program(3)), Delete(2 * n)];
            && GetTable(RunTable(n, ops), 2 * n) == None
            && GetTable(RunTable(n, ops + [Put(n, Program(4))]), 2 * n) == Some(Program(2))
  {
    hide Home, RunTable, FindSlot, FindHash;
    var o2 := TwoPut(n);
    var t2 := RunTable(n, o2);
    FirstOf(t2, n);
    RunSnoc(n, o2, Delete(n));
    var o3 := o2 + [Delete(n)];
    var t3 := RunTable(n, o3);
    assert t3.slots[0].hash == 0 && t3.slots[1].hash == 2 * n && t3.programs[1] == Some(Program(2));
    FirstOf(t3, 2 * n);
    RunSnoc(n, o3, Put(2 * n, Program(3)));
    var o4 := o3 + [Put(2 * n, Program(3))];
    var t4 := RunTable(n, o4);
    assert t4.slots[0].hash == 2 * n && t4.slots[1].hash == 2 * n && t4.programs[1] == Some(Program(2));
    FirstOf(t4, 2 * n);
    RunSnoc(n, o4, Delete(2 * n));
    var o5 := o4 + [Delete(2 * n)];
    var t5 := RunTable(n, o5);
    assert t5.slots[0].hash == 0 && t5.slots[1].hash == 2 * n && t5.programs[1] == Some(Program(2));
    FirstOf(t5, 2 * n);
    FirstOf(t5, n);
    RunSnoc(n, o5, Put(n, Program(4)));
    SecondOf(RunTable(n, o5 + [Put(n, Program(4))]), 2 * n);
    assert o5 == [Put(n, Program(1)), Put(2 * n, Program(2)), Delete(n), Put(2 * n, Program(3)), Delete(2 * n)];
  }

  // ------------------------------------------------------------------------
  // Tags outlive the entry they were given to
  // ------------------------------------------------------------------------

  /** Some bit is in both: the lowest one, or one of the others. */
  lemma AndNonzero(x: nat, y: nat)
    ensures BitAnd(x, y) != 0 <==> BitAnd(x / 2, y / 2) != 0 || (x % 2 == 1 && y % 2 == 1)
  {
    if x == 0 || y == 0 {
      assert x / 2 == 0 || y / 2 == 0;
    } else {
      LowBits(x % 2, y % 2);
    }
  }

  lemma LowBits(a: nat, b: nat)
    requires a < 2 && b < 2
    ensures a * b == if a == 1 && b == 1 then 1 else 0
  {
  }

  lemma {:induction false} AndOfOr(x: nat, y: nat, bit: nat)
    ensures BitAnd(BitOr(x, y), bit) != 0 <==> BitAnd(x, bit) != 0 || BitAnd(y, bit) != 0
    decreases bit
  {
    hide BitAnd, BitOr;
    if bit == 0 {
      AndZero(x);
      AndZero(y);
      AndZero(BitOr(x, y));
    } else {
      AndNonzero(x, bit);
      AndNonzero(y, bit);
      AndNonzero(BitOr(x, y), bit);
      OrHalves(x, y);
      AndOfOr(x / 2, y / 2, bit / 2);
    }
  }

  /** The hash and mask of every SetTag that reached slot `k`, in order, since an
      invalidation last emptied it. */
  ghost function TagHistory(n: nat, ops: seq<Op>, k: nat): seq<(nat, nat)>
    requires n > 0 && k < n
  {
    if ops == [] then []
    else
      var before, op := ops[..|ops| - 1], ops[|ops| - 1];
      var t, history := RunTable(n, before), TagHistory(n, before, k);
      if TagReaches(t, op, k) then history + [(op.h, op.mask)]
      else if op.Invalidate? && Tagged(t.slots[k], op.bit) then []
      else history
  }

  /** The operation is a SetTag that finds its hash in slot `k`. */
  ghost predicate TagReaches(t: Table, op: Op, k: nat)
    requires t.Shape()
  {
    && op.SetTag?
    && var n, i := |t.slots|, FindHash(t.slots, op.h, 0);
       i < n && Pos(n, Home(op.h, n), i) == k
  }

  /** Some SetTag with the bit reached the slot for hash `h`, or for another one. */
  ghost predicate GivenTo(history: seq<(nat, nat)>, h: nat, own: bool, bit: nat) {
    exists j :: 0 <= j < |history| && (history[j].0 == h) == own && BitAnd(history[j].1, bit) != 0
  }

  lemma GivenSnoc(history: seq<(nat, nat)>, x: (nat, nat), h: nat, own: bool, bit: nat)
    ensures GivenTo(history + [x], h, own, bit)
            <==> GivenTo(history, h, own, bit) || ((x.0 == h) == own && BitAnd(x.1, bit) != 0)
  {
    var longer := history + [x];
    if GivenTo(history, h, own, bit) {
      var j :| 0 <= j < |history| && (history[j].0 == h) == own && BitAnd(history[j].1, bit) != 0;
      assert longer[j] == history[j];
    }
    assert longer[|history|] == x;
  }

  /** What one operation does to the tags of slot `k`: only an invalidation takes
      any away, and then all of them. */
  lemma TagStep(t: Table, op: Op, k: nat, bit: nat)
    requires t.Shape() && k < |t.slots|
    ensures Tagged(StepTable(t, op).slots[k], bit)
            <==> if op.Invalidate? then Tagged(t.slots[k], bit) && !Tagged(t.slots[k], op.bit)
                 else Tagged(t.slots[k], bit) || (TagReaches(t, op, k) && BitAnd(op.mask, bit) != 0)
  {
    hide BitAnd, BitOr, FindHash, FindSlot, Victim, Home, Pos, NextVer;
    NoTags(bit);
    if op.SetTag? {
      AndOfOr(t.slots[k].tagBits, op.mask, bit);
    }
  }

  lemma NoTags(bit: nat)
    ensures BitAnd(0, bit) == 0
  {
  }

  lemma {:induction false} TagsAreHistory(n: nat, ops: seq<Op>, k: nat, h: nat, bit: nat)
    requires n > 0 && k < n
    ensures var history := TagHistory(n, ops, k);
            Tagged(RunTable(n, ops).slots[k], bit)
            <==> GivenTo(history, h, true, bit) || GivenTo(history, h, false, bit)
  {
    hide BitAnd, TagReaches, StepTable;
    NoTags(bit);
    if ops != [] {
      var before, op := ops[..|ops| - 1], ops[|ops| - 1];
      var t, history := RunTable(n, before), TagHistory(n, before, k);
      TagsAreHistory(n, before, k, h, bit);
      TagStep(t, op, k, bit);
      if TagReaches(t, op, k) {
        ReachesIsSetTag(t, op, k);
        GivenSnoc(history, (op.h, op.mask), h, true, bit);
        GivenSnoc(history, (op.h, op.mask), h, false, bit);
      }
    }
  }

  lemma ReachesIsSetTag(t: Table, op: Op, k: nat)
    requires t.Shape() && TagReaches(t, op, k)
    ensures op.SetTag?
  {
  }

  /** After any run, invalidating a bit drops a stored hash exactly when, since the
      last invalidation that emptied its slot, the bit was given to that hash
      there, or to another hash that had the slot before it. */
  lemma TagDropsExactly(n: nat, ops: seq<Op>, k: nat, bit: nat)
    requires n > 0 && k < n && RunTable(n, ops).slots[k].hash != 0
    ensures var t, history := RunTable(n, ops), TagHistory(n, ops, k);
            var h := t.slots[k].hash;
            RunTable(n, ops + [Invalidate(bit)]).slots[k].hash != h
            <==> GivenTo(history, h, true, bit) || GivenTo(history, h, false, bit)
  {
    hide RunTable, GivenTo, BitAnd;
    RunSnoc(n, ops, Invalidate(bit));
    TagsAreHistory(n, ops, k, RunTable(n, ops).slots[k].hash, bit);
  }

  /** In a table of any size: hash n is put, given a tag and deleted; hash 2n takes
      its slot and is dropped with the tag it was never given. */
  lemma StaleTagWitness(n: nat)
    requires n > 0
    ensures var ops := [Put(n, Program(1)), SetTag(n, 1), Delete(n), Put(2 * n, Program(2))];
            && GetTable(RunTable(n, ops), 2 * n) == Some(Program(2))
            && GetTable(RunTable(n, ops + [Invalidate(1)]), 2 * n) == None
  {
    hide Home, RunTable, FindSlot, FindHash, BitAnd, BitOr;
    HomeZero(n);
    RunEmpty(n);
    OneBit();
    FirstOf(EmptyTable(n), n);
    RunSnoc(n, [], Put(n, Program(1)));
    var o1 := [Put(n, Program(1))];
    assert [] + o1 == o1;
    var t1 := RunTable(n, o1);
    assert t1.slots[0] == Slot(2, n, 0);
    FirstOf(t1, n);
    RunSnoc(n, o1, SetTag(n, 1));
    var o2 := o1 + [SetTag(n, 1)];
    var t2 := RunTable(n, o2);
    assert t2.slots[0] == Slot(4, n, 1);
    FirstOf(t2, n);
    RunSnoc(n, o2, Delete(n));
    var o3 := o2 + [Delete(n)];
    var t3 := RunTable(n, o3);
    assert t3.slots[0] == Slot(6, 0, 1);
    FirstOf(t3, 2 * n);
    RunSnoc(n, o3, Put(2 * n, Program(2)));
    var o4 := o3 + [Put(2 * n, Program(2))];
    var t4 := RunTable(n, o4);
    assert t4.slots[0] == Slot(8, 2 * n, 1) && t4.programs[0] == Some(Program(2));
    FirstOf(t4, 2 * n);
    RunSnoc(n, o4, Invalidate(1));
    FirstOf(RunTable(n, o4 + [Invalidate(1)]), 2 * n);
    assert o4 == [Put(n, Program(1)), SetTag(n, 1), Delete(n), Put(2 * n, Program(2))];
  }

  lemma OneBit()
    ensures BitAnd(1, 1) == 1 && BitOr(0, 1) == 1
  {
    assert BitAnd(0, 0) == 0;
  }

  // ------------------------------------------------------------------------
  // Which slot is evicted
  // ------------------------------------------------------------------------

  /** How often an operation writes to slot `k`. */
  ghost function Touches(t: Table, op: Op, k: nat): nat
    requires t.Shape() && k < |t.slots|
  {
    var n := |t.slots|;
    match op
    case Put(h, _) =>
      var i := FindSlot(t.slots, h, 0);
      if k == (if i < n then Pos(n, Home(h, n), i) else Victim(t.slots)) then 1 else 0
    case SetTag(h, _) => if TagReaches(t, op, k) then 1 else 0
    case Delete(h) => if k in DeletedSlot(t, h) then 1 else 0
    case Invalidate(bit) => if k in TaggedSlots(t, bit) then 1 else 0
  }

  /** How many operations of a run have written to slot `k`. */
  ghost function TouchCount(n: nat, ops: seq<Op>, k: nat): (count: nat)
    requires n > 0 && k < n
    ensures count <= |ops|
  {
    if ops == [] then 0
    else
      var before := ops[..|ops| - 1];
      TouchCount(n, before, k) + Touches(RunTable(n, before), ops[|ops| - 1], k)
  }

  lemma TouchStep(t: Table, op: Op, k: nat)
    requires t.Shape() && k < |t.slots| && t.slots[k].ver + 2 < U64
    ensures StepTable(t, op).slots[k].ver == t.slots[k].ver + 2 * Touches(t, op, k)
  {
    hide Home, Pos, FindSlot, FindHash, Victim, BitAnd, BitOr;
  }

  /** A slot's word is twice the number of writes to it. */
  lemma {:induction false} WordIsTouches(n: nat, ops: seq<Op>, k: nat)
    requires n > 0 && k < n && 2 * |ops| < U64
    ensures RunTable(n, ops).slots[k].ver == 2 * TouchCount(n, ops, k)
  {
    hide StepTable, Touches;
    if ops != [] {
      var before := ops[..|ops| - 1];
      WordIsTouches(n, before, k);
      TouchStep(RunTable(n, before), ops[|ops| - 1], k);
    }
  }

  /** So the victim of an eviction is the slot written to least often in the whole run,
      the first of those. */
  lemma VictimIsLeastWritten(n: nat, ops: seq<Op>)
    requires n > 0 && 2 * |ops| < U63 - 1
    ensures var v := Victim(RunTable(n, ops).slots);
            && (forall k :: 0 <= k < n ==> TouchCount(n, ops, v) <= TouchCount(n, ops, k))
            && (forall k :: 0 <= k < v ==> TouchCount(n, ops, v) < TouchCount(n, ops, k))
  {
    hide RunTable, TouchCount, Victim;
    var slots := RunTable(n, ops).slots;
    EvictsOldest(slots);
    WordIsTouches(n, ops, 0);
    forall k | 0 <= k < n
      ensures slots[k].ver == 2 * TouchCount(n, ops, k)
    {
      WordIsTouches(n, ops, k);
    }
  }
}
