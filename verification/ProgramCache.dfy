/** The program cache with one caller at a time (cache.go): open addressing with
    linear probing, refined to a map keyed by hash. */
module ProgramCache {
  import opened Wrappers
  import opened Bits

  const U63: nat := 0x8000_0000_0000_0000

  datatype Program = Program(id: int)

  /** `ver` is the sequence word: even when no write is in progress. */
  datatype Slot = Slot(ver: nat, hash: nat, tagBits: nat)

  /** A completed write advances the 64-bit sequence word by two. */
  function NextVer(ver: nat): (r: nat)
    ensures ver % 2 == 0 ==> r % 2 == 0
  {
    (ver + 2) % U64
  }

  datatype Table = Table(slots: seq<Slot>, programs: seq<Option<Program>>) {
    ghost predicate Shape() {
      && |slots| == |programs| > 0
      && forall k :: 0 <= k < |slots| ==> slots[k].ver % 2 == 0
    }
  }

  // ------------------------------------------------------------------------
  // Probing
  // ------------------------------------------------------------------------

  function Home(h: nat, n: nat): (r: nat)
    requires n > 0
    ensures r < n
  {
    h % n
  }

  /** The slot `i` steps after `home`, cyclically. */
  function Pos(n: nat, home: nat, i: nat): (k: nat)
    requires home < n && i < n
    ensures k < n
  {
    if home + i < n then home + i else home + i - n
  }

  /** How many steps after `home` slot `k` is. */
  function Dist(n: nat, home: nat, k: nat): (i: nat)
    requires home < n && k < n
    ensures i < n && Pos(n, home, i) == k
  {
    if home <= k then k - home else k + n - home
  }

  lemma PosIsMasked(n: nat, home: nat, i: nat)
    requires home < n && i < n && IsPowerOfTwo(n)
    ensures Pos(n, home, i) == BitAnd(home + i, n - 1)
  {
    var k: nat :| n == Pow2(k);
    MaskIsModulo(home + i, k);
    DivModUnique(home + i, n, if home + i < n then 0 else 1, Pos(n, home, i));
  }

  lemma HomeIsMasked(n: nat, h: nat)
    requires n > 0 && IsPowerOfTwo(n)
    ensures Home(h, n) == BitAnd(h, n - 1)
  {
    var k: nat :| n == Pow2(k);
    MaskIsModulo(h, k);
  }

  /** The slot visited at the i-th step of the probe for `h`. */
  function Probe(slots: seq<Slot>, h: nat, i: nat): Slot
    requires i < |slots|
  {
    slots[Pos(|slots|, Home(h, |slots|), i)]
  }

  /** The first step at or after `i` at which the probe for `h` meets `h` or an
      empty slot; the table size if there is none. */
  function FindSlot(slots: seq<Slot>, h: nat, i: nat): (r: nat)
    requires i <= |slots|
    ensures i <= r <= |slots|
    ensures forall j :: i <= j < r ==> Probe(slots, h, j).hash != 0 && Probe(slots, h, j).hash != h
    ensures r < |slots| ==> Probe(slots, h, r).hash == 0 || Probe(slots, h, r).hash == h
    decreases |slots| - i
  {
    if i == |slots| || Probe(slots, h, i).hash == 0 || Probe(slots, h, i).hash == h then i
    else FindSlot(slots, h, i + 1)
  }

  /** Like FindSlot, but not stopping at empty slots. */
  function FindHash(slots: seq<Slot>, h: nat, i: nat): (r: nat)
    requires i <= |slots|
    ensures i <= r <= |slots|
    ensures forall j :: i <= j < r ==> Probe(slots, h, j).hash != h
    ensures r < |slots| ==> Probe(slots, h, r).hash == h
    decreases |slots| - i
  {
    if i == |slots| || Probe(slots, h, i).hash == h then i else FindHash(slots, h, i + 1)
  }

  // ------------------------------------------------------------------------
  // The operations on a table
  // ------------------------------------------------------------------------

  function EmptyTable(n: nat): Table {
    Table(seq(n, _ => Slot(0, 0, 0)), seq(n, _ => None))
  }

  function GetTable(t: Table, h: nat): Option<Program>
    requires t.Shape()
  {
    var i := FindSlot(t.slots, h, 0);
    if i == |t.slots| || Probe(t.slots, h, i).hash == 0 then None
    else t.programs[Pos(|t.slots|, Home(h, |t.slots|), i)]
  }

  function Store(t: Table, k: nat, h: nat, p: Program): (t': Table)
    requires t.Shape() && k < |t.slots|
    ensures t'.Shape() && |t'.slots| == |t.slots|
  {
    var s := t.slots[k];
    Table(t.slots[k := s.(ver := NextVer(s.ver), hash := h)], t.programs[k := Some(p)])
  }

  /** The oldest slot seen so far and its sequence, scanning from `i`. */
  function VictimFrom(slots: seq<Slot>, i: nat, best: nat, bestVer: nat): (v: nat)
    requires i <= |slots| && best < |slots|
    ensures v < |slots|
    decreases |slots| - i
  {
    if i == |slots| then best
    else if slots[i].ver < bestVer then VictimFrom(slots, i + 1, i, slots[i].ver)
    else VictimFrom(slots, i + 1, best, bestVer)
  }

  function Victim(slots: seq<Slot>): (v: nat)
    requires |slots| > 0
    ensures v < |slots|
  {
    VictimFrom(slots, 0, 0, U63 - 1)
  }

  function PutTable(t: Table, h: nat, p: Program): (t': Table)
    requires t.Shape()
    ensures t'.Shape() && |t'.slots| == |t.slots|
  {
    var n, i := |t.slots|, FindSlot(t.slots, h, 0);
    Store(t, if i < n then Pos(n, Home(h, n), i) else Victim(t.slots), h, p)
  }

  function TagTable(t: Table, h: nat, mask: nat): (t': Table)
    requires t.Shape()
    ensures t'.Shape() && |t'.slots| == |t.slots|
  {
    var n, i := |t.slots|, FindHash(t.slots, h, 0);
    if i == n then t
    else
      var k := Pos(n, Home(h, n), i);
      var s := t.slots[k];
      t.(slots := t.slots[k := s.(ver := NextVer(s.ver), tagBits := BitOr(s.tagBits, mask))])
  }

  /** A slot emptied; its tags stay unless they are dropped too. */
  function Emptied(s: Slot, dropTags: bool): Slot {
    Slot(NextVer(s.ver), 0, if dropTags then 0 else s.tagBits)
  }

  function DeleteTable(t: Table, h: nat): (t': Table)
    requires t.Shape()
    ensures t'.Shape() && |t'.slots| == |t.slots|
  {
    var n, i := |t.slots|, FindHash(t.slots, h, 0);
    if i == n then t
    else
      var k := Pos(n, Home(h, n), i);
      Table(t.slots[k := Emptied(t.slots[k], false)], t.programs[k := None])
  }

  predicate Tagged(s: Slot, bit: nat) {
    BitAnd(s.tagBits, bit) != 0
  }

  /** How many of the first `n` slots carry the bit. */
  function TaggedIn(slots: seq<Slot>, bit: nat, n: nat): nat
    requires n <= |slots|
  {
    if n == 0 then 0 else TaggedIn(slots, bit, n - 1) + if Tagged(slots[n - 1], bit) then 1 else 0
  }

  lemma {:induction false} TaggedInCounts(slots: seq<Slot>, bit: nat, n: nat)
    requires n <= |slots|
    ensures TaggedIn(slots, bit, n) == |set k: nat | k < n && k < |slots| && Tagged(slots[k], bit)|
  {
    hide Tagged;
    var tagged := set k: nat | k < n && k < |slots| && Tagged(slots[k], bit);
    if n == 0 {
      assert tagged == {};
    } else {
      var before := set k: nat | k < n - 1 && k < |slots| && Tagged(slots[k], bit);
      TaggedInCounts(slots, bit, n - 1);
      assert tagged == before + if Tagged(slots[n - 1], bit) then {n - 1} else {};
    }
  }

  function InvalidateTable(t: Table, bit: nat): (t': Table)
    requires t.Shape()
    ensures t'.Shape() && |t'.slots| == |t.slots|
  {
    Table(
      seq(|t.slots|, k requires 0 <= k < |t.slots| && t.Shape() =>
        if Tagged(t.slots[k], bit) then Emptied(t.slots[k], true) else t.slots[k]),
      seq(|t.slots|, k requires 0 <= k < |t.slots| && t.Shape() =>
        if Tagged(t.slots[k], bit) then None else t.programs[k]))
  }

  // ------------------------------------------------------------------------
  // Refinement to a map
  // ------------------------------------------------------------------------

  function Lookup(m: map<nat, Program>, h: nat): Option<Program> {
    if h in m then Some(m[h]) else None
  }

  /** No empty slot lies between the home of slot `k`'s hash and `k`. */
  ghost predicate PathFull(slots: seq<Slot>, k: nat)
    requires k < |slots|
  {
    var n, h := |slots|, slots[k].hash;
    forall j :: 0 <= j < Dist(n, Home(h, n), k) ==> Probe(slots, h, j).hash != 0
  }

  ghost predicate Holds(slots: seq<Slot>, h: nat, k: nat) {
    k < |slots| && slots[k].hash == h
  }

  /** The table stores exactly `m`: one reachable slot for each hash. */
  ghost predicate Refines(t: Table, m: map<nat, Program>) {
    && t.Shape()
    && (forall k :: 0 <= k < |t.slots| && t.slots[k].hash != 0 ==>
          Lookup(m, t.slots[k].hash) == t.programs[k] != None)
    && (forall k :: 0 <= k < |t.slots| && t.slots[k].hash != 0 ==> PathFull(t.slots, k))
    && (forall a, b :: 0 <= a < b < |t.slots| && t.slots[a].hash == t.slots[b].hash ==> t.slots[a].hash == 0)
    && (forall h :: h in m ==> h != 0 && exists k: nat :: Holds(t.slots, h, k))
  }

  /** The probe for `h` stops at `h` exactly when `h` is stored. */
  lemma ProbeFinds(t: Table, m: map<nat, Program>, h: nat)
    requires Refines(t, m) && h != 0
    ensures var i := FindSlot(t.slots, h, 0);
            h in m <==> i < |t.slots| && Probe(t.slots, h, i).hash == h
  {
    hide Home, FindSlot;
    var n, i := |t.slots|, FindSlot(t.slots, h, 0);
    if h in m {
      var k: nat :| Holds(t.slots, h, k);
      var d := Dist(n, Home(h, n), k);
      assert PathFull(t.slots, k);
      assert Probe(t.slots, h, d).hash == h;
      if i < d {
        assert Probe(t.slots, h, i).hash != 0;
      }
    }
  }

  /** Get agrees with the map. */
  lemma GetIsLookup(t: Table, m: map<nat, Program>, h: nat)
    requires Refines(t, m) && h != 0
    ensures GetTable(t, h) == Lookup(m, h)
  {
    ProbeFinds(t, m, h);
  }

  /** What a Put does to the map: with no room, the victim's hash is evicted. */
  ghost function PutMap(t: Table, m: map<nat, Program>, h: nat, p: Program): map<nat, Program>
    requires t.Shape()
  {
    if FindSlot(t.slots, h, 0) < |t.slots| then m[h := p]
    else (m - {t.slots[Victim(t.slots)].hash})[h := p]
  }

  /** Room means: the hash is stored already, or some slot is empty. */
  lemma RoomOrEviction(t: Table, m: map<nat, Program>, h: nat)
    requires Refines(t, m) && h != 0
    ensures FindSlot(t.slots, h, 0) < |t.slots|
            <==> h in m || exists k :: 0 <= k < |t.slots| && t.slots[k].hash == 0
  {
    var n, i := |t.slots|, FindSlot(t.slots, h, 0);
    ProbeFinds(t, m, h);
    if i == n {
      forall k | 0 <= k < n
        ensures t.slots[k].hash != 0
      {
        assert Probe(t.slots, h, Dist(n, Home(h, n), k)) == t.slots[k];
      }
    }
  }

  /** Storing into a slot reached by the probe, or into any slot of a full table. */
  lemma StoreRefines(t: Table, m: map<nat, Program>, k: nat, h: nat, p: Program)
    requires Refines(t, m) && h != 0 && k < |t.slots|
    requires forall j :: 0 <= j < Dist(|t.slots|, Home(h, |t.slots|), k) ==> Probe(t.slots, h, j).hash != 0
    requires forall j :: 0 <= j < |t.slots| && j != k ==> t.slots[j].hash != h
    ensures Refines(Store(t, k, h, p), (m - {t.slots[k].hash})[h := p])
  {
    hide Home, Pos, FindSlot, NextVer;
    var n, t', m' := |t.slots|, Store(t, k, h, p), (m - {t.slots[k].hash})[h := p];
    forall j | 0 <= j < n && t'.slots[j].hash != 0
      ensures Lookup(m', t'.slots[j].hash) == t'.programs[j] != None
      ensures PathFull(t'.slots, j)
    {
      if j != k {
        assert PathFull(t.slots, j);
        assert t'.slots[j] == t.slots[j];
      }
      forall i | 0 <= i < Dist(n, Home(t'.slots[j].hash, n), j)
        ensures Probe(t'.slots, t'.slots[j].hash, i).hash != 0
      {
        assert Probe(t.slots, t'.slots[j].hash, i).hash != 0;
      }
    }
    forall g | g in m'
      ensures g != 0 && exists j: nat :: Holds(t'.slots, g, j)
    {
      if g == h {
        assert Holds(t'.slots, g, k);
      } else {
        var j: nat :| Holds(t.slots, g, j);
        assert Holds(t'.slots, g, j);
      }
    }
  }

  lemma PutRefines(t: Table, m: map<nat, Program>, h: nat, p: Program)
    requires Refines(t, m) && h != 0
    ensures Refines(PutTable(t, h, p), PutMap(t, m, h, p))
  {
    hide Home, FindSlot, Store, Victim;
    var n, i := |t.slots|, FindSlot(t.slots, h, 0);
    ProbeFinds(t, m, h);
    if i < n {
      var k := Pos(n, Home(h, n), i);
      forall j | 0 <= j < n && j != k
        ensures t.slots[j].hash != h
      {
      }
      StoreRefines(t, m, k, h, p);
      assert (m - {t.slots[k].hash})[h := p] == m[h := p] by {
        assert t.slots[k].hash == 0 ==> 0 !in m;
      }
    } else {
      forall j | 0 <= j < n
        ensures t.slots[j].hash != 0 && t.slots[j].hash != h
      {
        assert Probe(t.slots, h, Dist(n, Home(h, n), j)) == t.slots[j];
      }
      StoreRefines(t, m, Victim(t.slots), h, p);
    }
  }

  lemma TagRefines(t: Table, m: map<nat, Program>, h: nat, mask: nat)
    requires Refines(t, m)
    ensures Refines(TagTable(t, h, mask), m)
  {
    hide Home, Pos, FindHash, BitOr, NextVer;
    var t' := TagTable(t, h, mask);
    assert forall k :: 0 <= k < |t.slots| ==> t'.slots[k].hash == t.slots[k].hash;
    forall k | 0 <= k < |t.slots| && t'.slots[k].hash != 0
      ensures PathFull(t'.slots, k)
    {
      assert PathFull(t.slots, k);
      forall j | 0 <= j < Dist(|t.slots|, Home(t.slots[k].hash, |t.slots|), k)
        ensures Probe(t'.slots, t.slots[k].hash, j).hash != 0
      {
        assert Probe(t.slots, t.slots[k].hash, j).hash != 0;
      }
    }
    forall g | g in m
      ensures exists k: nat :: Holds(t'.slots, g, k)
    {
      var k: nat :| Holds(t.slots, g, k);
      assert Holds(t'.slots, g, k);
    }
  }

  /** The victim is the lowest-indexed slot of minimal sequence, as long as some
      sequence is below the scan's starting bound 2^63-1; else it is slot 0. */
  lemma {:induction false} VictimIsOldest(slots: seq<Slot>, i: nat, best: nat, bestVer: nat)
    requires i <= |slots| && best < |slots|
    requires best < i ==> bestVer <= slots[best].ver
    ensures var v := VictimFrom(slots, i, best, bestVer);
            if forall k :: i <= k < |slots| ==> slots[k].ver >= bestVer then v == best
            else
              && i <= v && slots[v].ver < bestVer
              && (forall k :: i <= k < |slots| ==> slots[v].ver <= slots[k].ver)
              && (forall k :: i <= k < v ==> slots[v].ver < slots[k].ver)
    decreases |slots| - i
  {
    if i < |slots| {
      if slots[i].ver < bestVer {
        VictimIsOldest(slots, i + 1, i, slots[i].ver);
      } else {
        VictimIsOldest(slots, i + 1, best, bestVer);
      }
    }
  }

  lemma EvictsOldest(slots: seq<Slot>)
    requires |slots| > 0
    ensures var v := Victim(slots);
            if forall k :: 0 <= k < |slots| ==> slots[k].ver >= U63 - 1 then v == 0
            else
              && (forall k :: 0 <= k < |slots| ==> slots[v].ver <= slots[k].ver)
              && (forall k :: 0 <= k < v ==> slots[v].ver < slots[k].ver)
  {
    VictimIsOldest(slots, 0, 0, U63 - 1);
  }

  // ------------------------------------------------------------------------
  // Emptying slots
  // ------------------------------------------------------------------------

  /** `t'` is `t` with the slots in `gone` emptied. */
  ghost predicate Cleared(t: Table, t': Table, gone: set<nat>) {
    && t.Shape() && t'.Shape() && |t'.slots| == |t.slots|
    && forall k :: 0 <= k < |t.slots| ==>
         if k in gone then t'.slots[k].hash == 0
         else t'.slots[k].hash == t.slots[k].hash && t'.programs[k] == t.programs[k]
  }

  /** Slot `g` lies on the probe path of the hash stored in slot `k`. */
  ghost predicate Crosses(slots: seq<Slot>, g: nat, k: nat)
    requires g < |slots| && k < |slots|
  {
    var n := |slots|;
    var home := Home(slots[k].hash, n);
    Dist(n, home, g) < Dist(n, home, k)
  }

  /** No entry that stays has an emptied slot on its probe path. */
  ghost predicate NoPathCut(t: Table, gone: set<nat>) {
    forall g, k :: 0 <= g < |t.slots| && 0 <= k < |t.slots| && g in gone && k !in gone && t.slots[k].hash != 0
      ==> !Crosses(t.slots, g, k)
  }

  ghost function Remaining(t: Table, m: map<nat, Program>, gone: set<nat>): map<nat, Program>
  {
    map h | h in m && (forall k :: k in gone && 0 <= k < |t.slots| ==> t.slots[k].hash != h) :: m[h]
  }

  /** Emptying slots leaves no tombstone: afterwards Get agrees with the map less
      the emptied entries exactly when no remaining entry's path is cut. */
  lemma ClearedExactly(t: Table, m: map<nat, Program>, t': Table, gone: set<nat>)
    requires Refines(t, m) && Cleared(t, t', gone)
    ensures (forall h :: h != 0 ==> GetTable(t', h) == Lookup(Remaining(t, m, gone), h)) <==> NoPathCut(t, gone)
  {
    var m' := Remaining(t, m, gone);
    if NoPathCut(t, gone) {
      ClearedRefines(t, m, t', gone);
      forall h | h != 0
        ensures GetTable(t', h) == Lookup(m', h)
      {
        GetIsLookup(t', m', h);
      }
    } else {
      var g, k :| 0 <= g < |t.slots| && 0 <= k < |t.slots| && g in gone && k !in gone
        && t.slots[k].hash != 0 && Crosses(t.slots, g, k);
      CutPathLoses(t, m, t', gone, g, k);
      var h := t.slots[k].hash;
      assert GetTable(t', h) != Lookup(m', h);
    }
  }

  lemma PathStaysFull(t: Table, t': Table, gone: set<nat>, k: nat)
    requires Cleared(t, t', gone) && NoPathCut(t, gone)
    requires k < |t.slots| && k !in gone && t.slots[k].hash != 0 && PathFull(t.slots, k)
    ensures PathFull(t'.slots, k)
  {
    hide Home;
    var n, h := |t.slots|, t.slots[k].hash;
    forall j | 0 <= j < Dist(n, Home(h, n), k)
      ensures Probe(t'.slots, h, j).hash != 0
    {
      var g := Pos(n, Home(h, n), j);
      assert Probe(t.slots, h, j).hash != 0;
      assert Dist(n, Home(h, n), g) == j;
      assert Crosses(t.slots, g, k);
    }
  }

  lemma ClearedRefines(t: Table, m: map<nat, Program>, t': Table, gone: set<nat>)
    requires Refines(t, m) && Cleared(t, t', gone) && NoPathCut(t, gone)
    ensures Refines(t', Remaining(t, m, gone))
  {
    hide Home, PathFull, NoPathCut;
    var n, m' := |t.slots|, Remaining(t, m, gone);
    forall k | 0 <= k < n && t'.slots[k].hash != 0
      ensures PathFull(t'.slots, k)
      ensures Lookup(m', t'.slots[k].hash) == t'.programs[k] != None
    {
      PathStaysFull(t, t', gone, k);
    }
    forall h | h in m'
      ensures h != 0 && exists k: nat :: Holds(t'.slots, h, k)
    {
      var k: nat :| Holds(t.slots, h, k);
      assert Holds(t'.slots, h, k);
    }
  }

  lemma CutPathLoses(t: Table, m: map<nat, Program>, t': Table, gone: set<nat>, g: nat, k: nat)
    requires Refines(t, m) && Cleared(t, t', gone) && g < |t.slots| && k < |t.slots|
    requires g in gone && k !in gone && t.slots[k].hash != 0 && Crosses(t.slots, g, k)
    ensures GetTable(t', t.slots[k].hash) == None
    ensures Lookup(Remaining(t, m, gone), t.slots[k].hash) != None
  {
    hide Home, FindSlot, PathFull;
    var n, h := |t.slots|, t.slots[k].hash;
    var home := Home(h, n);
    var i := FindSlot(t'.slots, h, 0);
    assert Probe(t'.slots, h, Dist(n, home, g)).hash == 0;
    assert i <= Dist(n, home, g) < Dist(n, home, k);
    var p := Pos(n, home, i);
    assert p != k by {
      assert Dist(n, home, p) == i;
    }
  }

  /** The slot that deleting `h` empties, if there is one. */
  ghost function DeletedSlot(t: Table, h: nat): set<nat>
    requires t.Shape()
  {
    var n, i := |t.slots|, FindHash(t.slots, h, 0);
    if i < n then {Pos(n, Home(h, n), i)} else {}
  }

  ghost function TaggedSlots(t: Table, bit: nat): set<nat> {
    set k: nat | k < |t.slots| && Tagged(t.slots[k], bit)
  }

  lemma DeleteClears(t: Table, h: nat)
    requires t.Shape()
    ensures Cleared(t, DeleteTable(t, h), DeletedSlot(t, h))
  {
    hide Home, Pos, FindHash, NextVer;
  }

  lemma DeleteLeaves(t: Table, m: map<nat, Program>, h: nat)
    requires Refines(t, m) && h != 0
    ensures Remaining(t, m, DeletedSlot(t, h)) == m - {h}
  {
    hide Home, Pos, PathFull, FindHash;
    forall g | g in m
      ensures g in Remaining(t, m, DeletedSlot(t, h)) <==> g != h
    {
      var k: nat :| Holds(t.slots, g, k);
      FindsSlot(t.slots, g, k);
    }
  }

  /** FindHash finds a hash that is somewhere in the table. */
  lemma FindsSlot(slots: seq<Slot>, h: nat, k: nat)
    requires Holds(slots, h, k)
    ensures FindHash(slots, h, 0) < |slots| && Probe(slots, h, FindHash(slots, h, 0)).hash == h
  {
    hide Home, FindHash;
    assert Probe(slots, h, Dist(|slots|, Home(h, |slots|), k)).hash == h;
  }

  /** Deleting a stored hash empties its one slot. */
  lemma DeleteExactly(t: Table, m: map<nat, Program>, h: nat)
    requires Refines(t, m) && h in m
    ensures var n, i := |t.slots|, FindSlot(t.slots, h, 0);
            && i < n && Probe(t.slots, h, i).hash == h
            && ((forall g :: g != 0 ==> GetTable(DeleteTable(t, h), g) == Lookup(m - {h}, g))
                <==> NoPathCut(t, {Pos(n, Home(h, n), i)}))
  {
    hide DeleteTable, GetTable, NoPathCut, Remaining, FindSlot, FindHash, PathFull, Home;
    ProbeFinds(t, m, h);
    FindHashIsFindSlot(t.slots, h, 0);
    DeleteClears(t, h);
    DeleteLeaves(t, m, h);
    ClearedExactly(t, m, DeleteTable(t, h), DeletedSlot(t, h));
  }

  lemma {:induction false} FindHashIsFindSlot(slots: seq<Slot>, h: nat, i: nat)
    requires i <= |slots|
    requires var r := FindSlot(slots, h, i); r < |slots| && Probe(slots, h, r).hash == h
    ensures FindHash(slots, h, i) == FindSlot(slots, h, i)
    decreases |slots| - i
  {
    if Probe(slots, h, i).hash != h {
      FindHashIsFindSlot(slots, h, i + 1);
    }
  }

  lemma InvalidateClears(t: Table, bit: nat)
    requires t.Shape()
    ensures Cleared(t, InvalidateTable(t, bit), TaggedSlots(t, bit))
  {
    hide BitAnd;
  }

  /** Invalidating a tag empties every slot that carries its bit. */
  lemma InvalidateExactly(t: Table, m: map<nat, Program>, bit: nat)
    requires Refines(t, m)
    ensures var gone := TaggedSlots(t, bit);
            (forall h :: h != 0 ==> GetTable(InvalidateTable(t, bit), h) == Lookup(Remaining(t, m, gone), h))
            <==> NoPathCut(t, gone)
  {
    hide InvalidateTable, GetTable, NoPathCut, Remaining, TaggedSlots, Cleared, PathFull;
    InvalidateClears(t, bit);
    ClearedExactly(t, m, InvalidateTable(t, bit), TaggedSlots(t, bit));
  }

  // ------------------------------------------------------------------------
  // The cache object
  // ------------------------------------------------------------------------

  lemma SixtyFourIsSmall()
    ensures 64 <= Pow2(62)
  {
    Pow2Monotonic(6, 62);
    assert Pow2(6) == 64;
  }

  method NewTable(n: nat) returns (slots: array<Slot>, programs: array<Option<Program>>)
    ensures fresh(slots) && fresh(programs)
    ensures Table(slots[..], programs[..]) == EmptyTable(n)
  {
    slots := new Slot[n](_ => Slot(0, 0, 0));
    programs := new Option<Program>[n](_ => None);
    assert slots[..] == EmptyTable(n).slots;
    assert programs[..] == EmptyTable(n).programs;
  }

  class Cache {
    var slots: array<Slot>
    var programs: array<Option<Program>>
    var mask: nat
    var capacity: nat
    var hits: nat
    var misses: nat
    var evicts: nat

    ghost function T(): Table
      reads this, slots, programs
    {
      Table(slots[..], programs[..])
    }

    ghost predicate Valid()
      reads this, slots, programs
    {
      && T().Shape()
      && slots.Length == programs.Length == capacity
      && mask == capacity - 1
      && IsPowerOfTwo(capacity)
    }

    /** The capacity is the least power of two that is at least the one wanted and 64. */
    constructor (wanted: int)
      requires wanted <= Pow2(62)
      ensures Valid() && T() == EmptyTable(capacity)
      ensures fresh(slots) && fresh(programs)
      ensures wanted <= capacity && 64 <= capacity
      ensures forall k: nat :: wanted <= Pow2(k) && 64 <= Pow2(k) ==> capacity <= Pow2(k)
      ensures hits == misses == evicts == 0
    {
      hide Pow2, IsPowerOfTwo;
      SixtyFourIsSmall();
      var n := NextPowerOfTwo(if wanted < 64 then 64 else wanted);
      var emptySlots, emptyPrograms := NewTable(n);
      slots, programs := emptySlots, emptyPrograms;
      mask, capacity := n - 1, n;
      hits, misses, evicts := 0, 0, 0;
      new;
      assert EmptyTable(n).Shape();
    }

    method At(home: nat, i: nat) returns (k: nat)
      requires Valid() && home < capacity && i < capacity
      ensures k == Pos(capacity, home, i)
    {
      PosIsMasked(capacity, home, i);
      k := BitAnd(home + i, mask);
    }

    method Get(h: nat) returns (r: Option<Program>)
      requires Valid()
      modifies this`hits, this`misses
      ensures Valid() && r == GetTable(T(), h)
      ensures if r.Some? then hits == old(hits) + 1 && misses == old(misses)
              else hits == old(hits) && misses == old(misses) + 1
    {
      HomeIsMasked(capacity, h);
      var idx := BitAnd(h, mask);
      for i := 0 to capacity
        invariant Valid() && hits == old(hits) && misses == old(misses)
        invariant FindSlot(T().slots, h, i) == FindSlot(T().slots, h, 0)
      {
        var k := At(idx, i);
        var s := slots[k];
        if s.ver % 2 == 0 {
          if s.hash == 0 {
            misses := misses + 1;
            return None;
          }
          if s.hash == h {
            r := programs[k];
            if r.None? {
              misses := misses + 1;
            } else {
              hits := hits + 1;
            }
            return;
          }
        }
      }
      misses := misses + 1;
      r := None;
    }

    method StoreAt(k: nat, h: nat, p: Program)
      requires Valid() && k < capacity
      modifies slots, programs
      ensures Valid() && T() == Store(old(T()), k, h, p)
    {
      var s := slots[k];
      slots[k] := Slot(NextVer(s.ver), h, s.tagBits);
      programs[k] := Some(p);
    }

    method Put(h: nat, p: Program)
      requires Valid()
      modifies slots, programs, this`evicts
      ensures Valid() && T() == PutTable(old(T()), h, p)
      ensures evicts == old(evicts) + if FindSlot(old(T()).slots, h, 0) < capacity then 0 else 1
    {
      HomeIsMasked(capacity, h);
      var idx := BitAnd(h, mask);
      for i := 0 to capacity
        invariant Valid() && T() == old(T()) && evicts == old(evicts)
        invariant FindSlot(T().slots, h, i) == FindSlot(T().slots, h, 0)
      {
        var k := At(idx, i);
        var s := slots[k];
        if s.ver % 2 == 0 && (s.hash == 0 || s.hash == h) {
          StoreAt(k, h, p);
          return;
        }
      }
      EvictLRU(h, p);
    }

    method EvictLRU(h: nat, p: Program)
      requires Valid()
      modifies slots, programs, this`evicts
      ensures Valid() && T() == Store(old(T()), Victim(old(T()).slots), h, p)
      ensures evicts == old(evicts) + 1
    {
      var oldestIdx: nat, oldestVer: nat := 0, U63 - 1;
      for i := 0 to capacity
        invariant Valid() && T() == old(T()) && oldestIdx < capacity
        invariant VictimFrom(T().slots, i, oldestIdx, oldestVer) == Victim(T().slots)
      {
        if slots[i].ver % 2 == 0 && slots[i].ver < oldestVer {
          oldestIdx, oldestVer := i, slots[i].ver;
        }
      }
      StoreAt(oldestIdx, h, p);
      evicts := evicts + 1;
    }

    method SetTag(h: nat, bits: nat)
      requires Valid()
      modifies slots
      ensures Valid() && T() == TagTable(old(T()), h, bits)
    {
      HomeIsMasked(capacity, h);
      var idx := BitAnd(h, mask);
      for i := 0 to capacity
        invariant Valid() && T() == old(T())
        invariant FindHash(T().slots, h, i) == FindHash(T().slots, h, 0)
      {
        var k := At(idx, i);
        var s := slots[k];
        if s.ver % 2 == 0 && s.hash == h {
          TagAt(k, bits);
          return;
        }
      }
    }

    method TagAt(k: nat, bits: nat)
      requires Valid() && k < capacity
      modifies slots
      ensures Valid()
      ensures var s := old(T()).slots[k];
              T() == old(T()).(slots := old(T()).slots[k := s.(ver := NextVer(s.ver),
                                                              tagBits := BitOr(s.tagBits, bits))])
    {
      var s := slots[k];
      slots[k] := s.(ver := NextVer(s.ver), tagBits := BitOr(s.tagBits, bits));
    }

    method Delete(h: nat)
      requires Valid()
      modifies slots, programs
      ensures Valid() && T() == DeleteTable(old(T()), h)
    {
      HomeIsMasked(capacity, h);
      var idx := BitAnd(h, mask);
      for i := 0 to capacity
        invariant Valid() && T() == old(T())
        invariant FindHash(T().slots, h, i) == FindHash(T().slots, h, 0)
      {
        var k := At(idx, i);
        if slots[k].hash == h {
          EmptyAt(k, false);
          return;
        }
      }
    }

    method EmptyAt(k: nat, dropTags: bool)
      requires Valid() && k < capacity
      modifies slots, programs
      ensures Valid()
      ensures T() == Table(old(T()).slots[k := Emptied(old(T()).slots[k], dropTags)], old(T()).programs[k := None])
    {
      slots[k] := Emptied(slots[k], dropTags);
      programs[k] := None;
    }

    method InvalidateTag(bit: nat) returns (count: nat)
      requires Valid()
      modifies slots, programs
      ensures Valid() && T() == InvalidateTable(old(T()), bit)
      ensures count == TaggedIn(old(T()).slots, bit, capacity)
    {
      hide Tagged, Emptied, IsPowerOfTwo, InvalidatedTo, InvalidateTable;
      count := 0;
      NoneInvalidated(T(), bit);
      for i := 0 to capacity
        invariant Valid() && count == TaggedIn(old(T()).slots, bit, i)
        invariant InvalidatedTo(old(T()), T(), bit, i)
      {
        OneMoreInvalidated(old(T()), T(), bit, i);
        if Tagged(slots[i], bit) {
          EmptyAt(i, true);
          count := count + 1;
        }
      }
      AllInvalidated(old(T()), T(), bit);
    }
  }

  /** The invalidation of `t` has come as far as slot `i`. */
  ghost predicate InvalidatedTo(t: Table, t': Table, bit: nat, i: nat) {
    && t.Shape() && |t'.slots| == |t'.programs| == |t.slots|
    && var done := InvalidateTable(t, bit);
       forall k :: 0 <= k < |t.slots| ==>
         && t'.slots[k] == (if k < i then done.slots[k] else t.slots[k])
         && t'.programs[k] == (if k < i then done.programs[k] else t.programs[k])
  }

  lemma NoneInvalidated(t: Table, bit: nat)
    requires t.Shape()
    ensures InvalidatedTo(t, t, bit, 0)
  {
  }

  lemma OneMoreInvalidated(t: Table, t': Table, bit: nat, i: nat)
    requires InvalidatedTo(t, t', bit, i) && i < |t'.slots|
    ensures t'.slots[i] == t.slots[i]
    ensures if Tagged(t.slots[i], bit)
            then InvalidatedTo(t, Table(t'.slots[i := Emptied(t.slots[i], true)], t'.programs[i := None]), bit, i + 1)
            else InvalidatedTo(t, t', bit, i + 1)
  {
  }

  lemma AllInvalidated(t: Table, t': Table, bit: nat)
    requires InvalidatedTo(t, t', bit, |t.slots|)
    ensures t' == InvalidateTable(t, bit)
  {
  }
}
