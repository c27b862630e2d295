/** What the copy-on-write registries hold: the component map (component.go,
    page.go) and the list of preload hints (preload.go). */
module Registries {
  import opened Wrappers
  import opened CopyOnWrite

  // ------------------------------------------------------------------------
  // The component map
  // ------------------------------------------------------------------------

  datatype MapOp<V> = Register(name: string, value: V) | Unregister(name: string)

  /** Both operations always publish a copy. */
  function MapNext<V>(op: MapOp<V>, m: map<string, V>): Option<map<string, V>> {
    match op
    case Register(name, value) => Some(m[name := value])
    case Unregister(name) => Some(m - {name})
  }

  /** The last operation on a name. */
  function LastOn<V>(ops: seq<MapOp<V>>, name: string): Option<MapOp<V>> {
    if ops == [] then None
    else if ops[|ops| - 1].name == name then Some(ops[|ops| - 1])
    else LastOn(ops[..|ops| - 1], name)
  }

  /** A lookup finds what the last operation on the name left. */
  lemma {:induction false} LookupIsLast<V>(first: map<string, V>, ops: seq<MapOp<V>>, name: string)
    ensures var m := Fold(MapNext, first, ops);
            match LastOn(ops, name)
            case Some(Register(_, value)) => name in m && m[name] == value
            case Some(Unregister(_)) => name !in m
            case None => (name in m <==> name in first) && (name in m ==> m[name] == first[name])
  {
    if ops != [] {
      LookupIsLast(first, ops[..|ops| - 1], name);
    }
  }

  /** The copy a registration publishes. */
  method CopyRegister<V>(base: map<string, V>, name: string, value: V) returns (m: map<string, V>)
    ensures MapNext(Register(name, value), base) == Some(m)
  {
    m := map[];
    var left := base.Keys;
    while left != {}
      invariant left <= base.Keys && m.Keys == base.Keys - left
      invariant forall k :: k in m ==> m[k] == base[k]
      decreases |left|
    {
      var k :| k in left;
      m := m[k := base[k]];
      left := left - {k};
    }
    assert m == base;
    m := m[name := value];
  }

  method CopyUnregister<V>(base: map<string, V>, name: string) returns (m: map<string, V>)
    ensures MapNext(Unregister(name), base) == Some(m)
  {
    m := map[];
    var left := base.Keys;
    while left != {}
      invariant left <= base.Keys
      invariant forall k :: k in m <==> k in base && k !in left && k != name
      invariant forall k :: k in m ==> m[k] == base[k]
      decreases |left|
    {
      var k :| k in left;
      if k != name {
        m := m[k := base[k]];
      }
      left := left - {k};
    }
    assert m == base - {name};
  }

  // ------------------------------------------------------------------------
  // The preload hints
  // ------------------------------------------------------------------------

  datatype Hint = Hint(href: string, kind: string, mime: string)

  datatype HintOp = Preload(hint: Hint) | Unpreload(kind: string, mime: string)

  predicate Matches(h: Hint, kind: string, mime: string) {
    h.kind == kind && h.mime == mime
  }

  function Without(hints: seq<Hint>, kind: string, mime: string): seq<Hint> {
    if hints == [] then []
    else
      var rest := Without(hints[..|hints| - 1], kind, mime);
      var last := hints[|hints| - 1];
      if Matches(last, kind, mime) then rest else rest + [last]
  }

  /** A hint that is there already, or nothing to remove, publishes nothing. */
  function HintNext(op: HintOp, hints: seq<Hint>): Option<seq<Hint>> {
    match op
    case Preload(h) => if h in hints then None else Some(hints + [h])
    case Unpreload(kind, mime) =>
      if |Without(hints, kind, mime)| == |hints| then None else Some(Without(hints, kind, mime))
  }

  /** Since which operation the hint stands in the list, if it does. */
  function Since(ops: seq<HintOp>, h: Hint): Option<nat> {
    if ops == [] then None
    else
      var before := Since(ops[..|ops| - 1], h);
      match ops[|ops| - 1]
      case Preload(g) => if g == h && before.None? then Some(|ops| - 1) else before
      case Unpreload(kind, mime) => if Matches(h, kind, mime) then None else before
  }

  /** The list holds just the hints that stand, in the order they were added;
      so none is there twice. */
  ghost predicate Standing(hints: seq<Hint>, ops: seq<HintOp>) {
    && (forall h :: h in hints <==> Since(ops, h).Some?)
    && (forall i, j :: 0 <= i < j < |hints| ==> Before(Since(ops, hints[i]), Since(ops, hints[j])))
  }

  predicate Before(a: Option<nat>, b: Option<nat>) {
    a.Some? && b.Some? && a.value < b.value
  }

  lemma {:induction false} WithoutIsFilter(hints: seq<Hint>, kind: string, mime: string)
    ensures var r := Without(hints, kind, mime);
            && |r| <= |hints|
            && (|r| == |hints| ==> r == hints)
            && (forall h :: h in r <==> h in hints && !Matches(h, kind, mime))
  {
    if hints != [] {
      WithoutIsFilter(hints[..|hints| - 1], kind, mime);
      assert hints == hints[..|hints| - 1] + [hints[|hints| - 1]];
    }
  }

  /** In a list sorted by the given ranks, what is left after filtering is sorted. */
  ghost predicate Sorted(hints: seq<Hint>, rank: Hint -> Option<nat>) {
    forall i, j :: 0 <= i < j < |hints| ==> Before(rank(hints[i]), rank(hints[j]))
  }

  lemma {:induction false} WithoutStaysSorted(hints: seq<Hint>, kind: string, mime: string, rank: Hint -> Option<nat>)
    requires Sorted(hints, rank)
    ensures Sorted(Without(hints, kind, mime), rank)
  {
    hide Before, Matches;
    if hints != [] {
      var init, last := hints[..|hints| - 1], hints[|hints| - 1];
      WithoutStaysSorted(init, kind, mime, rank);
      WithoutIsFilter(init, kind, mime);
      var r := Without(init, kind, mime);
      forall i | 0 <= i < |r|
        ensures Before(rank(r[i]), rank(last))
      {
        assert r[i] in init;
      }
    }
  }

  lemma SinceIsEarlier(ops: seq<HintOp>, h: Hint)
    ensures Since(ops, h).Some? ==> Since(ops, h).value < |ops|
  {
  }

  /** Whatever is preloaded and unpreloaded, the list is what stands. */
  lemma {:induction false} HintsAreStanding(ops: seq<HintOp>)
    ensures Standing(Fold(HintNext, [], ops), ops)
  {
    if ops != [] {
      var before, last := ops[..|ops| - 1], ops[|ops| - 1];
      HintsAreStanding(before);
      var hints := Fold(HintNext, [], before);
      match last {
        case Preload(h) => PreloadStands(hints, before, h);
        case Unpreload(kind, mime) => UnpreloadStands(hints, before, kind, mime);
      }
      assert before + [last] == ops;
    }
  }

  lemma PreloadStands(hints: seq<Hint>, ops: seq<HintOp>, h: Hint)
    requires Standing(hints, ops)
    ensures Standing(Do(HintNext, Preload(h), hints), ops + [Preload(h)])
  {
    assert (ops + [Preload(h)])[..|ops|] == ops;
    forall g
      ensures Since(ops, g).Some? ==> Since(ops, g).value < |ops|
    {
      SinceIsEarlier(ops, g);
    }
  }

  lemma UnpreloadStands(hints: seq<Hint>, ops: seq<HintOp>, kind: string, mime: string)
    requires Standing(hints, ops)
    ensures Standing(Do(HintNext, Unpreload(kind, mime), hints), ops + [Unpreload(kind, mime)])
  {
    assert (ops + [Unpreload(kind, mime)])[..|ops|] == ops;
    WithoutIsFilter(hints, kind, mime);
    WithoutStaysSorted(hints, kind, mime, g => Since(ops, g));
  }

  /** In every interleaving the published hints are those that stand after the
      operations that took effect, and no hint is there twice. */
  lemma PublishedHints(threads: nat, run: seq<Choice<HintOp, seq<Hint>>>, s: State<HintOp, seq<Hint>>)
    requires Reaches(HintNext, Init(threads, []), run, s)
    ensures s.current < |s.heap| && AreCalls(|s.calls|, s.log)
    ensures Standing(s.heap[s.current], OpsOf(s.calls, s.log))
    ensures forall i, j :: 0 <= i < j < |s.heap[s.current]| ==> s.heap[s.current][i] != s.heap[s.current][j]
  {
    InitInv(HintNext, threads, []);
    RunKeepsInv(HintNext, [], Init(threads, []), run, s);
    HintsAreStanding(OpsOf(s.calls, s.log));
  }

  /** In every interleaving a lookup of the published map finds what the last
      operation on the name that took effect left. */
  lemma PublishedComponents<V>(first: map<string, V>, threads: nat, run: seq<Choice<MapOp<V>, map<string, V>>>,
                               s: State<MapOp<V>, map<string, V>>, name: string)
    requires Reaches(MapNext, Init(threads, first), run, s)
    ensures s.current < |s.heap| && AreCalls(|s.calls|, s.log)
    ensures var m := s.heap[s.current];
            match LastOn(OpsOf(s.calls, s.log), name)
            case Some(Register(_, value)) => name in m && m[name] == value
            case Some(Unregister(_)) => name !in m
            case None => (name in m <==> name in first) && (name in m ==> m[name] == first[name])
  {
    InitInv(MapNext, threads, first);
    RunKeepsInv(MapNext, first, Init(threads, first), run, s);
    LookupIsLast(first, OpsOf(s.calls, s.log), name);
  }

  /** The scan and copy of a preload; no result when the hint is there already. */
  method CopyPreload(base: seq<Hint>, h: Hint) returns (r: Option<seq<Hint>>)
    ensures r == HintNext(Preload(h), base)
  {
    var i := 0;
    while i < |base|
      invariant 0 <= i <= |base|
      invariant h !in base[..i]
    {
      if base[i] == h {
        return None;
      }
      i := i + 1;
    }
    r := Some(base + [h]);
  }

  method CopyUnpreload(base: seq<Hint>, kind: string, mime: string) returns (r: Option<seq<Hint>>)
    ensures r == HintNext(Unpreload(kind, mime), base)
  {
    if |base| == 0 {
      return None;
    }
    var kept := [];
    var i := 0;
    while i < |base|
      invariant 0 <= i <= |base|
      invariant kept == Without(base[..i], kind, mime)
    {
      assert base[..i + 1][..i] == base[..i];
      if !Matches(base[i], kind, mime) {
        kept := kept + [base[i]];
      }
      i := i + 1;
    }
    assert base[..i] == base;
    r := if |kept| == |base| then None else Some(kept);
  }
}
