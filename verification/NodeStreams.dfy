/** The structure-of-arrays node stream and its builder (soa.go). */
module NodeStreams {
  const FLAG_VOID: bv8 := 1
  const FLAG_SELF_CLOSING: bv8 := 2
  const FLAG_COMPONENT: bv8 := 4
  const FLAG_FRAGMENT: bv8 := 8
  const FLAG_RAW: bv8 := 16
  const FLAG_TEXT: bv8 := 32

  predicate Has(flags: bv8, bits: bv8) {
    flags & bits != 0
  }

  /** An attribute value: nil, a string, a byte slice, something that can turn
      itself into a string, or anything else. */
  datatype AttrValue =
    | NoValue
    | StringValue(s: string)
    | BytesValue(s: string)
    | StringerValue(s: string)
    | OtherValue

  /** The string written for a value. */
  function Stringify(v: AttrValue): string {
    match v
    case StringValue(s) => s
    case BytesValue(s) => s
    case StringerValue(s) => s
    case _ => ""
  }

  /** A node is an index into the parallel slices. */
  datatype NodeStream = NodeStream(
    tag: seq<string>,
    flags: seq<bv8>,
    attrStart: seq<nat>,
    attrEnd: seq<nat>,
    textOff: seq<(nat, nat)>,
    parent: seq<int>,
    firstChild: seq<int>,
    nextSibling: seq<int>,
    componentName: seq<string>,
    attrKeys: seq<string>,
    attrVals: seq<AttrValue>,
    textBuf: string)
  {
    function Count(): nat {
      |tag|
    }

    /** All per-node slices have one entry per node. */
    ghost predicate Sized() {
      && |flags| == |attrStart| == |attrEnd| == |textOff| == |tag|
      && |parent| == |firstChild| == |nextSibling| == |componentName| == |tag|
    }

    ghost predicate TablesInBounds() {
      && Sized()
      && |attrKeys| == |attrVals|
      && (forall i :: 0 <= i < Count() ==> attrEnd[i] <= |attrKeys|)
      && (forall i :: 0 <= i < Count() ==> textOff[i].0 <= textOff[i].1 <= |textBuf|)
    }

    /** Every link goes to a later node, so every walk terminates. */
    ghost predicate LinksForward() {
      && Sized()
      && (forall i :: 0 <= i < Count() ==> firstChild[i] == -1 || i < firstChild[i] < Count())
      && (forall i :: 0 <= i < Count() ==> nextSibling[i] == -1 || i < nextSibling[i] < Count())
    }

    ghost predicate WellFormed() {
      TablesInBounds() && LinksForward()
    }

    function Text(i: nat): string
      requires TablesInBounds() && i < Count()
    {
      textBuf[textOff[i].0..textOff[i].1]
    }

    function NumAttr(i: nat): nat
      requires TablesInBounds() && i < Count()
    {
      if attrEnd[i] <= attrStart[i] then 0 else attrEnd[i] - attrStart[i]
    }

    function AttrKey(i: nat, k: nat): string
      requires TablesInBounds() && i < Count() && k < NumAttr(i)
    {
      attrKeys[attrStart[i] + k]
    }

    function AttrVal(i: nat, k: nat): AttrValue
      requires TablesInBounds() && i < Count() && k < NumAttr(i)
    {
      attrVals[attrStart[i] + k]
    }

    /** A slot wrapper carries a name but is not a component. */
    predicate IsSlot(i: nat)
      requires Sized() && i < Count()
    {
      componentName[i] != "" && !Has(flags[i], FLAG_COMPONENT)
    }
  }

  const EMPTY := NodeStream([], [], [], [], [], [], [], [], [], [], [], "")

  // ------------------------------------------------------------------------
  // Sibling links
  // ------------------------------------------------------------------------

  /** `r` is the least index in [from, upto) whose parent is `p`, or -1. */
  ghost predicate IsNext(parent: seq<int>, p: int, from: nat, upto: nat, r: int)
    requires upto <= |parent|
  {
    if r == -1 then
      forall k :: from <= k < upto ==> parent[k] != p
    else
      && from <= r < upto
      && parent[r] == p
      && forall k :: from <= k < r ==> parent[k] != p
  }

  /** The first-child links after the nodes below `upto` have been linked. */
  ghost predicate FirstLinked(parent: seq<int>, first: seq<int>, upto: nat) {
    && |first| == |parent| && upto <= |parent|
    && forall i :: 0 <= i < |parent| ==> IsNext(parent, i, 1, upto, first[i])
  }

  ghost predicate IsNextSibling(parent: seq<int>, i: nat, upto: nat, r: int)
    requires i < |parent| && upto <= |parent|
  {
    if i == 0 || i >= upto || parent[i] < 0 then r == -1 else IsNext(parent, parent[i], i + 1, upto, r)
  }

  /** The sibling links after the nodes below `upto` have been linked. */
  ghost predicate NextLinked(parent: seq<int>, next: seq<int>, upto: nat) {
    && |next| == |parent| && upto <= |parent|
    && forall i :: 0 <= i < |parent| ==> IsNextSibling(parent, i, upto, next[i])
  }

  ghost predicate Linked(s: NodeStream) {
    s.Sized() && FirstLinked(s.parent, s.firstChild, s.Count()) && NextLinked(s.parent, s.nextSibling, s.Count())
  }

  /** Every node but the root hangs below an earlier node. */
  ghost predicate ParentsEarlier(parent: seq<int>) {
    forall i :: 1 <= i < |parent| ==> 0 <= parent[i] < i
  }

  class NodeStreamBuilder {
    var stream: NodeStream

    constructor ()
      ensures stream == EMPTY
    {
      stream := EMPTY;
    }

    constructor From(s: NodeStream)
      ensures stream == s
    {
      stream := s;
    }

    method AppendNode(tag: string, flags: bv8) returns (i: nat)
      requires stream.TablesInBounds()
      modifies this
      ensures i == old(stream).Count()
      ensures stream == WithNode(old(stream), tag, flags)
      ensures stream.TablesInBounds()
    {
      i := |stream.tag|;
      stream := stream.(
        tag := stream.tag + [tag],
        flags := stream.flags + [flags],
        attrStart := stream.attrStart + [0],
        attrEnd := stream.attrEnd + [0],
        textOff := stream.textOff + [(0, 0)],
        parent := stream.parent + [-1],
        firstChild := stream.firstChild + [-1],
        nextSibling := stream.nextSibling + [-1],
        componentName := stream.componentName + [""]);
    }

    method SetParent(child: nat, parent: nat)
      requires stream.TablesInBounds() && child < stream.Count()
      modifies this
      ensures stream == old(stream).(parent := old(stream).parent[child := parent])
      ensures stream.TablesInBounds()
    {
      stream := stream.(parent := stream.parent[child := parent]);
    }

    method SetComponentName(i: nat, name: string)
      requires stream.TablesInBounds() && i < stream.Count()
      modifies this
      ensures stream == old(stream).(componentName := old(stream).componentName[i := name])
      ensures stream.TablesInBounds()
    {
      stream := stream.(componentName := stream.componentName[i := name]);
    }

    method AppendText(text: string, raw: bool) returns (i: nat)
      requires stream.TablesInBounds()
      modifies this
      ensures i == old(stream).Count()
      ensures stream == WithText(old(stream), text, raw)
      ensures stream.TablesInBounds()
    {
      i := AppendNode("#text", if raw then FLAG_TEXT | FLAG_RAW else FLAG_TEXT);
      var lo := |stream.textBuf|;
      var hi := lo + |text|;
      stream := stream.(textBuf := stream.textBuf + text, textOff := stream.textOff[i := (lo, hi)]);
    }

    method SetAttrsEach(i: nat, attrs: seq<AttrKV>)
      requires stream.TablesInBounds() && i < stream.Count()
      modifies this
      ensures stream == WithAttrs(old(stream), i, attrs)
      ensures stream.TablesInBounds()
    {
      if |attrs| == 0 {
        return;
      }
      var start := |stream.attrKeys|;
      var keys, vals := stream.attrKeys, stream.attrVals;
      for k := 0 to |attrs|
        invariant keys == stream.attrKeys + Keys(attrs[..k])
        invariant vals == stream.attrVals + Vals(attrs[..k])
        invariant stream == old(stream)
      {
        KeysValsSnoc(attrs, k);
        keys := keys + [attrs[k].k];
        vals := vals + [StringValue(attrs[k].v)];
      }
      assert attrs[..|attrs|] == attrs;
      stream := stream.(attrKeys := keys, attrVals := vals,
        attrStart := stream.attrStart[i := start], attrEnd := stream.attrEnd[i := |keys|]);
    }

    /** One forward pass turns the parent array into first-child and
        next-sibling links. */
    method FinalizeChildren()
      requires stream.Sized()
      requires forall i :: 0 <= i < stream.Count() ==> stream.parent[i] < stream.Count()
      modifies this
      ensures stream == old(stream).(firstChild := stream.firstChild, nextSibling := stream.nextSibling)
      ensures Linked(stream)
    {
      hide FirstLinked, NextLinked, AllLast;
      var n := stream.Count();
      if n == 0 {
        NoneLinked();
        assert stream.firstChild == [] && stream.nextSibling == [];
        return;
      }
      var parent := stream.parent;
      var last := new int[n](_ => -1);
      var first := seq(n, _ => -1);
      var next := seq(n, _ => -1);
      OneLinked(parent, first);
      assert last[..] == next == first;
      for i := 1 to n
        invariant stream == old(stream) && |first| == |next| == n
        invariant FirstLinked(parent, first, i) && NextLinked(parent, next, i)
        invariant AllLast(parent, i, last[..])
      {
        var p := parent[i];
        FirstStep(parent, first, i, last[..]);
        NextStep(parent, next, i, last[..]);
        LastStep(parent, i, last[..]);
        LastInRange(parent, i, last[..]);
        if p >= 0 {
          if last[p] == -1 {
            first := first[p := i];
          } else {
            next := next[last[p] := i];
          }
          last[p] := i;
        }
      }
      stream := stream.(firstChild := first, nextSibling := next);
    }
  }

  /** `r` is the greatest index in [1, upto) whose parent is `p`, or -1. */
  ghost predicate IsLast(parent: seq<int>, p: int, upto: nat, r: int)
    requires upto <= |parent|
  {
    if r == -1 then
      forall k :: 1 <= k < upto ==> parent[k] != p
    else
      && 1 <= r < upto
      && parent[r] == p
      && forall k :: r < k < upto ==> parent[k] != p
  }

  ghost predicate AllLast(parent: seq<int>, upto: nat, last: seq<int>) {
    |last| == |parent| && upto <= |parent| && forall p :: 0 <= p < |parent| ==> IsLast(parent, p, upto, last[p])
  }

  lemma NoneLinked()
    ensures FirstLinked([], [], 0) && NextLinked([], [], 0)
  {
  }

  lemma OneLinked(parent: seq<int>, none: seq<int>)
    requires |none| == |parent| > 0 && forall i :: 0 <= i < |none| ==> none[i] == -1
    ensures FirstLinked(parent, none, 1) && NextLinked(parent, none, 1) && AllLast(parent, 1, none)
  {
  }

  lemma LastInRange(parent: seq<int>, i: nat, last: seq<int>)
    requires AllLast(parent, i, last)
    ensures forall p :: 0 <= p < |parent| ==> -1 <= last[p] < |parent|
  {
  }

  lemma FirstStep(parent: seq<int>, first: seq<int>, i: nat, last: seq<int>)
    requires FirstLinked(parent, first, i) && AllLast(parent, i, last)
    requires 1 <= i < |parent| && parent[i] < |parent|
    ensures
      var p := parent[i];
      FirstLinked(parent, if p >= 0 && last[p] == -1 then first[p := i] else first, i + 1)
  {
    var p := parent[i];
    assert p >= 0 ==> IsLast(parent, p, i, last[p]) && IsNext(parent, p, 1, i, first[p]);
  }

  lemma NextStep(parent: seq<int>, next: seq<int>, i: nat, last: seq<int>)
    requires NextLinked(parent, next, i) && AllLast(parent, i, last)
    requires 1 <= i < |parent| && parent[i] < |parent|
    ensures
      var p := parent[i];
      NextLinked(parent, if p >= 0 && last[p] != -1 then next[last[p] := i] else next, i + 1)
  {
    var p := parent[i];
    var next' := if p >= 0 && last[p] != -1 then next[last[p] := i] else next;
    assert p >= 0 ==> IsLast(parent, p, i, last[p]);
    forall j | 0 <= j < |parent|
      ensures IsNextSibling(parent, j, i + 1, next'[j])
    {
      assert IsNextSibling(parent, j, i, next[j]);
    }
  }

  lemma LastStep(parent: seq<int>, i: nat, last: seq<int>)
    requires AllLast(parent, i, last)
    requires 1 <= i < |parent| && parent[i] < |parent|
    ensures AllLast(parent, i + 1, if parent[i] >= 0 then last[parent[i] := i] else last)
  {
  }

  datatype AttrKV = AttrKV(k: string, v: string)

  function Keys(attrs: seq<AttrKV>): (r: seq<string>)
    ensures |r| == |attrs|
  {
    seq(|attrs|, i requires 0 <= i < |attrs| => attrs[i].k)
  }

  function Vals(attrs: seq<AttrKV>): (r: seq<AttrValue>)
    ensures |r| == |attrs|
  {
    seq(|attrs|, i requires 0 <= i < |attrs| => StringValue(attrs[i].v))
  }

  lemma KeysValsSnoc(attrs: seq<AttrKV>, k: nat)
    requires k < |attrs|
    ensures Keys(attrs[..k + 1]) == Keys(attrs[..k]) + [attrs[k].k]
    ensures Vals(attrs[..k + 1]) == Vals(attrs[..k]) + [StringValue(attrs[k].v)]
  {
  }

  function WithNode(s: NodeStream, tag: string, flags: bv8): NodeStream {
    s.(tag := s.tag + [tag], flags := s.flags + [flags],
       attrStart := s.attrStart + [0], attrEnd := s.attrEnd + [0], textOff := s.textOff + [(0, 0)],
       parent := s.parent + [-1], firstChild := s.firstChild + [-1], nextSibling := s.nextSibling + [-1],
       componentName := s.componentName + [""])
  }

  ghost function WithText(s: NodeStream, text: string, raw: bool): NodeStream
    requires s.Sized()
  {
    var t := WithNode(s, "#text", if raw then FLAG_TEXT | FLAG_RAW else FLAG_TEXT);
    t.(textBuf := s.textBuf + text,
       textOff := t.textOff[s.Count() := (|s.textBuf|, |s.textBuf| + |text|)])
  }

  ghost function WithAttrs(s: NodeStream, i: nat, attrs: seq<AttrKV>): NodeStream
    requires s.Sized() && i < s.Count()
  {
    if attrs == [] then s
    else s.(attrKeys := s.attrKeys + Keys(attrs), attrVals := s.attrVals + Vals(attrs),
            attrStart := s.attrStart[i := |s.attrKeys|],
            attrEnd := s.attrEnd[i := |s.attrKeys| + |attrs|])
  }

  lemma LinkedIsForward(s: NodeStream)
    requires Linked(s) && ParentsEarlier(s.parent)
    ensures s.LinksForward()
  {
    forall i | 0 <= i < s.Count()
      ensures s.firstChild[i] == -1 || i < s.firstChild[i] < s.Count()
      ensures s.nextSibling[i] == -1 || i < s.nextSibling[i] < s.Count()
    {
      assert IsNext(s.parent, i, 1, s.Count(), s.firstChild[i]);
      assert IsNextSibling(s.parent, i, s.Count(), s.nextSibling[i]);
    }
  }

  // ------------------------------------------------------------------------
  // What the links mean
  // ------------------------------------------------------------------------

  /** The children of `p` at or after `from`, in increasing order. */
  ghost function ChildrenOf(parent: seq<int>, p: int, from: nat): seq<nat>
    decreases |parent| - from
  {
    if from >= |parent| then []
    else if parent[from] == p then [from] + ChildrenOf(parent, p, from + 1)
    else ChildrenOf(parent, p, from + 1)
  }

  /** The sibling chain that starts at `c`. */
  ghost function Chain(s: NodeStream, c: int): seq<nat>
    requires s.LinksForward() && (c == -1 || 0 <= c < s.Count())
    decreases if c == -1 then 0 else s.Count() - c
  {
    if c == -1 then [] else [c] + Chain(s, s.nextSibling[c])
  }

  lemma {:induction false} ChildrenSkip(parent: seq<int>, p: int, from: nat, upto: nat)
    requires from <= upto <= |parent|
    requires forall k :: from <= k < upto ==> parent[k] != p
    ensures ChildrenOf(parent, p, from) == ChildrenOf(parent, p, upto)
    decreases upto - from
  {
    if from < upto {
      ChildrenSkip(parent, p, from + 1, upto);
    }
  }

  lemma {:induction false} ChainFrom(s: NodeStream, p: nat, from: nat, c: int)
    requires Linked(s) && ParentsEarlier(s.parent) && s.LinksForward()
    requires p < s.Count() && 1 <= from <= s.Count()
    requires IsNext(s.parent, p, from, s.Count(), c)
    ensures Chain(s, c) == ChildrenOf(s.parent, p, from)
    decreases s.Count() - from
  {
    if c == -1 {
      ChildrenSkip(s.parent, p, from, s.Count());
    } else {
      ChildrenSkip(s.parent, p, from, c);
      assert IsNextSibling(s.parent, c, s.Count(), s.nextSibling[c]);
      ChainFrom(s, p, c + 1, s.nextSibling[c]);
    }
  }

  /** After finalizing, each node's sibling chain is exactly its children, in
      increasing order. */
  lemma ChainIsChildren(s: NodeStream, p: nat)
    requires Linked(s) && ParentsEarlier(s.parent) && s.LinksForward() && p < s.Count()
    ensures Chain(s, s.firstChild[p]) == ChildrenOf(s.parent, p, 1)
  {
    assert IsNext(s.parent, p, 1, s.Count(), s.firstChild[p]);
    ChainFrom(s, p, 1, s.firstChild[p]);
  }

  /** `a` is `d` or one of its ancestors. */
  ghost predicate AncestorOrSelf(parent: seq<int>, a: int, d: int)
    requires ParentsEarlier(parent) && 0 <= d < |parent|
    decreases d
  {
    a == d || (d > 0 && AncestorOrSelf(parent, a, parent[d]))
  }

  /** Node `i` hangs below the node before it or below one of that node's ancestors. */
  ghost predicate HangsOnPath(parent: seq<int>, i: nat)
    requires ParentsEarlier(parent) && 1 <= i < |parent|
  {
    AncestorOrSelf(parent, parent[i], i - 1)
  }

  /** The parent array of a depth-first listing. */
  ghost predicate Preordered(parent: seq<int>) {
    && |parent| > 0
    && parent[0] == -1
    && ParentsEarlier(parent)
    && forall i :: 1 <= i < |parent| ==> HangsOnPath(parent, i)
  }

  /** One past the last descendant of `i`: the first later node that hangs above `i`. */
  ghost function EndOf(parent: seq<int>, i: nat, from: nat): (e: nat)
    requires i < from <= |parent|
    ensures from <= e <= |parent|
    ensures forall k :: from <= k < e ==> parent[k] >= i
    ensures e < |parent| ==> parent[e] < i
    decreases |parent| - from
  {
    if from < |parent| && parent[from] >= i then EndOf(parent, i, from + 1) else from
  }

  lemma {:induction false} AncestorTransitive(parent: seq<int>, a: int, b: int, c: int)
    requires ParentsEarlier(parent) && 0 <= b < |parent| && 0 <= c < |parent|
    requires AncestorOrSelf(parent, a, b) && AncestorOrSelf(parent, b, c)
    ensures AncestorOrSelf(parent, a, c)
    ensures 0 <= a <= b
    decreases c, b
  {
    if b != c {
      AncestorTransitive(parent, a, b, parent[c]);
    } else if a != b {
      AncestorTransitive(parent, a, parent[b], parent[b]);
    }
  }

  /** Everything listed before `EndOf` is a descendant. */
  lemma {:induction false} InSubtree(parent: seq<int>, i: nat, k: nat)
    requires Preordered(parent) && i <= k < |parent|
    requires forall m :: i < m <= k ==> parent[m] >= i
    ensures AncestorOrSelf(parent, i, k)
    decreases k
  {
    if i < k {
      assert HangsOnPath(parent, k);
      AncestorTransitive(parent, parent[k], k - 1, k - 1);
      InSubtree(parent, i, parent[k]);
    }
  }

  lemma {:induction false} AncestorBelow(parent: seq<int>, a: int, d: int)
    requires ParentsEarlier(parent) && 0 <= d < |parent| && AncestorOrSelf(parent, a, d)
    ensures 0 <= a <= d
    decreases d
  {
    if a != d {
      AncestorBelow(parent, a, parent[d]);
    }
  }

  /** Of two ancestors of one node, the upper is an ancestor of the lower. */
  lemma {:induction false} AncestorsOnOnePath(parent: seq<int>, a: int, b: int, d: int)
    requires ParentsEarlier(parent) && 0 <= d < |parent|
    requires AncestorOrSelf(parent, a, d) && AncestorOrSelf(parent, b, d) && a < b
    ensures 0 < b <= d && a <= parent[b]
    decreases d
  {
    AncestorBelow(parent, b, d);
    AncestorBelow(parent, a, parent[d]);
    if b != d {
      AncestorsOnOnePath(parent, a, b, parent[d]);
    }
  }

  /** Once left, a subtree is never entered again. */
  lemma {:induction false} NoReturn(parent: seq<int>, i: nat, e: nat, k: nat, a: int)
    requires Preordered(parent) && i < e <= k < |parent|
    requires parent[e] < i
    requires AncestorOrSelf(parent, a, k)
    ensures !(i <= a < e)
    decreases k
  {
    if a != k {
      if k == e {
        AncestorTransitive(parent, a, parent[e], parent[e]);
      } else {
        assert HangsOnPath(parent, k);
        AncestorTransitive(parent, a, parent[k], k - 1);
        NoReturn(parent, i, e, k - 1, a);
      }
    }
  }

  /** A node whose parent's subtree is still open lies inside it. */
  lemma EndIsPast(parent: seq<int>, c: nat)
    requires Preordered(parent) && 1 <= c < |parent|
    ensures c < EndOf(parent, parent[c], parent[c] + 1)
  {
    var ep := EndOf(parent, parent[c], parent[c] + 1);
    if ep <= c {
      NoReturn(parent, parent[c], ep, c, parent[c]);
      assert false;
    }
  }

  /** The node after a subtree hangs at or above the subtree's parent. */
  lemma AfterSubtree(parent: seq<int>, c: nat, e: nat)
    requires Preordered(parent) && 1 <= c < e < |parent|
    requires parent[e] < c && forall k :: c < k < e ==> parent[k] >= c
    ensures parent[e] <= parent[c]
  {
    InSubtree(parent, c, e - 1);
    assert HangsOnPath(parent, e);
    AncestorsOnOnePath(parent, parent[e], c, e - 1);
  }

  /** Where the next sibling of `c` is, in terms of subtree ends. */
  lemma NextSiblingIsEnd(s: NodeStream, c: nat)
    requires Linked(s) && Preordered(s.parent) && 1 <= c < s.Count()
    ensures var e := EndOf(s.parent, c, c + 1);
            var ep := EndOf(s.parent, s.parent[c], s.parent[c] + 1);
            if s.nextSibling[c] == -1 then e == ep
            else s.nextSibling[c] == e && e < ep && s.parent[e] == s.parent[c]
  {
    hide EndOf, FirstLinked;
    var parent, p, j := s.parent, s.parent[c], s.nextSibling[c];
    var e := EndOf(parent, c, c + 1);
    var ep := EndOf(parent, p, p + 1);
    assert IsNextSibling(parent, c, |parent|, j);
    EndIsPast(parent, c);
    if e < |parent| {
      AfterSubtree(parent, c, e);
    }
    if j != -1 {
      EndIsPast(parent, j);
    }
  }

  ghost function Range(a: nat, b: nat): seq<nat>
    decreases b - a
  {
    if a >= b then [] else [a] + Range(a + 1, b)
  }

  lemma {:induction false} RangeSplit(a: nat, b: nat, c: nat)
    requires a <= b <= c
    ensures Range(a, b) + Range(b, c) == Range(a, c)
    decreases b - a
  {
    if a < b {
      RangeSplit(a + 1, b, c);
    }
  }

  /** The nodes in the order a depth-first walk over the links meets them. */
  ghost function Visit(s: NodeStream, i: nat): seq<nat>
    requires s.LinksForward() && i < s.Count()
    decreases s.Count() - i, 0
  {
    [i] + VisitFrom(s, s.firstChild[i])
  }

  ghost function VisitFrom(s: NodeStream, c: int): seq<nat>
    requires s.LinksForward() && (c == -1 || 0 <= c < s.Count())
    decreases if c == -1 then 0 else s.Count() - c, 1
  {
    if c == -1 then [] else Visit(s, c) + VisitFrom(s, s.nextSibling[c])
  }

  /** An ancestor other than the node itself has a child on the way down. */
  lemma {:induction false} ChildOnPath(parent: seq<int>, a: nat, d: nat) returns (m: nat)
    requires ParentsEarlier(parent) && d < |parent| && a != d && AncestorOrSelf(parent, a, d)
    ensures a < m <= d && parent[m] == a
    decreases d
  {
    if parent[d] == a {
      m := d;
    } else {
      m := ChildOnPath(parent, a, parent[d]);
    }
  }

  /** A first child is always the very next node. */
  lemma FirstChildIsNext(s: NodeStream, i: nat)
    requires Linked(s) && Preordered(s.parent) && i < s.Count()
    ensures if s.firstChild[i] == -1 then EndOf(s.parent, i, i + 1) == i + 1
            else s.firstChild[i] == i + 1 < s.Count() && s.parent[i + 1] == i
  {
    var c := s.firstChild[i];
    assert IsNext(s.parent, i, 1, s.Count(), c);
    if c != -1 && c != i + 1 {
      assert HangsOnPath(s.parent, c);
      var m := ChildOnPath(s.parent, i, c - 1);
      assert false;
    }
  }

  /** `end` is one past the last node of the subtree at `i`, as the links see it. */
  ghost predicate LinksFit(s: NodeStream, ends: seq<nat>, i: nat)
    requires s.Sized() && |ends| == s.Count() && i < s.Count()
    requires i > 0 ==> 0 <= s.parent[i] < i
  {
    var first, next := s.firstChild[i], s.nextSibling[i];
    && i < ends[i]
    && (if first == -1 then ends[i] == i + 1 else first == i + 1 < s.Count() && s.parent[i + 1] == i)
    && (i > 0 ==>
          if next == -1 then ends[i] == ends[s.parent[i]]
          else next == ends[i] < ends[s.parent[i]] && next < s.Count() && s.parent[next] == s.parent[i])
  }

  ghost predicate AllLinksFit(s: NodeStream, ends: seq<nat>) {
    && s.LinksForward() && |ends| == s.Count()
    && ParentsEarlier(s.parent)
    && forall i :: 0 <= i < s.Count() ==> LinksFit(s, ends, i)
  }

  lemma {:induction false} VisitCoversSubtree(s: NodeStream, ends: seq<nat>, i: nat)
    requires AllLinksFit(s, ends) && i < s.Count()
    ensures Visit(s, i) == Range(i, ends[i])
    decreases s.Count() - i, 0
  {
    assert LinksFit(s, ends, i);
    var c := s.firstChild[i];
    if c == -1 {
      assert VisitFrom(s, c) == [];
      assert Range(i, i + 1) == [i];
    } else {
      VisitCoversSiblings(s, ends, c);
    }
  }

  lemma {:induction false} VisitCoversSiblings(s: NodeStream, ends: seq<nat>, c: nat)
    requires AllLinksFit(s, ends) && 1 <= c < s.Count()
    ensures VisitFrom(s, c) == Range(c, ends[s.parent[c]])
    decreases s.Count() - c, 1
  {
    assert LinksFit(s, ends, c);
    var next := s.nextSibling[c];
    VisitCoversSubtree(s, ends, c);
    if next == -1 {
      assert VisitFrom(s, next) == [];
    } else {
      VisitCoversSiblings(s, ends, next);
      RangeSplit(c, next, ends[s.parent[c]]);
    }
  }

  /** The depth-first walk over the links visits every node once, in order. */
  lemma WalkVisitsAllInOrder(s: NodeStream)
    requires Linked(s) && Preordered(s.parent)
    ensures s.LinksForward()
    ensures Visit(s, 0) == Range(0, s.Count())
  {
    hide EndOf, Visit, LinksFit, FirstLinked, NextLinked;
    LinkedIsForward(s);
    var ends := seq(s.Count(), i requires 0 <= i < s.Count() => EndOf(s.parent, i, i + 1));
    forall i | 0 <= i < s.Count()
      ensures LinksFit(s, ends, i)
    {
      EndsFit(s, ends, i);
    }
    VisitCoversSubtree(s, ends, 0);
  }

  lemma EndsFit(s: NodeStream, ends: seq<nat>, i: nat)
    requires Linked(s) && Preordered(s.parent) && i < s.Count() == |ends|
    requires forall k :: 0 <= k < |ends| ==> ends[k] == EndOf(s.parent, k, k + 1)
    ensures LinksFit(s, ends, i)
  {
    hide EndOf, FirstLinked, NextLinked;
    FirstChildIsNext(s, i);
    if i > 0 {
      NextSiblingIsEnd(s, i);
    }
  }
}
