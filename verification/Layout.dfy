/** Where the nodes of a parsed document are in its node stream (parse_html.go,
    soa.go). */
module Layout {
  import opened NodeStreams
  import opened HtmlParser
  import opened RoundTrip

  /** The number of nodes a document node becomes. */
  ghost function Size(n: Node): nat {
    match n
    case TextNode(_) => 1
    case Element(_, _, _, kids) => 1 + SizeAll(kids)
  }

  ghost function SizeAll(ns: seq<Node>): nat {
    if ns == [] then 0 else Size(ns[0]) + SizeAll(ns[1..])
  }

  ghost predicate AttrsMatch(s: NodeStream, i: nat, attrs: seq<AttrKV>)
    requires s.TablesInBounds() && i < s.Count()
  {
    && s.NumAttr(i) == |attrs|
    && forall k :: 0 <= k < |attrs| ==> s.AttrKey(i, k) == attrs[k].k && s.AttrVal(i, k) == StringValue(attrs[k].v)
  }

  /** Node `i` is the node made of the top of `n`, below `p`. */
  ghost predicate NodeMatches(s: NodeStream, i: nat, p: int, n: Node)
    requires s.TablesInBounds() && i < s.Count()
  {
    && s.parent[i] == p
    && match n
       case TextNode(text) => s.flags[i] == FLAG_TEXT && s.Text(i) == text && s.componentName[i] == ""
       case Element(tag, attrs, self, _) =>
         && s.flags[i] == ElementFlags(tag, self) && s.tag[i] == tag && AttrsMatch(s, i, attrs)
         && s.componentName[i] == if IsComponentTag(tag) then tag else ""
  }

  /** The document nodes occupy the nodes from `i` on, below `p`, in pre-order. */
  ghost predicate Laid(s: NodeStream, i: nat, p: int, ns: seq<Node>)
    requires s.TablesInBounds()
    decreases ns
  {
    ns == [] ||
    (&& i < s.Count() && i + SizeAll(ns) <= s.Count()
     && NodeMatches(s, i, p, ns[0])
     && (ns[0].Element? ==> Laid(s, i + 1, i, ns[0].kids))
     && Laid(s, i + Size(ns[0]), p, ns[1..]))
  }

  /** `t` is `s` with more nodes; links aside. */
  ghost predicate Extends(s: NodeStream, t: NodeStream)
    requires s.TablesInBounds() && t.TablesInBounds()
  {
    && s.tag <= t.tag && s.flags <= t.flags && s.parent <= t.parent && s.componentName <= t.componentName
    && s.attrStart <= t.attrStart && s.attrEnd <= t.attrEnd && s.textOff <= t.textOff
    && s.attrKeys <= t.attrKeys && s.attrVals <= t.attrVals && s.textBuf <= t.textBuf
  }

  lemma NodeFrame(s: NodeStream, t: NodeStream, i: nat, p: int, x: Node)
    requires s.TablesInBounds() && t.TablesInBounds() && Extends(s, t) && i < s.Count()
    requires NodeMatches(s, i, p, x)
    ensures NodeMatches(t, i, p, x)
  {
    assert t.textOff[i] == s.textOff[i] && t.attrStart[i] == s.attrStart[i] && t.attrEnd[i] == s.attrEnd[i];
    assert t.textBuf[..|s.textBuf|] == s.textBuf;
    assert t.Text(i) == s.Text(i);
    assert t.NumAttr(i) == s.NumAttr(i);
    forall k: nat | k < s.NumAttr(i)
      ensures t.AttrKey(i, k) == s.AttrKey(i, k) && t.AttrVal(i, k) == s.AttrVal(i, k)
    {
    }
  }

  lemma {:induction false} LaidFrame(s: NodeStream, t: NodeStream, i: nat, p: int, ts: seq<Node>)
    requires s.TablesInBounds() && t.TablesInBounds() && Extends(s, t) && Laid(s, i, p, ts)
    ensures Laid(t, i, p, ts)
    decreases ts
  {
    hide NodeMatches;
    if ts != [] {
      NodeFrame(s, t, i, p, ts[0]);
      if ts[0].Element? {
        LaidFrame(s, t, i + 1, i, ts[0].kids);
      }
      LaidFrame(s, t, i + Size(ts[0]), p, ts[1..]);
    }
  }

  lemma ElementMatches(s: NodeStream, p: nat, tag: string, attrs: seq<AttrKV>, self: bool)
    requires s.TablesInBounds()
    ensures var t := WithElement(s, p, tag, attrs, self);
            && Extends(s, t)
            && t.parent[s.Count()] == p && t.tag[s.Count()] == tag
            && t.flags[s.Count()] == ElementFlags(tag, self)
            && t.componentName[s.Count()] == (if IsComponentTag(tag) then tag else "")
            && AttrsMatch(t, s.Count(), attrs)
  {
    hide AttrsMatch;
    ElementAttrs(s, p, tag, attrs, self);
  }

  lemma ElementAttrs(s: NodeStream, p: nat, tag: string, attrs: seq<AttrKV>, self: bool)
    requires s.TablesInBounds()
    ensures AttrsMatch(WithElement(s, p, tag, attrs, self), s.Count(), attrs)
  {
    hide ElementFlags, IsComponentTag;
    var t := WithElement(s, p, tag, attrs, self);
    var i := s.Count();
    if attrs == [] {
      assert t.attrStart[i] == t.attrEnd[i] == 0;
    } else {
      assert t.attrStart[i] == |s.attrKeys| && t.attrEnd[i] == |s.attrKeys| + |attrs|;
    }
  }

  lemma TextMatches(s: NodeStream, p: nat, text: string)
    requires s.TablesInBounds()
    ensures var t := WithTextNode(s, p, text);
            Extends(s, t) && NodeMatches(t, s.Count(), p, TextNode(text))
  {
    var t := WithTextNode(s, p, text);
    assert t.Text(s.Count()) == text;
  }

  lemma ExtendsSelf(s: NodeStream)
    requires s.TablesInBounds()
    ensures Extends(s, s)
  {
  }

  lemma ExtendsThen(a: NodeStream, b: NodeStream, c: NodeStream)
    requires a.TablesInBounds() && b.TablesInBounds() && c.TablesInBounds()
    requires Extends(a, b) && Extends(b, c)
    ensures Extends(a, c)
  {
  }

  lemma {:induction false} BuildLays(s: NodeStream, p: nat, t: Node)
    requires s.TablesInBounds()
    ensures var r := Build(s, p, t);
            && Extends(s, r) && r.Count() == s.Count() + Size(t)
            && NodeMatches(r, s.Count(), p, t)
            && (t.Element? ==> Laid(r, s.Count() + 1, s.Count(), t.kids))
    decreases t
  {
    hide WithElement, WithTextNode;
    match t
    case TextNode(text) => TextMatches(s, p, text);
    case Element(tag, attrs, self, kids) =>
      var m := WithElement(s, p, tag, attrs, self);
      ElementMatches(s, p, tag, attrs, self);
      assert NodeMatches(m, s.Count(), p, t);
      BuildAllLays(m, s.Count(), kids);
      var r := BuildAll(m, s.Count(), kids);
      ExtendsThen(s, m, r);
      NodeFrame(m, r, s.Count(), p, t);
  }

  lemma {:induction false} BuildAllLays(s: NodeStream, p: nat, ts: seq<Node>)
    requires s.TablesInBounds()
    ensures var r := BuildAll(s, p, ts);
            Extends(s, r) && r.Count() == s.Count() + SizeAll(ts) && Laid(r, s.Count(), p, ts)
    decreases ts
  {
    hide Build, NodeMatches, Extends;
    if ts == [] {
      ExtendsSelf(s);
    } else {
      var m := Build(s, p, ts[0]);
      BuildLays(s, p, ts[0]);
      BuildAllLays(m, p, ts[1..]);
      var r := BuildAll(m, p, ts[1..]);
      ExtendsThen(s, m, r);
      NodeFrame(m, r, s.Count(), p, ts[0]);
      if ts[0].Element? {
        LaidFrame(m, r, s.Count() + 1, s.Count(), ts[0].kids);
      }
    }
  }

  // ------------------------------------------------------------------------
  // Where the links of laid-out trees go
  // ------------------------------------------------------------------------

  lemma {:induction false} SizePositive(t: Node)
    ensures Size(t) >= 1
  {
  }

  /** Laid-out nodes hang below `p` or among themselves. */
  lemma {:induction false} LaidParents(s: NodeStream, i: nat, p: int, ts: seq<Node>, k: nat)
    requires s.TablesInBounds() && Laid(s, i, p, ts) && i <= k < i + SizeAll(ts)
    ensures k < s.Count() && (s.parent[k] == p || i <= s.parent[k] < k)
    decreases ts
  {
    var m := i + Size(ts[0]);
    if m <= k {
      LaidParents(s, m, p, ts[1..], k);
    } else if i < k {
      LaidParents(s, i + 1, i, ts[0].kids, k);
    }
  }

  /** No node from `j` on hangs below `p` or below a node in [p, j). */
  ghost predicate Closed(s: NodeStream, p: int, j: nat)
    requires s.Sized()
  {
    forall k :: j <= k < s.Count() ==> !(p <= s.parent[k] < j)
  }

  /** The next sibling of the first tree's node is the second tree's node. */
  lemma LaidNext(s: NodeStream, i: nat, p: nat, ts: seq<Node>)
    requires s.TablesInBounds() && Linked(s) && ts != [] && Laid(s, i, p, ts) && p < i
    requires Closed(s, p, i + SizeAll(ts))
    ensures s.nextSibling[i] == if |ts| == 1 then -1 else i + Size(ts[0])
  {
    hide AttrsMatch, ElementFlags, FirstLinked;
    var m := i + Size(ts[0]);
    assert NodeMatches(s, i, p, ts[0]);
    assert IsNextSibling(s.parent, i, s.Count(), s.nextSibling[i]);
    forall k | i < k < m
      ensures s.parent[k] != p
    {
      LaidParents(s, i + 1, i, ts[0].kids, k);
    }
    if |ts| == 1 {
      assert SizeAll(ts[1..]) == 0;
    } else {
      SizePositive(ts[1]);
      assert Laid(s, m, p, ts[1..]);
      assert NodeMatches(s, m, p, ts[1..][0]);
    }
  }

  /** The first child of an element's node is its first kid's node. */
  lemma LaidFirst(s: NodeStream, i: nat, kids: seq<Node>)
    requires s.TablesInBounds() && Linked(s) && i < s.Count() && ParentsEarlier(s.parent)
    requires Laid(s, i + 1, i, kids) && Closed(s, i, i + 1 + SizeAll(kids))
    ensures s.firstChild[i] == if kids == [] then -1 else i + 1
  {
    assert IsNext(s.parent, i, 1, s.Count(), s.firstChild[i]);
    if kids != [] {
      SizePositive(kids[0]);
      assert NodeMatches(s, i + 1, i, kids[0]);
    }
  }

  /** What follows an element's kids closes them off. */
  lemma KidsClosed(s: NodeStream, i: nat, p: nat, ts: seq<Node>)
    requires s.TablesInBounds() && ts != [] && ts[0].Element? && Laid(s, i, p, ts) && p < i
    requires Closed(s, p, i + SizeAll(ts))
    ensures Closed(s, i, i + Size(ts[0]))
  {
    var m := i + Size(ts[0]);
    forall k | m <= k < s.Count()
      ensures !(i <= s.parent[k] < m)
    {
      if k < i + SizeAll(ts) {
        LaidParents(s, m, p, ts[1..], k);
      }
    }
  }
}
