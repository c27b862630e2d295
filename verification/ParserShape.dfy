/** What every successful parse looks like (parse_html.go, soa.go). */
module ParserShape {
  import opened NodeStreams
  import opened HtmlParser
  import Agreement

  /** The open tags form a path from the root to the last node or one of its ancestors. */
  ghost predicate OpenPath(parent: seq<int>, stack: seq<nat>) {
    && Preordered(parent)
    && stack != []
    && stack[0] == 0
    && (forall k :: 0 <= k < |stack| ==> stack[k] < |parent|)
    && (forall k :: 1 <= k < |stack| ==> parent[stack[k]] == stack[k - 1])
    && AncestorOrSelf(parent, Top(stack), |parent| - 1)
  }

  /** Component nodes, and only they, carry a name. */
  ghost predicate NamesFit(s: NodeStream)
    requires s.Sized()
  {
    forall i :: 0 <= i < s.Count() ==> (Has(s.flags[i], FLAG_COMPONENT) <==> s.componentName[i] != "")
  }

  lemma {:induction false} AncestorFrame(parent: seq<int>, p: int, a: int, d: int)
    requires ParentsEarlier(parent) && 0 <= d < |parent| && 0 <= p < |parent|
    requires AncestorOrSelf(parent, a, d)
    ensures ParentsEarlier(parent + [p]) && AncestorOrSelf(parent + [p], a, d)
    decreases d
  {
    assert (parent + [p])[d] == parent[d];
    if a != d {
      AncestorFrame(parent, p, a, parent[d]);
    }
  }

  /** A node added below the top of the stack keeps the listing depth-first. */
  lemma ExtendPreordered(parent: seq<int>, p: int)
    requires Preordered(parent) && 0 <= p < |parent| && AncestorOrSelf(parent, p, |parent| - 1)
    ensures Preordered(parent + [p])
    ensures AncestorOrSelf(parent + [p], p, |parent|)
  {
    var parent' := parent + [p];
    assert ParentsEarlier(parent') by {
      forall i | 1 <= i < |parent'|
        ensures 0 <= parent'[i] < i
      {
        assert i < |parent| ==> parent'[i] == parent[i];
      }
    }
    forall i | 1 <= i < |parent'|
      ensures HangsOnPath(parent', i)
    {
      if i < |parent| {
        assert HangsOnPath(parent, i);
        AncestorFrame(parent, p, parent[i], i - 1);
      } else {
        AncestorFrame(parent, p, p, i - 1);
      }
    }
    assert parent'[|parent|] == p;
    assert AncestorOrSelf(parent', p, p);
  }

  lemma PushKeepsPath(parent: seq<int>, stack: seq<nat>)
    requires OpenPath(parent, stack)
    ensures OpenPath(parent + [Top(stack)], stack)
    ensures OpenPath(parent + [Top(stack)], stack + [|parent|])
  {
    ExtendPreordered(parent, Top(stack));
  }

  lemma PopKeepsPath(parent: seq<int>, stack: seq<nat>)
    requires OpenPath(parent, stack)
    ensures OpenPath(parent, Pop(stack))
  {
    if |stack| > 1 {
      var top, under := Top(stack), Top(Pop(stack));
      assert parent[stack[|stack| - 1]] == stack[|stack| - 2];
      assert AncestorOrSelf(parent, under, under);
      assert AncestorOrSelf(parent, under, top);
      AncestorTransitive(parent, under, top, |parent| - 1);
    }
  }

  lemma ElementNamesFit(s: NodeStream, parent: int, tag: string, attrs: seq<AttrKV>, self: bool)
    requires s.TablesInBounds() && NamesFit(s)
    ensures NamesFit(WithElement(s, parent, tag, attrs, self))
  {
    FlagsFit(tag, self);
    var t := WithElement(s, parent, tag, attrs, self);
    forall i | 0 <= i < t.Count()
      ensures Has(t.flags[i], FLAG_COMPONENT) <==> t.componentName[i] != ""
    {
      if i < s.Count() {
        assert t.flags[i] == s.flags[i] && t.componentName[i] == s.componentName[i];
      } else {
        assert t.flags[i] == ElementFlags(tag, self);
      }
    }
  }

  lemma FlagsFit(tag: string, self: bool)
    ensures Has(ElementFlags(tag, self), FLAG_COMPONENT) <==> IsComponentTag(tag)
    ensures Has(ElementFlags(tag, self), FLAG_SELF_CLOSING) <==> self || IsVoidTag(tag)
    ensures Has(ElementFlags(tag, self), FLAG_VOID | FLAG_SELF_CLOSING) <==> self || IsVoidTag(tag)
    ensures !Has(ElementFlags(tag, self), FLAG_TEXT) && !Has(ElementFlags(tag, self), FLAG_FRAGMENT)
    ensures !Has(ElementFlags(tag, self), FLAG_VOID)
  {
    var flags := ElementFlags(tag, self);
    if self || IsVoidTag(tag) {
      if IsComponentTag(tag) { assert flags == 6; } else { assert flags == 2; }
    } else {
      if IsComponentTag(tag) { assert flags == 4; } else { assert flags == 0; }
    }
  }

  lemma TextNamesFit(s: NodeStream, parent: int, text: string)
    requires s.TablesInBounds() && NamesFit(s)
    ensures NamesFit(WithTextNode(s, parent, text))
  {
    var t := WithTextNode(s, parent, text);
    forall i | 0 <= i < t.Count()
      ensures Has(t.flags[i], FLAG_COMPONENT) <==> t.componentName[i] != ""
    {
      if i < s.Count() {
        assert t.flags[i] == s.flags[i] && t.componentName[i] == s.componentName[i];
      }
    }
  }

  lemma {:induction false} ShapeFrom(src: string, i: nat, stack: seq<nat>, s: NodeStream)
    requires i <= |src| && s.TablesInBounds() && OpenPath(s.parent, stack) && NamesFit(s)
    ensures var r := ParseFrom(src, i, stack, s);
            r.Parsed? ==> r.stream.TablesInBounds() && Preordered(r.stream.parent) && NamesFit(r.stream)
    decreases |src| - i
  {
    if i == |src| {
    } else if src[i] == '<' {
      if i + 1 == |src| {
      } else if IsCommentStart(src, i) {
        ShapeFrom(src, CommentEnd(src, i + 4), stack, s);
      } else {
        ShapeTag(src, i, stack, s);
      }
    } else {
      var next := FindByte(src, i, '<');
      PushKeepsPath(s.parent, stack);
      TextNamesFit(s, Top(stack), src[i..next]);
      ShapeFrom(src, next, stack, WithTextNode(s, Top(stack), src[i..next]));
    }
  }

  lemma {:induction false} ShapeTag(src: string, i: nat, stack: seq<nat>, s: NodeStream)
    requires i + 1 < |src| && src[i] == '<' && !IsCommentStart(src, i)
    requires s.TablesInBounds() && OpenPath(s.parent, stack) && NamesFit(s)
    ensures var r := ParseFrom(src, i, stack, s);
            r.Parsed? ==> r.stream.TablesInBounds() && Preordered(r.stream.parent) && NamesFit(r.stream)
    decreases |src| - i, 0
  {
    var tagStart := TagStart(src, i);
    var end := SkipWhile(src, tagStart, IsTagNameByte);
    var scan := ScanAttrs(src, end, []);
    if end != tagStart && scan.Attrs? {
      if tagStart == i + 2 {
        PopKeepsPath(s.parent, stack);
        ShapeFrom(src, PastTag(src, scan.end), Pop(stack), s);
      } else {
        var tag := src[tagStart..end];
        PushKeepsPath(s.parent, stack);
        ElementNamesFit(s, Top(stack), tag, scan.attrs, scan.self);
        ShapeFrom(src, PastTag(src, scan.end),
                  if scan.self || IsVoidTag(tag) then stack else stack + [s.Count()],
                  WithElement(s, Top(stack), tag, scan.attrs, scan.self));
      }
    }
  }

  /** Every successful parse lists its nodes depth-first: the root has parent -1
      and every other node hangs below the node before it or one of that node's
      ancestors. */
  lemma ParseIsPreordered(src: string)
    ensures var r := ParseFrom(src, 0, [0], Root());
            r.Parsed? ==> r.stream.TablesInBounds() && Preordered(r.stream.parent) && NamesFit(r.stream)
  {
    var s := Root();
    assert OpenPath(s.parent, [0]);
    assert NamesFit(s);
    ShapeFrom(src, 0, [0], s);
  }

  /** Parses and builds the links. The result can be walked and compiled: its
      links visit 0..n-1 once each in order, it has no slot wrappers, and its
      components are named. */
  method Parse(src: string) returns (r: Outcome)
    ensures var p := ParseFrom(src, 0, [0], Root());
            if p.Parsed? then
              && r.Parsed?
              && r.stream == p.stream.(firstChild := r.stream.firstChild, nextSibling := r.stream.nextSibling)
              && Linked(r.stream)
            else r == p
    ensures r.Parsed? ==>
      && r.stream.WellFormed() && r.stream.Count() > 0
      && Visit(r.stream, 0) == Range(0, r.stream.Count())
      && Agreement.NoSlotNodes(r.stream)
      && Agreement.ComponentsNamed(r.stream)
  {
    hide ParseFrom, Linked, Preordered, NamesFit;
    r := ParseHTML(src);
    ParseIsPreordered(src);
    if r.Parsed? {
      var b := new NodeStreamBuilder.From(r.stream);
      PreorderedBounds(r.stream);
      b.FinalizeChildren();
      LinkedStream(r.stream, b.stream);
      r := Parsed(b.stream);
    }
  }

  lemma PreorderedBounds(s: NodeStream)
    requires s.TablesInBounds() && Preordered(s.parent)
    ensures forall i :: 0 <= i < s.Count() ==> s.parent[i] < s.Count()
  {
  }

  /** What linking makes of a parsed stream. */
  lemma LinkedStream(s: NodeStream, t: NodeStream)
    requires s.TablesInBounds() && Preordered(s.parent) && NamesFit(s)
    requires t == s.(firstChild := t.firstChild, nextSibling := t.nextSibling) && Linked(t)
    ensures t.WellFormed() && t.Count() > 0
    ensures Visit(t, 0) == Range(0, t.Count())
    ensures Agreement.NoSlotNodes(t) && Agreement.ComponentsNamed(t)
  {
    hide FirstLinked, NextLinked, EndOf, Visit, Range;
    LinkedIsForward(t);
    WalkVisitsAllInOrder(t);
  }
}
