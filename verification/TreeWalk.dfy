/** The recursive tree walk, the reference meaning of a node stream (execute.go).

    The functions say what is written; the methods are the walk itself. */
module TreeWalk {
  import opened Sequences
  import opened Escaping
  import opened NodeStreams

  type Children = seq<string>
  type Slots = map<string, string>

  /** What a registered component writes, given its pre-rendered children and slots. */
  type Component = (Children, Slots) -> string
  type Registry = map<string, Component>

  function Dispatch(reg: Registry, name: string, children: Children, slots: Slots): string {
    if name in reg then reg[name](children, slots)
    else "<!-- missing component: " + name + " -->"
  }

  function AttrHTML(s: NodeStream, i: nat, k: nat): string
    requires s.TablesInBounds() && i < s.Count() && k < s.NumAttr(i)
  {
    match s.AttrVal(i, k)
    case NoValue => " " + s.AttrKey(i, k)
    case v => " " + s.AttrKey(i, k) + "=\"" + Escape(Stringify(v)) + "\""
  }

  /** The first `k` attributes of node `i`. */
  function AttrsHTML(s: NodeStream, i: nat, k: nat): string
    requires s.TablesInBounds() && i < s.Count() && k <= s.NumAttr(i)
  {
    if k == 0 then "" else AttrsHTML(s, i, k - 1) + AttrHTML(s, i, k - 1)
  }

  function OpenTagHTML(s: NodeStream, i: nat, self: bool): string
    requires s.TablesInBounds() && i < s.Count()
  {
    "<" + s.tag[i] + AttrsHTML(s, i, s.NumAttr(i)) + if self then "/>" else ">"
  }

  function TextHTML(s: NodeStream, i: nat): string
    requires s.TablesInBounds() && i < s.Count()
  {
    if Has(s.flags[i], FLAG_RAW) then s.Text(i) else Escape(s.Text(i))
  }

  function CloseTagHTML(tag: string): string {
    "</" + tag + ">"
  }

  /** A link target: no node, or a node of `s`. */
  predicate IsLink(s: NodeStream, c: int) {
    c == -1 || 0 <= c < s.Count()
  }

  /** How many nodes are left at or after a link; walks descend on it. */
  function Remaining(s: NodeStream, c: int): nat
    requires IsLink(s, c)
  {
    if c == -1 then 0 else s.Count() - c
  }

  // ------------------------------------------------------------------------
  // The bytes each part of the walk writes
  // ------------------------------------------------------------------------

  function NodeHTML(s: NodeStream, reg: Registry, i: nat): string
    requires s.WellFormed() && i < s.Count()
    decreases Remaining(s, i), 2
  {
    var flags := s.flags[i];
    if Has(flags, FLAG_TEXT) then TextHTML(s, i)
    else if Has(flags, FLAG_COMPONENT) then ComponentHTML(s, reg, i)
    else if Has(flags, FLAG_VOID) || Has(flags, FLAG_SELF_CLOSING) then OpenTagHTML(s, i, true)
    else if Has(flags, FLAG_FRAGMENT) then SiblingsHTML(s, reg, s.firstChild[i])
    else OpenTagHTML(s, i, false) + SiblingsHTML(s, reg, s.firstChild[i]) + CloseTagHTML(s.tag[i])
  }

  function SiblingsHTML(s: NodeStream, reg: Registry, c: int): string
    requires s.WellFormed() && IsLink(s, c)
    decreases Remaining(s, c), 3
  {
    if c == -1 then "" else NodeHTML(s, reg, c) + SiblingsHTML(s, reg, s.nextSibling[c])
  }

  function ComponentHTML(s: NodeStream, reg: Registry, i: nat): string
    requires s.WellFormed() && i < s.Count()
    decreases Remaining(s, i), 1
  {
    if s.componentName[i] == "" then ""
    else Dispatch(reg, s.componentName[i], ChildrenHTML(s, reg, s.firstChild[i]),
                  SlotsHTML(s, reg, s.firstChild[i], map[]))
  }

  /** One pre-rendered string per child. */
  function ChildrenHTML(s: NodeStream, reg: Registry, c: int): Children
    requires s.WellFormed() && IsLink(s, c)
    decreases Remaining(s, c), 3
  {
    if c == -1 then [] else [WalkHTML(s, reg, c)] + ChildrenHTML(s, reg, s.nextSibling[c])
  }

  function SlotName(s: NodeStream, c: nat): string
    requires s.WellFormed() && c < s.Count()
  {
    if s.componentName[c] == "" then "default" else s.componentName[c]
  }

  /** The content collected so far under a name; an absent slot reads as empty. */
  function SlotText(slots: Slots, name: string): string {
    if name in slots then slots[name] else ""
  }

  /** Children grouped by slot name, on top of the slots already collected. */
  function SlotsHTML(s: NodeStream, reg: Registry, c: int, slots: Slots): Slots
    requires s.WellFormed() && IsLink(s, c)
    decreases Remaining(s, c), 3
  {
    if c == -1 then slots
    else
      var name := SlotName(s, c);
      SlotsHTML(s, reg, s.nextSibling[c], slots[name := SlotText(slots, name) + WalkHTML(s, reg, c)])
  }

  /** Like NodeHTML, but a slot wrapper shows only its children. */
  function WalkHTML(s: NodeStream, reg: Registry, i: nat): string
    requires s.WellFormed() && i < s.Count()
    decreases Remaining(s, i), 2
  {
    var flags := s.flags[i];
    if Has(flags, FLAG_TEXT) then TextHTML(s, i)
    else if Has(flags, FLAG_COMPONENT) then ComponentHTML(s, reg, i)
    else if s.componentName[i] != "" then WalkSiblingsHTML(s, reg, s.firstChild[i])
    else if Has(flags, FLAG_VOID | FLAG_SELF_CLOSING) then OpenTagHTML(s, i, true)
    else if Has(flags, FLAG_FRAGMENT) then WalkSiblingsHTML(s, reg, s.firstChild[i])
    else OpenTagHTML(s, i, false) + WalkSiblingsHTML(s, reg, s.firstChild[i]) + CloseTagHTML(s.tag[i])
  }

  function WalkSiblingsHTML(s: NodeStream, reg: Registry, c: int): string
    requires s.WellFormed() && IsLink(s, c)
    decreases Remaining(s, c), 3
  {
    if c == -1 then "" else WalkHTML(s, reg, c) + WalkSiblingsHTML(s, reg, s.nextSibling[c])
  }

  // ------------------------------------------------------------------------
  // The walk
  // ------------------------------------------------------------------------

  method Execute(s: NodeStream, reg: Registry, w: Sink)
    requires s.WellFormed()
    modifies w
    ensures w.out == old(w.out) + if s.Count() == 0 then "" else NodeHTML(s, reg, 0)
  {
    if s.Count() > 0 {
      EmitNode(s, reg, 0, w);
    }
  }

  method EmitText(s: NodeStream, i: nat, w: Sink)
    requires s.TablesInBounds() && i < s.Count()
    modifies w
    ensures w.out == old(w.out) + TextHTML(s, i)
  {
    var txt := s.Text(i);
    if |txt| == 0 {
    } else if Has(s.flags[i], FLAG_RAW) {
      w.Write(txt);
    } else {
      EscapeBytes(w, txt);
    }
  }

  method EmitOpen(s: NodeStream, i: nat, self: bool, w: Sink)
    requires s.TablesInBounds() && i < s.Count()
    modifies w
    ensures w.out == old(w.out) + OpenTagHTML(s, i, self)
  {
    w.Write("<");
    w.Write(s.tag[i]);
    EmitAttrs(s, i, w);
    w.Write(if self then "/>" else ">");
    ghost var o, attrs := old(w.out), AttrsHTML(s, i, s.NumAttr(i));
    Assoc(o, "<", s.tag[i]);
    Assoc(o, "<" + s.tag[i], attrs);
    Assoc(o, "<" + s.tag[i] + attrs, if self then "/>" else ">");
  }

  method EmitAttrs(s: NodeStream, i: nat, w: Sink)
    requires s.TablesInBounds() && i < s.Count()
    modifies w
    ensures w.out == old(w.out) + AttrsHTML(s, i, s.NumAttr(i))
  {
    hide AttrHTML;
    for k := 0 to s.NumAttr(i)
      invariant w.out == old(w.out) + AttrsHTML(s, i, k)
    {
      EmitAttr(s, i, k, w);
      AttrsUnfold(s, i, k, old(w.out));
    }
  }

  lemma AttrsUnfold(s: NodeStream, i: nat, k: nat, o: string)
    requires s.TablesInBounds() && i < s.Count() && k < s.NumAttr(i)
    ensures o + AttrsHTML(s, i, k + 1) == (o + AttrsHTML(s, i, k)) + AttrHTML(s, i, k)
  {
    Assoc(o, AttrsHTML(s, i, k), AttrHTML(s, i, k));
  }

  method EmitAttr(s: NodeStream, i: nat, k: nat, w: Sink)
    requires s.TablesInBounds() && i < s.Count() && k < s.NumAttr(i)
    modifies w
    ensures w.out == old(w.out) + AttrHTML(s, i, k)
  {
    var key, val := s.AttrKey(i, k), s.AttrVal(i, k);
    w.Write(" ");
    w.Write(key);
    Assoc(old(w.out), " ", key);
    if val.NoValue? {
      return;
    }
    w.Write("=\"");
    w.Write(Escape(Stringify(val)));
    w.Write("\"");
    AttrInPieces(old(w.out), key, Escape(Stringify(val)));
  }

  lemma AttrInPieces(o: string, key: string, val: string)
    ensures o + " " + key + "=\"" + val + "\"" == o + (" " + key + "=\"" + val + "\"")
  {
    Assoc(o, " ", key);
    Assoc(o, " " + key, "=\"");
    Assoc(o, " " + key + "=\"", val);
    Assoc(o, " " + key + "=\"" + val, "\"");
  }

  method EmitNode(s: NodeStream, reg: Registry, i: nat, w: Sink)
    requires s.WellFormed() && i < s.Count()
    modifies w
    ensures w.out == old(w.out) + NodeHTML(s, reg, i)
    decreases Remaining(s, i), 2
  {
    var flags := s.flags[i];
    if Has(flags, FLAG_TEXT) {
      EmitText(s, i, w);
    } else if Has(flags, FLAG_COMPONENT) {
      EmitComponent(s, reg, i, w);
    } else if Has(flags, FLAG_VOID) || Has(flags, FLAG_SELF_CLOSING) {
      EmitOpen(s, i, true, w);
    } else if Has(flags, FLAG_FRAGMENT) {
      WalkChildren(s, reg, i, w);
    } else {
      EmitElement(s, reg, i, w);
    }
  }

  /** A regular element: open tag, children, close tag. */
  method EmitElement(s: NodeStream, reg: Registry, i: nat, w: Sink)
    requires s.WellFormed() && i < s.Count()
    modifies w
    ensures w.out == old(w.out)
      + (OpenTagHTML(s, i, false) + SiblingsHTML(s, reg, s.firstChild[i]) + CloseTagHTML(s.tag[i]))
    decreases Remaining(s, i), 1, 1
  {
    EmitOpen(s, i, false, w);
    WalkChildren(s, reg, i, w);
    w.Write(CloseTagHTML(s.tag[i]));
    ghost var open, inner := OpenTagHTML(s, i, false), SiblingsHTML(s, reg, s.firstChild[i]);
    Assoc(old(w.out), open, inner);
    Assoc(old(w.out), open + inner, CloseTagHTML(s.tag[i]));
  }

  method WalkChildren(s: NodeStream, reg: Registry, i: nat, w: Sink)
    requires s.WellFormed() && i < s.Count()
    modifies w
    ensures w.out == old(w.out) + SiblingsHTML(s, reg, s.firstChild[i])
    decreases Remaining(s, i), 1, 0
  {
    var c := s.firstChild[i];
    ghost var all := SiblingsHTML(s, reg, c);
    while c != -1
      invariant IsLink(s, c) && (c == -1 || i < c)
      invariant w.out + SiblingsHTML(s, reg, c) == old(w.out) + all
      decreases Remaining(s, c)
    {
      Assoc(w.out, NodeHTML(s, reg, c), SiblingsHTML(s, reg, s.nextSibling[c]));
      EmitNode(s, reg, c, w);
      c := s.nextSibling[c];
    }
  }

  method EmitComponent(s: NodeStream, reg: Registry, i: nat, w: Sink)
    requires s.WellFormed() && i < s.Count()
    modifies w
    ensures w.out == old(w.out) + ComponentHTML(s, reg, i)
    decreases Remaining(s, i), 1
  {
    var name := s.componentName[i];
    if name == "" {
      return;
    }
    var children := CollectChildHTML(s, reg, i);
    var slots := CollectSlots(s, reg, i);
    w.Write(Dispatch(reg, name, children, slots));
  }

  method CollectChildHTML(s: NodeStream, reg: Registry, i: nat) returns (children: Children)
    requires s.WellFormed() && i < s.Count()
    ensures children == ChildrenHTML(s, reg, s.firstChild[i])
    decreases Remaining(s, i), 0
  {
    hide WalkHTML;
    var c := s.firstChild[i];
    children := [];
    while c != -1
      invariant IsLink(s, c) && (c == -1 || i < c)
      invariant children + ChildrenHTML(s, reg, c) == ChildrenHTML(s, reg, s.firstChild[i])
      decreases Remaining(s, c)
    {
      var buf := new Sink();
      WalkRender(s, reg, c, buf);
      assert buf.out == WalkHTML(s, reg, c);
      children := children + [buf.out];
      c := s.nextSibling[c];
    }
  }

  method CollectSlots(s: NodeStream, reg: Registry, i: nat) returns (slots: Slots)
    requires s.WellFormed() && i < s.Count()
    ensures slots == SlotsHTML(s, reg, s.firstChild[i], map[])
    decreases Remaining(s, i), 0
  {
    var c := s.firstChild[i];
    slots := map[];
    while c != -1
      invariant IsLink(s, c) && (c == -1 || i < c)
      invariant SlotsHTML(s, reg, c, slots) == SlotsHTML(s, reg, s.firstChild[i], map[])
      decreases Remaining(s, c)
    {
      var name := SlotName(s, c);
      var buf := new Sink();
      WalkRender(s, reg, c, buf);
      assert buf.out == WalkHTML(s, reg, c);
      slots := slots[name := SlotText(slots, name) + buf.out];
      c := s.nextSibling[c];
    }
  }

  method WalkRender(s: NodeStream, reg: Registry, i: nat, w: Sink)
    requires s.WellFormed() && i < s.Count()
    modifies w
    ensures w.out == old(w.out) + WalkHTML(s, reg, i)
    decreases Remaining(s, i), 2
  {
    var flags := s.flags[i];
    if Has(flags, FLAG_TEXT) {
      EmitText(s, i, w);
    } else if Has(flags, FLAG_COMPONENT) {
      EmitComponent(s, reg, i, w);
    } else if s.componentName[i] != "" {
      WalkRenderChildren(s, reg, i, w);
    } else if Has(flags, FLAG_VOID | FLAG_SELF_CLOSING) {
      EmitOpen(s, i, true, w);
    } else {
      WalkRenderElement(s, reg, i, Has(flags, FLAG_FRAGMENT), w);
    }
  }

  /** Fragment or regular element: only the latter shows its tags. */
  method WalkRenderElement(s: NodeStream, reg: Registry, i: nat, isFragment: bool, w: Sink)
    requires s.WellFormed() && i < s.Count()
    modifies w
    ensures var inner := WalkSiblingsHTML(s, reg, s.firstChild[i]);
            w.out == old(w.out) + if isFragment then inner
              else OpenTagHTML(s, i, false) + inner + CloseTagHTML(s.tag[i])
    decreases Remaining(s, i), 1, 1
  {
    if !isFragment {
      EmitOpen(s, i, false, w);
    }
    WalkRenderChildren(s, reg, i, w);
    if !isFragment {
      w.Write(CloseTagHTML(s.tag[i]));
      ghost var open, inner := OpenTagHTML(s, i, false), WalkSiblingsHTML(s, reg, s.firstChild[i]);
      Assoc(old(w.out), open, inner);
      Assoc(old(w.out), open + inner, CloseTagHTML(s.tag[i]));
    }
  }

  method WalkRenderChildren(s: NodeStream, reg: Registry, i: nat, w: Sink)
    requires s.WellFormed() && i < s.Count()
    modifies w
    ensures w.out == old(w.out) + WalkSiblingsHTML(s, reg, s.firstChild[i])
    decreases Remaining(s, i), 1, 0
  {
    var c := s.firstChild[i];
    ghost var all := WalkSiblingsHTML(s, reg, c);
    while c != -1
      invariant IsLink(s, c) && (c == -1 || i < c)
      invariant w.out + WalkSiblingsHTML(s, reg, c) == old(w.out) + all
      decreases Remaining(s, c)
    {
      Assoc(w.out, WalkHTML(s, reg, c), WalkSiblingsHTML(s, reg, s.nextSibling[c]));
      WalkRender(s, reg, c, w);
      c := s.nextSibling[c];
    }
  }
}
