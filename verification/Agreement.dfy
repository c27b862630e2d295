/** Compiling preserves meaning: when the bytecode writes what the tree walk writes. */
module Agreement {
  import opened Sequences
  import opened Escaping
  import opened NodeStreams
  import opened TreeWalk
  import opened Instructions
  import opened Compiler
  import opened Executor

  /** Components that see only the concatenation of their children. The two paths
      cut children into different chunks and name different slots. */
  ghost predicate ConcatOnly(reg: Registry) {
    forall name, children, slots, children', slots' ::
      name in reg && Concat(children) == Concat(children')
      ==> reg[name](children, slots) == reg[name](children', slots')
  }

  ghost predicate NoSlotNodes(s: NodeStream)
    requires s.WellFormed()
  {
    forall i :: 0 <= i < s.Count() ==> !s.IsSlot(i)
  }

  ghost predicate ComponentsNamed(s: NodeStream)
    requires s.WellFormed()
  {
    forall i :: 0 <= i < s.Count() && Has(s.flags[i], FLAG_COMPONENT) ==> s.componentName[i] != ""
  }

  /** Some component is at or below node `i`. */
  predicate HasComponent(s: NodeStream, i: nat)
    requires s.WellFormed() && i < s.Count()
    decreases Remaining(s, i), 0
  {
    var flags := s.flags[i];
    if Has(flags, FLAG_TEXT) then false
    else if Has(flags, FLAG_COMPONENT) then true
    else if Has(flags, FLAG_VOID | FLAG_SELF_CLOSING) then false
    else AnyComponent(s, s.firstChild[i])
  }

  predicate AnyComponent(s: NodeStream, c: int)
    requires s.WellFormed() && IsLink(s, c)
    decreases Remaining(s, c), 1
  {
    c != -1 && (HasComponent(s, c) || AnyComponent(s, s.nextSibling[c]))
  }

  /** No component at or below node `i` has a component below it. */
  predicate NoNesting(s: NodeStream, i: nat)
    requires s.WellFormed() && i < s.Count()
    decreases Remaining(s, i), 0
  {
    var flags := s.flags[i];
    if Has(flags, FLAG_TEXT) then true
    else if Has(flags, FLAG_COMPONENT) then !AnyComponent(s, s.firstChild[i])
    else if Has(flags, FLAG_VOID | FLAG_SELF_CLOSING) then true
    else NoneNested(s, s.firstChild[i])
  }

  predicate NoneNested(s: NodeStream, c: int)
    requires s.WellFormed() && IsLink(s, c)
    decreases Remaining(s, c), 1
  {
    c == -1 || (NoNesting(s, c) && NoneNested(s, s.nextSibling[c]))
  }

  // ------------------------------------------------------------------------
  // Slot wrappers
  // ------------------------------------------------------------------------

  /** No slot wrapper is at or below node `i`. */
  predicate Unslotted(s: NodeStream, i: nat)
    requires s.WellFormed() && i < s.Count()
    decreases Remaining(s, i), 0
  {
    !s.IsSlot(i) && AllUnslotted(s, s.firstChild[i])
  }

  predicate AllUnslotted(s: NodeStream, c: int)
    requires s.WellFormed() && IsLink(s, c)
    decreases Remaining(s, c), 1
  {
    c == -1 || (Unslotted(s, c) && AllUnslotted(s, s.nextSibling[c]))
  }

  /** Neither text nor an element without a closing tag. */
  predicate HoldsKids(flags: bv8) {
    !Has(flags, FLAG_TEXT) && !Has(flags, FLAG_VOID | FLAG_SELF_CLOSING)
  }

  /** Slot wrappers below node `i` are outside components, and have children only
      if they can show them. */
  predicate SlotsOutside(s: NodeStream, i: nat)
    requires s.WellFormed() && i < s.Count()
    decreases Remaining(s, i), 0
  {
    var flags := s.flags[i];
    if Has(flags, FLAG_TEXT) then true
    else if Has(flags, FLAG_COMPONENT) then AllUnslotted(s, s.firstChild[i])
    else if Has(flags, FLAG_VOID | FLAG_SELF_CLOSING) then true
    else KidsOutside(s, s.firstChild[i])
  }

  predicate KidsOutside(s: NodeStream, c: int)
    requires s.WellFormed() && IsLink(s, c)
    decreases Remaining(s, c), 2
  {
    c == -1 || (KidOutside(s, c) && KidsOutside(s, s.nextSibling[c]))
  }

  predicate KidOutside(s: NodeStream, c: nat)
    requires s.WellFormed() && c < s.Count()
    decreases Remaining(s, c), 1
  {
    if s.IsSlot(c) then (HoldsKids(s.flags[c]) || s.firstChild[c] == -1) && ContentOutside(s, s.firstChild[c])
    else SlotsOutside(s, c)
  }

  predicate ContentOutside(s: NodeStream, c: int)
    requires s.WellFormed() && IsLink(s, c)
    decreases Remaining(s, c), 2
  {
    c == -1 || (SlotsOutside(s, c) && ContentOutside(s, s.nextSibling[c]))
  }

  /** What the tree walk writes for a wrapper around its children. */
  function OwnHTML(s: NodeStream, c: nat): string
    requires s.WellFormed() && c < s.Count()
  {
    var flags := s.flags[c];
    if Has(flags, FLAG_TEXT) then TextHTML(s, c)
    else if Has(flags, FLAG_VOID | FLAG_SELF_CLOSING) then OpenTagHTML(s, c, true)
    else if Has(flags, FLAG_FRAGMENT) then ""
    else OpenTagHTML(s, c, false) + CloseTagHTML(s.tag[c])
  }

  /** No wrapper that the compiler marks below node `i`, outside components, writes
      anything of its own: it is a fragment or an empty text. A wrapper directly
      inside a marked one is not marked itself. */
  predicate WrappersSilent(s: NodeStream, i: nat)
    requires s.WellFormed() && i < s.Count()
    decreases Remaining(s, i), 0
  {
    var flags := s.flags[i];
    if !HoldsKids(flags) || Has(flags, FLAG_COMPONENT) then true else KidsSilent(s, s.firstChild[i])
  }

  predicate KidsSilent(s: NodeStream, c: int)
    requires s.WellFormed() && IsLink(s, c)
    decreases Remaining(s, c), 2
  {
    c == -1 || (KidSilent(s, c) && KidsSilent(s, s.nextSibling[c]))
  }

  predicate KidSilent(s: NodeStream, c: nat)
    requires s.WellFormed() && c < s.Count()
    decreases Remaining(s, c), 1
  {
    if s.IsSlot(c) then OwnHTML(s, c) == "" && ContentSilent(s, s.firstChild[c]) else WrappersSilent(s, c)
  }

  predicate ContentSilent(s: NodeStream, c: int)
    requires s.WellFormed() && IsLink(s, c)
    decreases Remaining(s, c), 2
  {
    c == -1 || (WrappersSilent(s, c) && ContentSilent(s, s.nextSibling[c]))
  }

  lemma {:induction false} NoSlotsUnslotted(s: NodeStream, c: int)
    requires s.WellFormed() && IsLink(s, c) && NoSlotNodes(s)
    ensures AllUnslotted(s, c)
    decreases Remaining(s, c)
  {
    if c != -1 {
      assert !s.IsSlot(c);
      NoSlotsUnslotted(s, s.firstChild[c]);
      NoSlotsUnslotted(s, s.nextSibling[c]);
    }
  }

  /** Without wrappers there is nothing to ask of them. */
  lemma {:induction false} UnslottedFits(s: NodeStream, c: int)
    requires s.WellFormed() && IsLink(s, c) && AllUnslotted(s, c)
    ensures KidsOutside(s, c) && KidsSilent(s, c)
    ensures c != -1 ==> SlotsOutside(s, c) && WrappersSilent(s, c)
    decreases Remaining(s, c)
  {
    if c != -1 {
      UnslottedFits(s, s.firstChild[c]);
      UnslottedFits(s, s.nextSibling[c]);
    }
  }

  lemma NoSlotsFit(s: NodeStream, i: nat)
    requires s.WellFormed() && i < s.Count() && NoSlotNodes(s)
    ensures Unslotted(s, i) && SlotsOutside(s, i) && WrappersSilent(s, i)
  {
    assert !s.IsSlot(i);
    NoSlotsUnslotted(s, s.firstChild[i]);
    UnslottedFits(s, s.firstChild[i]);
  }

  /** A wrapper's rendering is its own text around its children's. */
  lemma WrapperHTML(s: NodeStream, reg: Registry, c: nat)
    requires s.WellFormed() && c < s.Count() && s.IsSlot(c) && (HoldsKids(s.flags[c]) || s.firstChild[c] == -1)
    ensures |NodeHTML(s, reg, c)| == |OwnHTML(s, c)| + |SiblingsHTML(s, reg, s.firstChild[c])|
    ensures OwnHTML(s, c) == "" ==> NodeHTML(s, reg, c) == SiblingsHTML(s, reg, s.firstChild[c])
  {
    VoidOrSelfClosing(s.flags[c]);
  }

  // ------------------------------------------------------------------------
  // Without slot wrappers the two forms of the tree walk agree
  // ------------------------------------------------------------------------

  lemma VoidOrSelfClosing(flags: bv8)
    ensures Has(flags, FLAG_VOID | FLAG_SELF_CLOSING) == (Has(flags, FLAG_VOID) || Has(flags, FLAG_SELF_CLOSING))
  {
  }

  lemma {:induction false} WalkIsNode(s: NodeStream, reg: Registry, i: nat)
    requires s.WellFormed() && i < s.Count() && Unslotted(s, i)
    ensures WalkHTML(s, reg, i) == NodeHTML(s, reg, i)
    decreases Remaining(s, i), 0
  {
    VoidOrSelfClosing(s.flags[i]);
    WalkIsNodes(s, reg, s.firstChild[i]);
  }

  lemma {:induction false} WalkIsNodes(s: NodeStream, reg: Registry, c: int)
    requires s.WellFormed() && IsLink(s, c) && AllUnslotted(s, c)
    ensures WalkSiblingsHTML(s, reg, c) == SiblingsHTML(s, reg, c)
    ensures Concat(ChildrenHTML(s, reg, c)) == SiblingsHTML(s, reg, c)
    decreases Remaining(s, c), 1
  {
    if c != -1 {
      WalkIsNode(s, reg, c);
      WalkIsNodes(s, reg, s.nextSibling[c]);
    }
  }

  // ------------------------------------------------------------------------
  // No component under another: the paths agree
  // ------------------------------------------------------------------------

  lemma {:induction false} PlainItems(s: NodeStream, reg: Registry, i: nat)
    requires s.WellFormed() && i < s.Count() && Unslotted(s, i) && !HasComponent(s, i)
    ensures ItemsOf(s, i) == Bytes(NodeHTML(s, reg, i))
    decreases Remaining(s, i), 0
  {
    hide TextHTML, OpenTagHTML;
    var flags := s.flags[i];
    VoidOrSelfClosing(flags);
    if HoldsKids(flags) {
      PlainKids(s, reg, s.firstChild[i]);
      var open, inner := OpenTagHTML(s, i, false), SiblingsHTML(s, reg, s.firstChild[i]);
      BytesConcat(open, inner);
      BytesConcat(open + inner, CloseTagHTML(s.tag[i]));
    }
  }

  lemma {:induction false} PlainKids(s: NodeStream, reg: Registry, c: int)
    requires s.WellFormed() && IsLink(s, c) && AllUnslotted(s, c) && !AnyComponent(s, c)
    ensures KidItems(s, c) == Bytes(SiblingsHTML(s, reg, c))
    decreases Remaining(s, c), 1
  {
    if c != -1 {
      PlainItems(s, reg, c);
      PlainKids(s, reg, s.nextSibling[c]);
      BytesConcat(NodeHTML(s, reg, c), SiblingsHTML(s, reg, s.nextSibling[c]));
    }
  }

  lemma ConcatSingle(t: string)
    ensures Concat([t]) == t
  {
    assert [t][1..] == [];
    assert t + "" == t;
  }

  /** Children without markers become one chunk, or none. */
  lemma CollectPlain(t: string, reg: Registry)
    ensures var acc := CollectItems(Bytes(t), reg, EMPTY_ACC).Flush();
            acc == Acc(if t == "" then [] else [t], map[], "", "") && Concat(acc.children) == t
  {
    CollectBytes(t, reg, EMPTY_ACC);
    assert "" + t == t;
    assert [] + [t] == [t];
    ConcatSingle(t);
  }

  lemma PlainCall(s: NodeStream, reg: Registry, i: nat)
    requires s.WellFormed() && i < s.Count() && AllUnslotted(s, s.firstChild[i]) && ConcatOnly(reg)
    requires s.componentName[i] != "" && !AnyComponent(s, s.firstChild[i])
    ensures RunHTML([Call(s.componentName[i], KidItems(s, s.firstChild[i]))], reg) == ComponentHTML(s, reg, i)
  {
    var c := s.firstChild[i];
    RunSingle(Call(s.componentName[i], KidItems(s, c)), reg);
    PlainKids(s, reg, c);
    CollectPlain(SiblingsHTML(s, reg, c), reg);
    WalkIsNodes(s, reg, c);
  }

  lemma {:induction false} AgreeAt(s: NodeStream, reg: Registry, i: nat)
    requires s.WellFormed() && i < s.Count() && ComponentsNamed(s) && ConcatOnly(reg)
    requires SlotsOutside(s, i) && WrappersSilent(s, i) && NoNesting(s, i)
    ensures RunHTML(ItemsOf(s, i), reg) == NodeHTML(s, reg, i)
    decreases Remaining(s, i), 0
  {
    hide ConcatOnly, TextHTML, OpenTagHTML;
    var flags := s.flags[i];
    VoidOrSelfClosing(flags);
    if Has(flags, FLAG_TEXT) {
      RunBytes(TextHTML(s, i), reg);
    } else if Has(flags, FLAG_COMPONENT) {
      PlainCall(s, reg, i);
    } else if Has(flags, FLAG_VOID | FLAG_SELF_CLOSING) {
      RunBytes(OpenTagHTML(s, i, true), reg);
    } else {
      AgreeAmong(s, reg, s.firstChild[i]);
      RunElement(OpenTagHTML(s, i, false), KidItems(s, s.firstChild[i]), CloseTagHTML(s.tag[i]), reg);
    }
  }

  lemma RunElement(open: string, kids: seq<Item>, close: string, reg: Registry)
    ensures RunHTML(Bytes(open) + kids + Bytes(close), reg) == open + RunHTML(kids, reg) + close
  {
    RunConcat(Bytes(open) + kids, Bytes(close), reg);
    RunConcat(Bytes(open), kids, reg);
    RunBytes(open, reg);
    RunBytes(close, reg);
  }

  /** In the main stream the markers write nothing. */
  lemma RunMarked(name: string, content: seq<Item>, reg: Registry)
    ensures RunHTML([Open(name)] + content + [Close], reg) == RunHTML(content, reg)
  {
    RunConcat([Open(name)] + content, [Close], reg);
    RunConcat([Open(name)], content, reg);
    RunSingle(Open(name), reg);
    RunSingle(Close, reg);
  }

  lemma {:induction false} AgreeAmong(s: NodeStream, reg: Registry, c: int)
    requires s.WellFormed() && IsLink(s, c) && ComponentsNamed(s) && ConcatOnly(reg)
    requires KidsOutside(s, c) && KidsSilent(s, c) && NoneNested(s, c)
    ensures RunHTML(KidItems(s, c), reg) == SiblingsHTML(s, reg, c)
    decreases Remaining(s, c), 2
  {
    hide ConcatOnly, ComponentsNamed, RunHTML, NodeHTML;
    if c == -1 {
      RunNothing(reg);
    } else {
      AgreeKid(s, reg, c);
      AgreeAmong(s, reg, s.nextSibling[c]);
      RunConcat(KidItem(s, c), KidItems(s, s.nextSibling[c]), reg);
    }
  }

  lemma RunNothing(reg: Registry)
    ensures RunHTML([], reg) == ""
  {
  }

  lemma {:induction false} AgreeKid(s: NodeStream, reg: Registry, c: nat)
    requires s.WellFormed() && c < s.Count() && ComponentsNamed(s) && ConcatOnly(reg)
    requires KidOutside(s, c) && KidSilent(s, c) && NoNesting(s, c)
    ensures RunHTML(KidItem(s, c), reg) == NodeHTML(s, reg, c)
    decreases Remaining(s, c), 1
  {
    hide ConcatOnly, ComponentsNamed, RunHTML, NodeHTML, OwnHTML;
    if s.IsSlot(c) {
      var first := s.firstChild[c];
      WrapperHTML(s, reg, c);
      WrapperNests(s, c);
      AgreeContent(s, reg, first);
      RunMarked(s.componentName[c], SlotItems(s, first), reg);
    } else {
      AgreeAt(s, reg, c);
    }
  }

  lemma WrapperNests(s: NodeStream, c: nat)
    requires s.WellFormed() && c < s.Count() && s.IsSlot(c) && (HoldsKids(s.flags[c]) || s.firstChild[c] == -1)
    ensures NoNesting(s, c) == NoneNested(s, s.firstChild[c])
    ensures HasComponent(s, c) == AnyComponent(s, s.firstChild[c])
  {
  }

  lemma {:induction false} AgreeContent(s: NodeStream, reg: Registry, c: int)
    requires s.WellFormed() && IsLink(s, c) && ComponentsNamed(s) && ConcatOnly(reg)
    requires ContentOutside(s, c) && ContentSilent(s, c) && NoneNested(s, c)
    ensures RunHTML(SlotItems(s, c), reg) == SiblingsHTML(s, reg, c)
    decreases Remaining(s, c), 2
  {
    hide ConcatOnly, ComponentsNamed, RunHTML, NodeHTML;
    if c == -1 {
      RunNothing(reg);
    } else {
      AgreeAt(s, reg, c);
      AgreeContent(s, reg, s.nextSibling[c]);
      RunConcat(ItemsOf(s, c), SlotItems(s, s.nextSibling[c]), reg);
    }
  }

  // ------------------------------------------------------------------------
  // A component under another: some registry tells the paths apart
  // ------------------------------------------------------------------------

  /** Each component writes one byte and its children, so output length counts
      the dispatched components. */
  ghost function Tally(names: set<string>): (reg: Registry)
    ensures ConcatOnly(reg)
  {
    map name | name in names :: (children: Children, slots: Slots) => "x" + Concat(children)
  }

  /** All components in the program. */
  ghost function Calls(items: seq<Item>): nat {
    if items == [] then 0
    else (match items[0] case Call(_, kids) => 1 + Calls(kids) case _ => 0) + Calls(items[1..])
  }

  /** The components the executor dispatches; those met while collecting are not. */
  ghost function Dispatched(items: seq<Item>): nat {
    if items == [] then 0
    else (match items[0] case Call(_, kids) => 1 + DispatchedInside(kids) case _ => 0) + Dispatched(items[1..])
  }

  ghost function DispatchedInside(items: seq<Item>): nat {
    if items == [] then 0
    else (match items[0] case Call(_, kids) => Dispatched(kids) case _ => 0) + DispatchedInside(items[1..])
  }

  /** Every component has one of the names, and no marker directly inside. */
  ghost predicate Simple(items: seq<Item>, names: set<string>) {
    items == [] ||
    (Simple(items[1..], names) &&
     (items[0].Call? ==>
        items[0].name in names && Simple(items[0].kids, names) && Unmarked(items[0].kids)))
  }

  ghost predicate Unmarked(items: seq<Item>) {
    forall k :: 0 <= k < |items| ==> items[k].Byte? || items[k].Call?
  }

  lemma {:induction false} SimpleConcat(a: seq<Item>, b: seq<Item>, names: set<string>)
    requires Simple(a, names) && Simple(b, names)
    ensures Simple(a + b, names)
    ensures Calls(a + b) == Calls(a) + Calls(b)
    decreases |a|
  {
    if a == [] {
      assert a + b == b;
    } else {
      assert (a + b)[1..] == a[1..] + b;
      SimpleConcat(a[1..], b, names);
    }
  }

  lemma {:induction false} SimpleBytes(t: string, names: set<string>)
    ensures Simple(Bytes(t), names) && Calls(Bytes(t)) == 0
  {
    if t != "" {
      assert Bytes(t)[1..] == Bytes(t[1..]);
      SimpleBytes(t[1..], names);
    }
  }

  /** What the executor writes is the literal bytes and one byte per dispatch. */
  lemma {:induction false} RunLength(items: seq<Item>, names: set<string>)
    requires Simple(items, names)
    ensures |RunHTML(items, Tally(names))| == |Literals(items)| + Dispatched(items)
    decreases items, 1
  {
    if items != [] {
      RunLength(items[1..], names);
      match items[0] {
        case Byte(_) =>
        case Call(name, kids) =>
          CollectLength(kids, names, EMPTY_ACC);
          ConcatSingle(CollectItems(kids, Tally(names), EMPTY_ACC).cur);
          assert [] + [CollectItems(kids, Tally(names), EMPTY_ACC).cur]
              == [CollectItems(kids, Tally(names), EMPTY_ACC).cur];
        case _ =>
      }
    }
  }

  lemma {:induction false} CollectLength(items: seq<Item>, names: set<string>, acc: Acc)
    requires Simple(items, names) && Unmarked(items)
    ensures var r := CollectItems(items, Tally(names), acc);
            && r == acc.(cur := r.cur)
            && |r.cur| == |acc.cur| + |Literals(items)| + DispatchedInside(items)
    decreases items, 0
  {
    if items != [] {
      var step := Step(items[0], Tally(names), acc);
      match items[0] {
        case Byte(_) =>
        case Call(_, kids) => RunLength(kids, names);
      }
      CollectLength(items[1..], names, step);
    }
  }

  /** All components are dispatched exactly when none is below another. */
  lemma {:induction false} DispatchedAll(items: seq<Item>)
    ensures Dispatched(items) <= Calls(items)
    ensures DispatchedInside(items) <= Calls(items)
    ensures DispatchedInside(items) == Calls(items) ==> Calls(items) == 0
    decreases items
  {
    if items != [] {
      DispatchedAll(items[1..]);
      if items[0].Call? {
        DispatchedAll(items[0].kids);
      }
    }
  }

  /** Every component's children hold no component. */
  ghost predicate Flat(items: seq<Item>) {
    items == [] || (Flat(items[1..]) && (items[0].Call? ==> Calls(items[0].kids) == 0))
  }

  lemma {:induction false} DispatchedAllIsFlat(items: seq<Item>)
    ensures Dispatched(items) == Calls(items) ==> Flat(items)
    decreases |items|
  {
    if items != [] {
      DispatchedAll(items[1..]);
      DispatchedAllIsFlat(items[1..]);
      if items[0].Call? {
        DispatchedAll(items[0].kids);
      }
    }
  }

  lemma {:induction false} FlatConcat(a: seq<Item>, b: seq<Item>)
    ensures Flat(a + b) == (Flat(a) && Flat(b))
    decreases |a|
  {
    if a == [] {
      assert a + b == b;
    } else {
      assert (a + b)[1..] == a[1..] + b;
      FlatConcat(a[1..], b);
    }
  }

  lemma {:induction false} FlatBytes(t: string)
    ensures Flat(Bytes(t))
  {
    if t != "" {
      assert Bytes(t)[1..] == Bytes(t[1..]);
      FlatBytes(t[1..]);
    }
  }

  ghost function Names(s: NodeStream): set<string> {
    set name | name in s.componentName
  }

  /** How the tree walk's output for some items compares with their literal bytes and
      one byte per component: it is never shorter, and equal if `silent`. */
  ghost predicate Measured(items: seq<Item>, html: string, names: set<string>, calls: bool, flat: bool, silent: bool) {
    && Simple(items, names)
    && (calls <==> Calls(items) > 0)
    && (flat <==> Flat(items))
    && |html| >= |Literals(items)| + Calls(items)
    && (silent <==> |html| == |Literals(items)| + Calls(items))
  }

  lemma MeasuredBytes(t: string, names: set<string>)
    ensures Measured(Bytes(t), t, names, false, true, true) && Unmarked(Bytes(t))
  {
    SimpleBytes(t, names);
    FlatBytes(t);
    LiteralsOfBytes(t);
  }

  lemma MeasuredConcat(a: seq<Item>, html: string, calls: bool, flat: bool, silent: bool,
                       b: seq<Item>, html': string, calls': bool, flat': bool, silent': bool, names: set<string>)
    requires Measured(a, html, names, calls, flat, silent) && Measured(b, html', names, calls', flat', silent')
    ensures Measured(a + b, html + html', names, calls || calls', flat && flat', silent && silent')
    ensures Unmarked(a) && Unmarked(b) ==> Unmarked(a + b)
  {
    SimpleConcat(a, b, names);
    FlatConcat(a, b);
    LiteralsConcat(a, b);
  }

  lemma MeasuredElement(open: string, kids: seq<Item>, html: string, close: string, names: set<string>,
                        calls: bool, flat: bool, silent: bool)
    requires Measured(kids, html, names, calls, flat, silent)
    ensures var items := Bytes(open) + kids + Bytes(close);
            Measured(items, open + html + close, names, calls, flat, silent) && (Unmarked(kids) ==> Unmarked(items))
  {
    hide Measured, Unmarked;
    MeasuredBytes(open, names);
    MeasuredBytes(close, names);
    MeasuredConcat(Bytes(open), open, false, true, true, kids, html, calls, flat, silent, names);
    MeasuredConcat(Bytes(open) + kids, open + html, calls, flat, silent, Bytes(close), close, false, true, true, names);
  }

  /** A marked region, which the tree walk may write something around. */
  lemma MeasuredMarked(name: string, content: seq<Item>, html: string, html': string, own: string, names: set<string>,
                       calls: bool, flat: bool, silent: bool)
    requires Measured(content, html, names, calls, flat, silent) && |html'| == |own| + |html|
    ensures Measured([Open(name)] + content + [Close], html', names, calls, flat, silent && own == "")
  {
    MarkerMeasured(Open(name), names);
    MarkerMeasured(Close, names);
    MeasuredConcat([Open(name)], "", false, true, true, content, html, calls, flat, silent, names);
    MeasuredConcat([Open(name)] + content, "" + html, calls, flat, silent, [Close], "", false, true, true, names);
  }

  lemma MarkerMeasured(marker: Item, names: set<string>)
    requires marker.Open? || marker.Close?
    ensures Measured([marker], "", names, false, true, true)
  {
    assert [marker][1..] == [];
  }

  lemma MeasuredNothing(names: set<string>)
    ensures Measured([], "", names, false, true, true) && Unmarked([])
  {
  }

  /** Node `i` compared. */
  lemma {:induction false} NodeLength(s: NodeStream, i: nat)
    requires s.WellFormed() && i < s.Count() && SlotsOutside(s, i) && ComponentsNamed(s)
    ensures Measured(ItemsOf(s, i), NodeHTML(s, Tally(Names(s)), i), Names(s),
                     HasComponent(s, i), NoNesting(s, i), WrappersSilent(s, i))
    ensures Unslotted(s, i) ==> Unmarked(ItemsOf(s, i))
    decreases Remaining(s, i), 0
  {
    hide Measured, Unmarked, TextHTML, OpenTagHTML, Names, Tally;
    var flags, names, c := s.flags[i], Names(s), s.firstChild[i];
    var kids, html := KidItems(s, c), SiblingsHTML(s, Tally(names), c);
    VoidOrSelfClosing(flags);
    if Has(flags, FLAG_TEXT) {
      MeasuredBytes(TextHTML(s, i), names);
    } else if Has(flags, FLAG_COMPONENT) {
      ComponentLength(s, i);
    } else if Has(flags, FLAG_VOID | FLAG_SELF_CLOSING) {
      MeasuredBytes(OpenTagHTML(s, i, true), names);
    } else {
      SiblingsLength(s, c);
      MeasuredElement(OpenTagHTML(s, i, false), kids, html, CloseTagHTML(s.tag[i]), names,
                      AnyComponent(s, c), NoneNested(s, c), KidsSilent(s, c));
    }
  }

  lemma {:induction false} ComponentLength(s: NodeStream, i: nat)
    requires s.WellFormed() && i < s.Count() && AllUnslotted(s, s.firstChild[i]) && ComponentsNamed(s)
    requires Has(s.flags[i], FLAG_COMPONENT)
    ensures var item := Call(s.componentName[i], KidItems(s, s.firstChild[i]));
            && Measured([item], ComponentHTML(s, Tally(Names(s)), i), Names(s),
                        true, !AnyComponent(s, s.firstChild[i]), true)
            && Unmarked([item])
    decreases Remaining(s, i), 0, 0
  {
    var c, reg := s.firstChild[i], Tally(Names(s));
    var item := Call(s.componentName[i], KidItems(s, c));
    UnslottedFits(s, c);
    SiblingsLength(s, c);
    WalkIsNodes(s, reg, c);
    assert [item][1..] == [];
    LiteralsOfCall(s.componentName[i], KidItems(s, c));
    assert s.componentName[i] in Names(s);
  }

  /** A list of children compared. */
  lemma {:induction false} SiblingsLength(s: NodeStream, c: int)
    requires s.WellFormed() && IsLink(s, c) && KidsOutside(s, c) && ComponentsNamed(s)
    ensures Measured(KidItems(s, c), SiblingsHTML(s, Tally(Names(s)), c), Names(s),
                     AnyComponent(s, c), NoneNested(s, c), KidsSilent(s, c))
    ensures AllUnslotted(s, c) ==> Unmarked(KidItems(s, c))
    decreases Remaining(s, c), 2
  {
    hide Measured, Unmarked, Names, Tally, NodeHTML, ComponentsNamed;
    if c == -1 {
      MeasuredNothing(Names(s));
    } else {
      var next, reg := s.nextSibling[c], Tally(Names(s));
      KidLength(s, c);
      SiblingsLength(s, next);
      MeasuredConcat(KidItem(s, c), NodeHTML(s, reg, c), HasComponent(s, c), NoNesting(s, c), KidSilent(s, c),
                     KidItems(s, next), SiblingsHTML(s, reg, next), AnyComponent(s, next), NoneNested(s, next),
                     KidsSilent(s, next), Names(s));
    }
  }

  lemma {:induction false} KidLength(s: NodeStream, c: nat)
    requires s.WellFormed() && c < s.Count() && KidOutside(s, c) && ComponentsNamed(s)
    ensures Measured(KidItem(s, c), NodeHTML(s, Tally(Names(s)), c), Names(s),
                     HasComponent(s, c), NoNesting(s, c), KidSilent(s, c))
    ensures Unslotted(s, c) ==> Unmarked(KidItem(s, c))
    decreases Remaining(s, c), 1
  {
    hide Measured, Unmarked, Names, Tally, NodeHTML, OwnHTML, ComponentsNamed;
    if s.IsSlot(c) {
      var first, reg := s.firstChild[c], Tally(Names(s));
      WrapperHTML(s, reg, c);
      WrapperNests(s, c);
      ContentLength(s, first);
      MeasuredMarked(s.componentName[c], SlotItems(s, first), SiblingsHTML(s, reg, first), NodeHTML(s, reg, c),
                     OwnHTML(s, c), Names(s), AnyComponent(s, first), NoneNested(s, first), ContentSilent(s, first));
    } else {
      NodeLength(s, c);
    }
  }

  /** A wrapper's content compared. */
  lemma {:induction false} ContentLength(s: NodeStream, c: int)
    requires s.WellFormed() && IsLink(s, c) && ContentOutside(s, c) && ComponentsNamed(s)
    ensures Measured(SlotItems(s, c), SiblingsHTML(s, Tally(Names(s)), c), Names(s),
                     AnyComponent(s, c), NoneNested(s, c), ContentSilent(s, c))
    decreases Remaining(s, c), 2
  {
    hide Measured, Unmarked, Names, Tally, NodeHTML, ComponentsNamed;
    if c == -1 {
      MeasuredNothing(Names(s));
    } else {
      var next, reg := s.nextSibling[c], Tally(Names(s));
      NodeLength(s, c);
      ContentLength(s, next);
      MeasuredConcat(ItemsOf(s, c), NodeHTML(s, reg, c), HasComponent(s, c), NoNesting(s, c), WrappersSilent(s, c),
                     SlotItems(s, next), SiblingsHTML(s, reg, next), AnyComponent(s, next), NoneNested(s, next),
                     ContentSilent(s, next), Names(s));
    }
  }

  // ------------------------------------------------------------------------
  // The theorem
  // ------------------------------------------------------------------------

  /** The bytecode and the tree walk write the same bytes for every registry of
      components that see only their concatenated children. */
  ghost predicate PathsAgree(s: NodeStream)
    requires s.WellFormed()
  {
    forall reg: Registry :: ConcatOnly(reg) ==> RunHTML(ProgramItems(s), reg) == WalkedHTML(s, reg)
  }

  ghost function WalkedHTML(s: NodeStream, reg: Registry): string
    requires s.WellFormed()
  {
    if s.Count() == 0 then "" else NodeHTML(s, reg, 0)
  }

  /** With slot wrappers only outside components, the two paths agree exactly when
      no component is nested under another and no marked wrapper writes anything
      of its own. */
  lemma CompilationPreservesMeaning(s: NodeStream)
    requires s.WellFormed() && ComponentsNamed(s) && (s.Count() == 0 || SlotsOutside(s, 0))
    ensures PathsAgree(s) <==> s.Count() == 0 || (NoNesting(s, 0) && WrappersSilent(s, 0))
  {
    if s.Count() == 0 {
    } else if NoNesting(s, 0) && WrappersSilent(s, 0) {
      forall reg: Registry | ConcatOnly(reg)
        ensures RunHTML(ProgramItems(s), reg) == WalkedHTML(s, reg)
      {
        AgreeAt(s, reg, 0);
      }
    } else {
      var reg := Tally(Names(s));
      NodeLength(s, 0);
      RunLength(ItemsOf(s, 0), Names(s));
      DispatchedAll(ItemsOf(s, 0));
      DispatchedAllIsFlat(ItemsOf(s, 0));
      assert RunHTML(ProgramItems(s), reg) != WalkedHTML(s, reg);
    }
  }

  /** Without wrappers at all, nesting alone decides. */
  lemma UnslottedPreservesMeaning(s: NodeStream)
    requires s.WellFormed() && ComponentsNamed(s) && NoSlotNodes(s)
    ensures PathsAgree(s) <==> s.Count() == 0 || NoNesting(s, 0)
  {
    if s.Count() > 0 {
      NoSlotsFit(s, 0);
    }
    CompilationPreservesMeaning(s);
  }

  // ------------------------------------------------------------------------
  // From packed words to output
  // ------------------------------------------------------------------------

  /** The executor reads back the program that was packed exactly when every
      operand fits its field. */
  lemma FetchedIsPacked(p: Program)
    ensures Fetched(EncodeAll(p.code), p.staticBuf, p.comps) == p
            <==> forall k :: 0 <= k < |p.code| ==> Fits(p.code[k])
  {
    var q := Fetched(EncodeAll(p.code), p.staticBuf, p.comps);
    forall k | 0 <= k < |p.code|
      ensures q.code[k] == p.code[k] <==> Fits(p.code[k])
    {
      FetchEncode(p.code[k]);
    }
    if forall k :: 0 <= k < |p.code| ==> Fits(p.code[k]) {
      assert q.code == p.code;
    } else {
      var k :| 0 <= k < |p.code| && !Fits(p.code[k]);
      assert q.code[k] != p.code[k];
    }
  }

  /** The operands other than a run's length fit. */
  predicate AlmostFits(ins: Instr) {
    match ins
    case OpStatic(start, len) => start < U32 && len < U32
    case _ => Fits(ins)
  }

  /** All operands of a well-formed range but the lengths of runs fit. */
  lemma {:induction false} InBoundsAlmostFits(p: Program, lo: nat, hi: nat, k: nat)
    requires lo <= k < hi <= |p.code| && InBounds(p, lo, hi)
    requires |p.code| < U24 && |p.staticBuf| < U32 && |p.comps| < U32
    ensures AlmostFits(p.code[k])
    ensures p.code[k].OpStatic? ==> p.code[k].len <= |p.staticBuf|
    decreases hi - lo
  {
    match p.code[lo] {
      case OpComponent(_, end) =>
        if lo < k < end {
          InBoundsAlmostFits(p, lo + 1, end, k);
        } else if end <= k {
          InBoundsAlmostFits(p, end, hi, k);
        }
      case _ =>
        if lo < k {
          InBoundsAlmostFits(p, lo + 1, hi, k);
        }
    }
  }

  /** Operands of a well-formed range are bounded by the sizes of the program. */
  lemma InBoundsFits(p: Program, lo: nat, hi: nat, k: nat)
    requires lo <= k < hi <= |p.code| && InBounds(p, lo, hi)
    requires |p.code| < U24 && |p.staticBuf| < U32 && |p.comps| < U32
    ensures AlmostFits(p.code[k])
    ensures p.code[k].OpStatic? ==> p.code[k].len <= |p.staticBuf|
    ensures Fits(p.code[k]) <==> (p.code[k].OpStatic? ==> p.code[k].len < U24)
  {
    InBoundsAlmostFits(p, lo, hi, k);
  }

  /** A component's end is read back modulo 2^24: still ahead of the call exactly
      when the remainder is; for a call with at most 2^24 instructions inside, exactly
      when the end is below 2^24, and beyond that the executor would jump back. */
  lemma TruncatedEndGoesBack(name: nat, end: nat, k: nat)
    requires k < end
    ensures Fetch(Encode(OpComponent(name, end))).OpComponent?
    ensures Fetch(Encode(OpComponent(name, end))).end == end % U24
    ensures end <= k + U24 ==> (k < Fetch(Encode(OpComponent(name, end))).end <==> end < U24)
  {
    hide Inst, OpOf, Arg1, Arg2;
    InstFields(1, name % U32, end % U32);
    Mod24(end);
    assert end >= U24 ==> end % U24 <= end - U24;
  }

  /** The dynamic instructions a program needs. */
  ghost function Marks(items: seq<Item>): nat {
    if items == [] then 0
    else (match items[0] case Byte(_) => 0 case Call(_, kids) => 1 + Marks(kids) case _ => 1) + Marks(items[1..])
  }

  ghost function DynamicCount(code: seq<Instr>, lo: nat, hi: nat): nat
    requires lo <= hi <= |code|
    decreases hi - lo
  {
    if lo == hi then 0 else (if code[lo].OpStatic? then 0 else 1) + DynamicCount(code, lo + 1, hi)
  }

  lemma {:induction false} DynamicCountSplit(code: seq<Instr>, lo: nat, mid: nat, hi: nat)
    requires lo <= mid <= hi <= |code|
    ensures DynamicCount(code, lo, hi) == DynamicCount(code, lo, mid) + DynamicCount(code, mid, hi)
    decreases mid - lo
  {
    if lo < mid {
      DynamicCountSplit(code, lo + 1, mid, hi);
    }
  }

  lemma {:induction false} MarksConcat(a: seq<Item>, b: seq<Item>)
    ensures Marks(a + b) == Marks(a) + Marks(b)
    decreases |a|
  {
    if a == [] {
      assert a + b == b;
    } else {
      assert (a + b)[1..] == a[1..] + b;
      MarksConcat(a[1..], b);
    }
  }

  lemma {:induction false} MarksOfBytes(t: string)
    ensures Marks(Bytes(t)) == 0
  {
    if t != "" {
      assert Bytes(t)[1..] == Bytes(t[1..]);
      MarksOfBytes(t[1..]);
    }
  }

  lemma {:induction false} DynamicCountIsMarks(p: Program, lo: nat, hi: nat)
    requires lo <= hi <= |p.code| && InBounds(p, lo, hi)
    ensures DynamicCount(p.code, lo, hi) == Marks(Decode(p, lo, hi))
    decreases hi - lo
  {
    hide Marks, Decode;
    if lo == hi {
      NoMarks(p, lo);
    } else {
      MarksFirst(p, lo, hi);
      match p.code[lo] {
        case OpComponent(_, end) =>
          DynamicCountIsMarks(p, lo + 1, end);
          DynamicCountIsMarks(p, end, hi);
          DynamicCountSplit(p.code, lo + 1, end, hi);
        case _ =>
          DynamicCountIsMarks(p, lo + 1, hi);
      }
    }
  }

  lemma NoMarks(p: Program, lo: nat)
    requires lo <= |p.code|
    ensures Marks(Decode(p, lo, lo)) == 0
  {
  }

  /** What the first instruction of a range adds to the marks. */
  lemma MarksFirst(p: Program, lo: nat, hi: nat)
    requires lo < hi <= |p.code| && InBounds(p, lo, hi)
    ensures match p.code[lo]
            case OpStatic(_, _) => Marks(Decode(p, lo, hi)) == Marks(Decode(p, lo + 1, hi))
            case OpComponent(_, end) =>
              Marks(Decode(p, lo, hi)) == 1 + Marks(Decode(p, lo + 1, end)) + Marks(Decode(p, end, hi))
            case _ => Marks(Decode(p, lo, hi)) == 1 + Marks(Decode(p, lo + 1, hi))
  {
    match p.code[lo]
    case OpStatic(start, len) =>
      MarksAfterBytes(p.staticBuf[start..start + len], Decode(p, lo + 1, hi));
    case OpComponent(_, end) =>
      assert Decode(p, lo, hi)[1..] == Decode(p, end, hi);
    case _ =>
      assert Decode(p, lo, hi)[1..] == Decode(p, lo + 1, hi);
  }

  lemma MarksAfterBytes(text: string, rest: seq<Item>)
    ensures Marks(Bytes(text) + rest) == Marks(rest)
  {
    hide Marks;
    MarksOfBytes(text);
    MarksConcat(Bytes(text), rest);
  }

  lemma {:induction false} StaticCountIsBounded(code: seq<Instr>, n: nat, upto: nat)
    requires n <= |code| && Tiles(code, n, upto)
    ensures n <= DynamicCount(code, 0, n) + upto
  {
    if n > 0 {
      DynamicCountSplit(code, 0, n - 1, n);
      assert DynamicCount(code, n, n) == 0;
      match code[n - 1]
      case OpStatic(start, _) => StaticCountIsBounded(code, n - 1, start);
      case _ => StaticCountIsBounded(code, n - 1, upto);
    }
  }

  /** `p` is what compiling `s` makes, before packing. */
  ghost predicate IsCompiled(p: Program, s: NodeStream)
    requires s.WellFormed()
  {
    && |p.staticBuf| < U32
    && |p.comps| <= |p.code|
    && InBounds(p, 0, |p.code|)
    && Decode(p, 0, |p.code|) == ProgramItems(s)
  }

  /** The code and every static run are shorter than 2^24. */
  ghost predicate Short(p: Program) {
    |p.code| < U24 && forall k :: 0 <= k < |p.code| && p.code[k].OpStatic? ==> p.code[k].len < U24
  }

  /** Short programs lose nothing in packing. */
  lemma ShortIsPacked(p: Program, s: NodeStream)
    requires s.WellFormed() && IsCompiled(p, s) && Short(p)
    ensures Fetched(EncodeAll(p.code), p.staticBuf, p.comps) == p
  {
    forall k | 0 <= k < |p.code|
      ensures Fits(p.code[k])
    {
      InBoundsFits(p, 0, |p.code|, k);
    }
    FetchedIsPacked(p);
  }

  /** Executing compiled code writes what the program's items write. */
  method ExecCompiled(bc: Bytecode, s: NodeStream, reg: Registry, w: Sink)
    requires s.WellFormed() && bc.code == EncodeAll(bc.ideal)
    requires IsCompiled(bc.St().p, s) && Short(bc.St().p)
    modifies w
    ensures w.out == old(w.out) + RunHTML(ProgramItems(s), reg)
  {
    ShortIsPacked(bc.St().p, s);
    Exec(bc.code, bc.staticBuf, bc.comps, reg, w);
  }

  /** The output is the tree walk's, for the streams `CompilationPreservesMeaning` admits. */
  method RenderCompiled(bc: Bytecode, s: NodeStream, reg: Registry, w: Sink)
    requires s.WellFormed() && ComponentsNamed(s) && ConcatOnly(reg)
    requires s.Count() == 0 || (SlotsOutside(s, 0) && WrappersSilent(s, 0) && NoNesting(s, 0))
    requires bc.code == EncodeAll(bc.ideal) && IsCompiled(bc.St().p, s) && Short(bc.St().p)
    modifies w
    ensures w.out == old(w.out) + WalkedHTML(s, reg)
  {
    ExecCompiled(bc, s, reg, w);
    if s.Count() > 0 {
      AgreeAt(s, reg, 0);
    }
  }

  /** Compile and run. A stream whose static bytes and dynamic instructions
      together number less than 2^24 always compiles to a short program. */
  method CompileAndExec(s: NodeStream, reg: Registry, w: Sink)
    requires s.WellFormed()
    requires |Literals(ProgramItems(s))| + Marks(ProgramItems(s)) < U24
    modifies w
    ensures w.out == old(w.out) + RunHTML(ProgramItems(s), reg)
  {
    var bc := CompileBytecode(s);
    ghost var p := bc.St().p;
    DynamicCountIsMarks(p, 0, |p.code|);
    StaticCountIsBounded(p.code, |p.code|, |p.staticBuf|);
    forall k | 0 <= k < |p.code|
      ensures Fits(p.code[k])
    {
      InBoundsFits(p, 0, |p.code|, k);
    }
    ExecCompiled(bc, s, reg, w);
  }

  /** Slot markers balance within the program and every component's range. */
  lemma {:induction false} ItemsBalanced(s: NodeStream, i: nat)
    requires s.WellFormed() && i < s.Count()
    ensures Balanced(ItemsOf(s, i), 0)
    decreases Remaining(s, i), 0
  {
    hide TextHTML, OpenTagHTML, CloseTagHTML, KidItems, Bytes;
    var flags, c := s.flags[i], s.firstChild[i];
    if Has(flags, FLAG_TEXT) {
      BytesBalanced(TextHTML(s, i));
    } else if Has(flags, FLAG_COMPONENT) {
      KidsBalanced(s, c);
      assert ItemsOf(s, i)[1..] == [];
    } else if Has(flags, FLAG_VOID | FLAG_SELF_CLOSING) {
      BytesBalanced(OpenTagHTML(s, i, true));
    } else if Has(flags, FLAG_FRAGMENT) {
      KidsBalanced(s, c);
    } else {
      KidsBalanced(s, c);
      BytesBalanced(OpenTagHTML(s, i, false));
      BytesBalanced(CloseTagHTML(s.tag[i]));
      BalancedThen(Bytes(OpenTagHTML(s, i, false)), 0, KidItems(s, c), 0);
      BalancedThen(Bytes(OpenTagHTML(s, i, false)) + KidItems(s, c), 0, Bytes(CloseTagHTML(s.tag[i])), 0);
    }
  }

  lemma {:induction false} KidsBalanced(s: NodeStream, c: int)
    requires s.WellFormed() && IsLink(s, c)
    ensures Balanced(KidItems(s, c), 0)
    decreases Remaining(s, c), 2
  {
    if c != -1 {
      hide Balanced, ItemsOf, SlotItems;
      if s.IsSlot(c) {
        SlotBalanced(s, s.firstChild[c]);
        MarkedBalanced(s.componentName[c], SlotItems(s, s.firstChild[c]));
      } else {
        ItemsBalanced(s, c);
      }
      KidsBalanced(s, s.nextSibling[c]);
      BalancedThen(KidItem(s, c), 0, KidItems(s, s.nextSibling[c]), 0);
    }
  }

  lemma MarkedBalanced(name: string, inner: seq<Item>)
    requires Balanced(inner, 0)
    ensures Balanced([Open(name)] + inner + [Close], 0)
  {
    var open, close := [Open(name)], [Close];
    assert close[1..] == [];
    BalancedThen(inner, 0, close, 1);
    Assoc(open, inner, close);
    assert (open + (inner + close))[1..] == inner + close;
  }

  lemma {:induction false} SlotBalanced(s: NodeStream, c: int)
    requires s.WellFormed() && IsLink(s, c)
    ensures Balanced(SlotItems(s, c), 0)
    decreases Remaining(s, c), 2
  {
    if c != -1 {
      ItemsBalanced(s, c);
      SlotBalanced(s, s.nextSibling[c]);
      BalancedThen(ItemsOf(s, c), 0, SlotItems(s, s.nextSibling[c]), 0);
    }
  }
}
