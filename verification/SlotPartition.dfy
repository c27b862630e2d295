/** How a component's children are split into plain children and named slots
    (bytecode.go, execute.go). */
module SlotPartition {
  import opened Sequences
  import opened NodeStreams
  import opened TreeWalk
  import opened Instructions
  import opened Compiler
  import opened Executor

  /** Neither a component nor a slot wrapper is at or below node `i`. */
  predicate Plain(s: NodeStream, i: nat)
    requires s.WellFormed() && i < s.Count()
    decreases Remaining(s, i), 0
  {
    var flags := s.flags[i];
    && s.componentName[i] == ""
    && (Has(flags, FLAG_TEXT) ||
        (!Has(flags, FLAG_COMPONENT) &&
         (Has(flags, FLAG_VOID | FLAG_SELF_CLOSING) || AllPlain(s, s.firstChild[i]))))
  }

  predicate AllPlain(s: NodeStream, c: int)
    requires s.WellFormed() && IsLink(s, c)
    decreases Remaining(s, c), 1
  {
    c == -1 || (Plain(s, c) && AllPlain(s, s.nextSibling[c]))
  }

  /** Each child from `c` on is plain, or a slot wrapper with plain content. */
  predicate Slotted(s: NodeStream, c: int)
    requires s.WellFormed() && IsLink(s, c)
    decreases Remaining(s, c)
  {
    c == -1 ||
    (Slotted(s, s.nextSibling[c]) &&
     if s.IsSlot(c) then !Has(s.flags[c], FLAG_TEXT) && AllPlain(s, s.firstChild[c])
     else Plain(s, c))
  }

  /** The rendering of the children that are not slot wrappers, in order. */
  ghost function UnslottedHTML(s: NodeStream, reg: Registry, c: int): string
    requires s.WellFormed() && IsLink(s, c)
    decreases Remaining(s, c)
  {
    if c == -1 then ""
    else (if s.IsSlot(c) then "" else WalkHTML(s, reg, c)) + UnslottedHTML(s, reg, s.nextSibling[c])
  }

  /** The contents of the slot wrappers called `name`, in order. */
  ghost function SlottedHTML(s: NodeStream, reg: Registry, c: int, name: string): string
    requires s.WellFormed() && IsLink(s, c)
    decreases Remaining(s, c)
  {
    if c == -1 then ""
    else (if s.IsSlot(c) && s.componentName[c] == name then WalkHTML(s, reg, c) else "")
         + SlottedHTML(s, reg, s.nextSibling[c], name)
  }

  lemma {:induction false} PlainItem(s: NodeStream, reg: Registry, i: nat)
    requires s.WellFormed() && i < s.Count() && Plain(s, i)
    ensures ItemsOf(s, i) == Bytes(WalkHTML(s, reg, i)) && !s.IsSlot(i)
    decreases Remaining(s, i), 0
  {
    var flags, c := s.flags[i], s.firstChild[i];
    if !Has(flags, FLAG_TEXT) && !Has(flags, FLAG_VOID | FLAG_SELF_CLOSING) {
      PlainList(s, reg, c);
      var open, inner := OpenTagHTML(s, i, false), WalkSiblingsHTML(s, reg, c);
      BytesConcat(open, inner);
      BytesConcat(open + inner, CloseTagHTML(s.tag[i]));
    }
  }

  lemma {:induction false} PlainList(s: NodeStream, reg: Registry, c: int)
    requires s.WellFormed() && IsLink(s, c) && AllPlain(s, c)
    ensures KidItems(s, c) == Bytes(WalkSiblingsHTML(s, reg, c))
    ensures SlotItems(s, c) == Bytes(WalkSiblingsHTML(s, reg, c))
    decreases Remaining(s, c), 1
  {
    if c != -1 {
      PlainItem(s, reg, c);
      PlainList(s, reg, s.nextSibling[c]);
      BytesConcat(WalkHTML(s, reg, c), WalkSiblingsHTML(s, reg, s.nextSibling[c]));
    }
  }

  /** What the accumulator will hand over once flushed: plain text so far. */
  ghost function PlainText(acc: Acc): string {
    Concat(acc.children) + acc.cur
  }

  /** Outside a slot, flushing keeps the plain text and the slots. */
  lemma FlushPlain(acc: Acc)
    requires acc.curName == ""
    ensures var r := acc.Flush();
            r.cur == "" && r.curName == "" && r.slots == acc.slots && PlainText(r) == PlainText(acc)
  {
    ConcatSnoc(acc.children, acc.cur);
    assert Concat(acc.children) + acc.cur + "" == Concat(acc.children) + acc.cur;
  }

  /** One slot wrapper: its content goes to its name, everything else stays. */
  lemma CollectSlot(name: string, content: string, reg: Registry, acc: Acc)
    requires acc.curName == "" && name != ""
    ensures var r := CollectItems([Open(name)] + Bytes(content) + [Close], reg, acc);
            && r.curName == ""
            && PlainText(r) == PlainText(acc)
            && SlotText(r.slots, name) == SlotText(acc.slots, name) + content
            && forall other :: other != name ==> SlotText(r.slots, other) == SlotText(acc.slots, other)
  {
    CollectMarked(name, content, reg, acc);
    FlushPlain(acc);
    assert "" + content == content;
    if content == "" {
      assert SlotText(acc.slots, name) + content == SlotText(acc.slots, name);
    }
  }

  lemma CollectMarked(name: string, content: string, reg: Registry, acc: Acc)
    ensures CollectItems([Open(name)] + Bytes(content) + [Close], reg, acc)
            == acc.Flush().(curName := name).Append(content).Flush()
  {
    CollectConcat([Open(name)] + Bytes(content), [Close], reg, acc);
    CollectConcat([Open(name)], Bytes(content), reg, acc);
    assert [Open(name)][1..] == [];
    var begun := CollectItems([Open(name)], reg, acc);
    assert begun == acc.Flush().(curName := name);
    CollectBytes(content, reg, begun);
    assert [Close][1..] == [];
  }

  lemma {:induction false} PartitionFrom(s: NodeStream, reg: Registry, c: int, acc: Acc, name: string)
    requires s.WellFormed() && IsLink(s, c) && Slotted(s, c) && acc.curName == "" && name != ""
    ensures var r := CollectItems(KidItems(s, c), reg, acc);
            && r.curName == ""
            && PlainText(r) == PlainText(acc) + UnslottedHTML(s, reg, c)
            && SlotText(r.slots, name) == SlotText(acc.slots, name) + SlottedHTML(s, reg, c, name)
    decreases Remaining(s, c)
  {
    if c == -1 {
      assert PlainText(acc) + "" == PlainText(acc);
      assert SlotText(acc.slots, name) + "" == SlotText(acc.slots, name);
    } else {
      var next := s.nextSibling[c];
      var mid := CollectItems(KidItem(s, c), reg, acc);
      PartitionOne(s, reg, c, acc, name);
      CollectConcat(KidItem(s, c), KidItems(s, next), reg, acc);
      PartitionFrom(s, reg, next, mid, name);
      Assoc(PlainText(acc), if s.IsSlot(c) then "" else WalkHTML(s, reg, c), UnslottedHTML(s, reg, next));
      Assoc(SlotText(acc.slots, name),
            if s.IsSlot(c) && s.componentName[c] == name then WalkHTML(s, reg, c) else "",
            SlottedHTML(s, reg, next, name));
    }
  }

  lemma PartitionOne(s: NodeStream, reg: Registry, c: nat, acc: Acc, name: string)
    requires s.WellFormed() && c < s.Count() && Slotted(s, c) && acc.curName == "" && name != ""
    ensures var r := CollectItems(KidItem(s, c), reg, acc);
            && r.curName == ""
            && PlainText(r) == PlainText(acc) + (if s.IsSlot(c) then "" else WalkHTML(s, reg, c))
            && SlotText(r.slots, name) == SlotText(acc.slots, name)
               + if s.IsSlot(c) && s.componentName[c] == name then WalkHTML(s, reg, c) else ""
  {
    assert PlainText(acc) + "" == PlainText(acc);
    assert SlotText(acc.slots, name) + "" == SlotText(acc.slots, name);
    if s.IsSlot(c) {
      PlainList(s, reg, s.firstChild[c]);
      CollectSlot(s.componentName[c], WalkHTML(s, reg, c), reg, acc);
    } else {
      PlainItem(s, reg, c);
      CollectBytes(WalkHTML(s, reg, c), reg, acc);
      Assoc(Concat(acc.children), acc.cur, WalkHTML(s, reg, c));
    }
  }

  /** What the tree walk files under `name`; children outside slots are "default". */
  ghost function FiledHTML(s: NodeStream, reg: Registry, c: int, name: string): string
    requires s.WellFormed() && IsLink(s, c)
    decreases Remaining(s, c)
  {
    if c == -1 then ""
    else (if SlotName(s, c) == name then WalkHTML(s, reg, c) else "")
         + FiledHTML(s, reg, s.nextSibling[c], name)
  }

  lemma {:induction false} TreeSlots(s: NodeStream, reg: Registry, c: int, slots: Slots, name: string)
    requires s.WellFormed() && IsLink(s, c)
    ensures SlotText(SlotsHTML(s, reg, c, slots), name) == SlotText(slots, name) + FiledHTML(s, reg, c, name)
    decreases Remaining(s, c)
  {
    assert SlotText(slots, name) + "" == SlotText(slots, name);
    if c != -1 {
      var html, key := WalkHTML(s, reg, c), SlotName(s, c);
      TreeSlots(s, reg, s.nextSibling[c], slots[key := SlotText(slots, key) + html], name);
      Assoc(SlotText(slots, name), if key == name then html else "", FiledHTML(s, reg, s.nextSibling[c], name));
    }
  }

  /** The tree walk files exactly the wrappers' contents, save that "default"
      also gets every unslotted child. */
  lemma {:induction false} FiledIsSlotted(s: NodeStream, reg: Registry, c: int, name: string)
    requires s.WellFormed() && IsLink(s, c) && Slotted(s, c) && name != ""
    ensures name != "default" ==> FiledHTML(s, reg, c, name) == SlottedHTML(s, reg, c, name)
    ensures name == "default" ==>
      && |FiledHTML(s, reg, c, name)| == |SlottedHTML(s, reg, c, name)| + |UnslottedHTML(s, reg, c)|
      && (UnslottedHTML(s, reg, c) == "" ==> FiledHTML(s, reg, c, name) == SlottedHTML(s, reg, c, name))
    decreases Remaining(s, c)
  {
    hide WalkHTML, ItemsOf, Has;
    if c != -1 {
      FiledIsSlotted(s, reg, s.nextSibling[c], name);
    }
  }

  /** The bytecode hands a component its unslotted children in order, and under
      each name the contents of that name's wrappers in order. The tree walk
      hands over the same slots, except that it differs on "default" exactly
      when some unslotted child renders to something. */
  lemma ChildrenPartition(s: NodeStream, reg: Registry, i: nat, name: string)
    requires s.WellFormed() && i < s.Count() && Slotted(s, s.firstChild[i]) && name != ""
    ensures var c := s.firstChild[i];
            var acc := CollectItems(KidItems(s, c), reg, EMPTY_ACC).Flush();
            && Concat(acc.children) == UnslottedHTML(s, reg, c)
            && SlotText(acc.slots, name) == SlottedHTML(s, reg, c, name)
            && (SlotText(acc.slots, name) == SlotText(SlotsHTML(s, reg, c, map[]), name)
                <==> name != "default" || UnslottedHTML(s, reg, c) == "")
  {
    hide UnslottedHTML, SlottedHTML, FiledHTML, SlotsHTML, CollectItems, KidItems, Slotted, SlotText, PlainText;
    var c := s.firstChild[i];
    var acc := CollectItems(KidItems(s, c), reg, EMPTY_ACC);
    EmptyTexts(name);
    PartitionFrom(s, reg, c, EMPTY_ACC, name);
    FlushPlain(acc);
    FlushedText(acc.Flush());
    NothingBefore(UnslottedHTML(s, reg, c));
    NothingBefore(SlottedHTML(s, reg, c, name));
    TreeSlots(s, reg, c, map[], name);
    NothingBefore(FiledHTML(s, reg, c, name));
    FiledIsSlotted(s, reg, c, name);
  }

  lemma EmptyTexts(name: string)
    ensures PlainText(EMPTY_ACC) == "" && SlotText(EMPTY_ACC.slots, name) == "" && SlotText(map[], name) == ""
    ensures EMPTY_ACC.curName == ""
  {
  }

  lemma FlushedText(acc: Acc)
    requires acc.cur == ""
    ensures PlainText(acc) == Concat(acc.children)
  {
  }
}
