/** What a source renders to, from its bytes to the output, along both paths
    (parse_html.go, execute.go, bytecode.go). */
module Identity {
  import opened Sequences
  import opened Escaping
  import opened NodeStreams
  import opened TreeWalk
  import opened HtmlParser
  import opened ParserShape
  import opened Markup
  import opened RoundTrip
  import opened Layout
  import opened Instructions
  import opened Compiler
  import opened Executor
  import opened Agreement

  // ------------------------------------------------------------------------
  // What a document shows
  // ------------------------------------------------------------------------

  function ShownAttr(a: AttrKV): string {
    " " + a.k + "=\"" + Escape(a.v) + "\""
  }

  function ShownAttrs(attrs: seq<AttrKV>): string {
    if attrs == [] then "" else ShownAttr(attrs[0]) + ShownAttrs(attrs[1..])
  }

  /** Elements that show no children. */
  predicate Childless(tag: string, self: bool) {
    self || IsVoidTag(tag)
  }

  /** Texts and values escaped; every value in double quotes; closed elements ended by
      a slash; and in place of a component, what it makes of its children. */
  function Shown(n: Node, reg: Registry): string
    decreases n, 0
  {
    match n
    case TextNode(text) => Escape(text)
    case Element(tag, attrs, self, kids) =>
      if IsComponentTag(tag) then
        if tag in reg then reg[tag](ShownEach(kids, reg), ShownSlots(kids, reg, map[]))
        else "<!-- missing component: " + tag + " -->"
      else if Childless(tag, self) then "<" + tag + ShownAttrs(attrs) + "/>"
      else "<" + tag + ShownAttrs(attrs) + ">" + ShownAll(kids, reg) + "</" + tag + ">"
  }

  function ShownAll(ns: seq<Node>, reg: Registry): string
    decreases ns, 1
  {
    if ns == [] then "" else Shown(ns[0], reg) + ShownAll(ns[1..], reg)
  }

  /** A component's children, one by one. */
  function ShownEach(ns: seq<Node>, reg: Registry): Children
    decreases ns, 1
  {
    if ns == [] then [] else [Shown(ns[0], reg)] + ShownEach(ns[1..], reg)
  }

  /** A component's slots: child components under their own names, all others under
      "default". */
  function ShownSlots(ns: seq<Node>, reg: Registry, slots: Slots): Slots
    decreases ns, 1
  {
    if ns == [] then slots
    else
      var name := if ns[0].Element? && IsComponentTag(ns[0].tag) then ns[0].tag else "default";
      var sofar := if name in slots then slots[name] else "";
      ShownSlots(ns[1..], reg, slots[name := sofar + Shown(ns[0], reg)])
  }

  /** A component is shown at or below the node. */
  predicate HasTag(n: Node) {
    n.Element? && (IsComponentTag(n.tag) || (!Childless(n.tag, n.self) && AnyTag(n.kids)))
  }

  predicate AnyTag(ns: seq<Node>) {
    ns != [] && (HasTag(ns[0]) || AnyTag(ns[1..]))
  }

  /** No component is shown below another. */
  predicate FlatTag(n: Node) {
    n.Element? ==>
      if IsComponentTag(n.tag) then !AnyTag(n.kids) else Childless(n.tag, n.self) || FlatTags(n.kids)
  }

  predicate FlatTags(ns: seq<Node>) {
    ns == [] || (FlatTag(ns[0]) && FlatTags(ns[1..]))
  }

  /** The bytes and instructions a document needs when compiled. */
  function Weight(n: Node): nat {
    match n
    case TextNode(text) => |Escape(text)|
    case Element(tag, attrs, self, kids) =>
      if IsComponentTag(tag) then 1 + WeightAll(kids)
      else if Childless(tag, self) then 3 + |tag| + |ShownAttrs(attrs)|
      else 5 + 2 * |tag| + |ShownAttrs(attrs)| + WeightAll(kids)
  }

  function WeightAll(ns: seq<Node>): nat {
    if ns == [] then 0 else Weight(ns[0]) + WeightAll(ns[1..])
  }

  // ------------------------------------------------------------------------
  // The tree walk shows the document
  // ------------------------------------------------------------------------

  lemma AttrShows(s: NodeStream, i: nat, attrs: seq<AttrKV>, k: nat)
    requires s.TablesInBounds() && i < s.Count() && AttrsMatch(s, i, attrs) && k < |attrs|
    ensures AttrHTML(s, i, k) == ShownAttr(attrs[k])
  {
  }

  lemma {:induction false} ShownAttrsSnoc(attrs: seq<AttrKV>, k: nat)
    requires k < |attrs|
    ensures ShownAttrs(attrs[..k + 1]) == ShownAttrs(attrs[..k]) + ShownAttr(attrs[k])
    decreases k
  {
    hide ShownAttr;
    if k == 0 {
      assert attrs[..1][1..] == [];
      assert ShownAttrs([]) == "";
      assert ShownAttr(attrs[0]) + "" == "" + ShownAttr(attrs[0]);
    } else {
      ShownAttrsSnoc(attrs[1..], k - 1);
      assert attrs[..k + 1][1..] == attrs[1..][..k];
      assert attrs[..k][1..] == attrs[1..][..k - 1];
      Assoc(ShownAttr(attrs[0]), ShownAttrs(attrs[1..][..k - 1]), ShownAttr(attrs[k]));
    }
  }

  lemma {:induction false} AttrsShow(s: NodeStream, i: nat, attrs: seq<AttrKV>, k: nat)
    requires s.TablesInBounds() && i < s.Count() && AttrsMatch(s, i, attrs) && k <= |attrs|
    ensures AttrsHTML(s, i, k) == ShownAttrs(attrs[..k])
    decreases k
  {
    hide AttrHTML, ShownAttr;
    if k > 0 {
      AttrsShow(s, i, attrs, k - 1);
      ShownAttrsSnoc(attrs, k - 1);
      AttrShows(s, i, attrs, k - 1);
    }
  }

  lemma OpenTagShows(s: NodeStream, i: nat, tag: string, attrs: seq<AttrKV>, self: bool)
    requires s.TablesInBounds() && i < s.Count() && AttrsMatch(s, i, attrs) && s.tag[i] == tag
    ensures OpenTagHTML(s, i, self) == "<" + tag + ShownAttrs(attrs) + if self then "/>" else ">"
  {
    hide AttrsHTML, ShownAttrs, AttrsMatch;
    assert s.NumAttr(i) == |attrs| by {
      AttrCount(s, i, attrs);
    }
    AttrsShow(s, i, attrs, |attrs|);
    assert attrs[..|attrs|] == attrs;
  }

  lemma AttrCount(s: NodeStream, i: nat, attrs: seq<AttrKV>)
    requires s.TablesInBounds() && i < s.Count() && AttrsMatch(s, i, attrs)
    ensures s.NumAttr(i) == |attrs|
  {
  }

  lemma TextFlags()
    ensures Has(FLAG_TEXT, FLAG_TEXT) && !Has(FLAG_TEXT, FLAG_RAW) && !Has(FLAG_TEXT, FLAG_COMPONENT)
  {
  }

  /** Where a laid-out list of nodes starts. */
  function LinkTo(i: nat, ns: seq<Node>): int {
    if ns == [] then -1 else i
  }

  /** A parsed stream with the given nodes laid out from `i` on, below `p`. */
  ghost predicate Shows(s: NodeStream, i: nat, p: nat, ns: seq<Node>) {
    && s.WellFormed() && Linked(s) && ParentsEarlier(s.parent) && NoSlotNodes(s)
    && Laid(s, i, p, ns) && p < i && Closed(s, p, i + SizeAll(ns))
  }

  lemma ShowsLink(s: NodeStream, i: nat, p: nat, ns: seq<Node>)
    requires Shows(s, i, p, ns)
    ensures IsLink(s, LinkTo(i, ns))
  {
  }

  /** A list of nodes is its first node and the rest. */
  lemma ShowsStep(s: NodeStream, i: nat, p: nat, ns: seq<Node>)
    requires Shows(s, i, p, ns) && ns != []
    ensures i < s.Count() && NodeMatches(s, i, p, ns[0])
    ensures s.nextSibling[i] == LinkTo(i + Size(ns[0]), ns[1..]) && Shows(s, i + Size(ns[0]), p, ns[1..])
    ensures ns[0].Element? ==> s.firstChild[i] == LinkTo(i + 1, ns[0].kids) && Shows(s, i + 1, i, ns[0].kids)
  {
    hide Linked, NodeMatches, Closed;
    SizePositive(ns[0]);
    LaidNext(s, i, p, ns);
    if ns[0].Element? {
      KidsClosed(s, i, p, ns);
      LaidFirst(s, i, ns[0].kids);
    }
  }

  /** What the walk's functions say of a laid-out list. */
  ghost predicate WalkShows(s: NodeStream, reg: Registry, c: int, ns: seq<Node>)
    requires s.WellFormed() && IsLink(s, c)
  {
    && SiblingsHTML(s, reg, c) == ShownAll(ns, reg)
    && ChildrenHTML(s, reg, c) == ShownEach(ns, reg)
    && (forall slots :: SlotsHTML(s, reg, c, slots) == ShownSlots(ns, reg, slots))
    && AnyComponent(s, c) == AnyTag(ns)
    && NoneNested(s, c) == FlatTags(ns)
  }

  lemma {:induction false} ListShows(s: NodeStream, reg: Registry, i: nat, p: nat, ns: seq<Node>)
    requires Shows(s, i, p, ns)
    ensures IsLink(s, LinkTo(i, ns)) && WalkShows(s, reg, LinkTo(i, ns), ns)
    decreases ns, 1
  {
    hide NodeMatches, Shown, NodeHTML, HasComponent, NoNesting, HasTag, FlatTag, WalkShows, WalkHTML, NoSlotNodes;
    if ns == [] {
      NothingShows(s, reg);
    } else {
      ShowsStep(s, i, p, ns);
      NodeShows(s, reg, i, p, ns[0]);
      ListShows(s, reg, i + Size(ns[0]), p, ns[1..]);
      NoSlotsFit(s, i);
      WalkIsNode(s, reg, i);
      SlotNamed(s, i, p, ns[0]);
      ConsShows(s, reg, i, ns);
    }
  }

  lemma NothingShows(s: NodeStream, reg: Registry)
    requires s.WellFormed()
    ensures WalkShows(s, reg, -1, [])
  {
  }

  lemma ConsShows(s: NodeStream, reg: Registry, c: nat, ns: seq<Node>)
    requires s.WellFormed() && c < s.Count() && ns != [] && WalkShows(s, reg, s.nextSibling[c], ns[1..])
    requires NodeHTML(s, reg, c) == WalkHTML(s, reg, c) == Shown(ns[0], reg)
    requires HasComponent(s, c) == HasTag(ns[0]) && NoNesting(s, c) == FlatTag(ns[0])
    requires SlotName(s, c) == if ns[0].Element? && IsComponentTag(ns[0].tag) then ns[0].tag else "default"
    ensures WalkShows(s, reg, c, ns)
  {
    hide Shown, NodeHTML, HasComponent, NoNesting, HasTag, FlatTag, WalkHTML, SlotName, IsComponentTag;
    forall slots
      ensures SlotsHTML(s, reg, c, slots) == ShownSlots(ns, reg, slots)
    {
    }
  }

  lemma SlotNamed(s: NodeStream, i: nat, p: nat, n: Node)
    requires s.WellFormed() && i < s.Count() && NodeMatches(s, i, p, n)
    ensures SlotName(s, i) == if n.Element? && IsComponentTag(n.tag) then n.tag else "default"
  {
  }

  lemma {:induction false} NodeShows(s: NodeStream, reg: Registry, i: nat, p: nat, n: Node)
    requires s.WellFormed() && i < s.Count() && NodeMatches(s, i, p, n)
    requires n.Element? ==> s.firstChild[i] == LinkTo(i + 1, n.kids) && Shows(s, i + 1, i, n.kids)
    ensures NodeHTML(s, reg, i) == Shown(n, reg)
    ensures HasComponent(s, i) == HasTag(n) && NoNesting(s, i) == FlatTag(n)
    decreases n, 0
  {
    hide Shows, OpenTagHTML, ShownAttrs, SiblingsHTML, ChildrenHTML, SlotsHTML, AttrsMatch;
    match n
    case TextNode(text) => TextFlags();
    case Element(tag, attrs, self, kids) =>
      FlagsFit(tag, self);
      ListShows(s, reg, i + 1, i, kids);
      OpenTagShows(s, i, tag, attrs, Childless(tag, self));
  }

  // ------------------------------------------------------------------------
  // The size of its program
  // ------------------------------------------------------------------------

  /** The literal bytes and dynamic instructions of some items. */
  ghost function Cost(items: seq<Item>): nat {
    |Literals(items)| + Marks(items)
  }

  lemma CostConcat(a: seq<Item>, b: seq<Item>)
    ensures Cost(a + b) == Cost(a) + Cost(b)
  {
    LiteralsConcat(a, b);
    MarksConcat(a, b);
  }

  lemma CostOfBytes(t: string)
    ensures Cost(Bytes(t)) == |t|
  {
    LiteralsOfBytes(t);
    MarksOfBytes(t);
  }

  lemma CostOfCall(name: string, kids: seq<Item>)
    ensures Cost([Call(name, kids)]) == 1 + Cost(kids)
  {
    LiteralsOfCall(name, kids);
    assert [Call(name, kids)][1..] == [];
    assert Marks([]) == 0;
  }

  lemma CostOfElement(open: string, kids: seq<Item>, close: string)
    ensures Cost(Bytes(open) + kids + Bytes(close)) == |open| + Cost(kids) + |close|
  {
    hide Cost;
    CostConcat(Bytes(open) + kids, Bytes(close));
    CostConcat(Bytes(open), kids);
    CostOfBytes(open);
    CostOfBytes(close);
  }

  lemma CostOfNothing()
    ensures Cost([]) == 0
  {
  }

  lemma {:induction false} ListWeighs(s: NodeStream, i: nat, p: nat, ns: seq<Node>)
    requires Shows(s, i, p, ns)
    ensures IsLink(s, LinkTo(i, ns)) && Cost(KidItems(s, LinkTo(i, ns))) == WeightAll(ns)
    decreases ns, 1
  {
    hide NodeMatches, Cost, Weight, ItemsOf, NoSlotNodes;
    if ns == [] {
      CostOfNothing();
    } else {
      var next := LinkTo(i + Size(ns[0]), ns[1..]);
      ShowsStep(s, i, p, ns);
      NodeWeighs(s, i, p, ns[0]);
      ListWeighs(s, i + Size(ns[0]), p, ns[1..]);
      NoSlotsFit(s, i);
      CostConcat(ItemsOf(s, i), KidItems(s, next));
    }
  }

  lemma {:induction false} NodeWeighs(s: NodeStream, i: nat, p: nat, n: Node)
    requires s.WellFormed() && i < s.Count() && NodeMatches(s, i, p, n)
    requires n.Element? ==> s.firstChild[i] == LinkTo(i + 1, n.kids) && Shows(s, i + 1, i, n.kids)
    ensures Cost(ItemsOf(s, i)) == Weight(n)
    decreases n, 0
  {
    hide Shows, OpenTagHTML, ShownAttrs, KidItems, AttrsMatch, Cost;
    match n
    case TextNode(text) =>
      TextFlags();
      CostOfBytes(TextHTML(s, i));
    case Element(tag, attrs, self, kids) =>
      FlagsFit(tag, self);
      ListWeighs(s, i + 1, i, kids);
      OpenTagShows(s, i, tag, attrs, Childless(tag, self));
      CostOfCall(tag, KidItems(s, s.firstChild[i]));
      CostOfBytes(OpenTagHTML(s, i, true));
      CostOfElement(OpenTagHTML(s, i, false), KidItems(s, s.firstChild[i]), CloseTagHTML(tag));
  }

  // ------------------------------------------------------------------------
  // Single nodes, of any stream
  // ------------------------------------------------------------------------

  /** A raw text renders to its own bytes. Any other renders to bytes without markup
      that decode to it. The compiler emits the same bytes. */
  lemma TextRenders(s: NodeStream, reg: Registry, i: nat)
    requires s.WellFormed() && i < s.Count() && Has(s.flags[i], FLAG_TEXT)
    ensures var html := NodeHTML(s, reg, i);
            && ItemsOf(s, i) == Bytes(html)
            && if Has(s.flags[i], FLAG_RAW) then html == s.Text(i)
               else Unescape(html) == s.Text(i) && forall k :: 0 <= k < |html| ==> html[k] !in "<>\"'"
  {
    hide Escape, Unescape;
    UnescapeEscape(s.Text(i));
    EscapedHasNoMarkup(s.Text(i));
  }

  /** What stands between the quotes of an attribute decodes to its value and has no
      markup; an absent value leaves the bare name. */
  lemma AttrRenders(s: NodeStream, i: nat, k: nat) returns (html: string)
    requires s.TablesInBounds() && i < s.Count() && k < s.NumAttr(i)
    ensures s.AttrVal(i, k).NoValue? ==> AttrHTML(s, i, k) == " " + s.AttrKey(i, k)
    ensures !s.AttrVal(i, k).NoValue? ==> AttrHTML(s, i, k) == " " + s.AttrKey(i, k) + "=\"" + html + "\""
    ensures match s.AttrVal(i, k)
            case StringValue(v) => Unescape(html) == v
            case BytesValue(v) => Unescape(html) == v
            case StringerValue(v) => Unescape(html) == v
            case _ => html == ""
    ensures forall j :: 0 <= j < |html| ==> html[j] !in "<>\"'"
  {
    html := Escape(Stringify(s.AttrVal(i, k)));
    UnescapeEscape(Stringify(s.AttrVal(i, k)));
    EscapedHasNoMarkup(Stringify(s.AttrVal(i, k)));
  }

  /** An element flagged void or self-closing is one tag with all its attributes, on
      both paths, and shows no children. */
  lemma ClosedRenders(s: NodeStream, reg: Registry, i: nat)
    requires s.WellFormed() && i < s.Count() && !Has(s.flags[i], FLAG_TEXT) && !Has(s.flags[i], FLAG_COMPONENT)
    requires Has(s.flags[i], FLAG_VOID) || Has(s.flags[i], FLAG_SELF_CLOSING)
    ensures NodeHTML(s, reg, i) == "<" + s.tag[i] + AttrsHTML(s, i, s.NumAttr(i)) + "/>"
    ensures ItemsOf(s, i) == Bytes(NodeHTML(s, reg, i))
  {
    hide AttrsHTML;
    VoidOrSelfClosing(s.flags[i]);
  }

  /** A component without a name shows nothing in the tree walk; the bytecode
      dispatches it under the empty name. */
  lemma UnnamedRenders(s: NodeStream, reg: Registry, i: nat)
    requires s.WellFormed() && i < s.Count() && !Has(s.flags[i], FLAG_TEXT) && Has(s.flags[i], FLAG_COMPONENT)
    requires s.componentName[i] == ""
    ensures NodeHTML(s, reg, i) == ""
    ensures "" !in reg ==> RunHTML(ItemsOf(s, i), reg) == "<!-- missing component:  -->"
  {
    hide CollectItems, KidItems;
    RunSingle(Call("", KidItems(s, s.firstChild[i])), reg);
  }

  // ------------------------------------------------------------------------
  // From source to output
  // ------------------------------------------------------------------------

  /** `s` is the parse of the source, with its links. */
  ghost predicate IsParse(ts: seq<Tree>, s: NodeStream) {
    && s.WellFormed() && Linked(s) && ParentsEarlier(s.parent) && NoSlotNodes(s) && ComponentsNamed(s)
    && s == BuildAll(Root(), 0, Doc(ts)).(firstChild := s.firstChild, nextSibling := s.nextSibling)
  }

  lemma RootFlags()
    ensures var f := FLAG_FRAGMENT;
            && Has(f, FLAG_FRAGMENT) && !Has(f, FLAG_TEXT) && !Has(f, FLAG_COMPONENT)
            && !Has(f, FLAG_VOID) && !Has(f, FLAG_SELF_CLOSING) && !Has(f, FLAG_VOID | FLAG_SELF_CLOSING)
  {
  }

  lemma ParseShows(ts: seq<Tree>, s: NodeStream)
    requires IsParse(ts, s)
    ensures s.Count() > 0 && s.flags[0] == FLAG_FRAGMENT
    ensures Shows(s, 1, 0, Doc(ts)) && s.firstChild[0] == LinkTo(1, Doc(ts))
  {
    hide BuildAll, Laid, SizeAll, Doc;
    BuildAllLays(Root(), 0, Doc(ts));
    LaidFrame(BuildAll(Root(), 0, Doc(ts)), s, 1, 0, Doc(ts));
    LaidFirst(s, 0, Doc(ts));
    assert s.flags[0] == Root().flags[0] == FLAG_FRAGMENT;
  }

  /** The tree walk of a parsed source writes what its document shows, for every
      registry; and its nesting and program size are the document's. */
  lemma SourceShows(ts: seq<Tree>, s: NodeStream, reg: Registry)
    requires IsParse(ts, s)
    ensures s.Count() > 0 && WalkedHTML(s, reg) == ShownAll(Doc(ts), reg)
    ensures HasComponent(s, 0) == AnyTag(Doc(ts)) && NoNesting(s, 0) == FlatTags(Doc(ts))
    ensures Cost(ProgramItems(s)) == WeightAll(Doc(ts))
  {
    hide IsParse, Shows, Doc, ShownAll, Cost, AnyTag, FlatTags;
    ParseShows(ts, s);
    ParseKept(ts, s);
    ListShows(s, reg, 1, 0, Doc(ts));
    ListWeighs(s, 1, 0, Doc(ts));
    RootFlags();
  }

  lemma ParseKept(ts: seq<Tree>, s: NodeStream)
    requires IsParse(ts, s)
    ensures s.WellFormed() && NoSlotNodes(s) && ComponentsNamed(s)
  {
  }

  /** Parses a canonical source. */
  method ParseSource(src: string, ghost ts: seq<Tree>) returns (s: NodeStream)
    requires src == PrintAll(ts) && Canonical(ts)
    ensures IsParse(ts, s)
  {
    hide Canonical, PrintAll, Doc;
    ParsePrint(ts);
    var r := Parse(src);
    ParseIsPreordered(src);
    s := r.stream;
  }

  /** Parse and walk. */
  method WalkSource(src: string, ghost ts: seq<Tree>, reg: Registry, w: Sink)
    requires src == PrintAll(ts) && Canonical(ts)
    modifies w
    ensures w.out == old(w.out) + ShownAll(Doc(ts), reg)
  {
    hide Canonical, PrintAll, Doc, ShownAll, IsParse;
    var s := ParseSource(src, ts);
    ParseKept(ts, s);
    SourceShows(ts, s, reg);
    Execute(s, reg, w);
  }

  /** Parse, compile and execute: the same bytes, if no component is nested and
      components see only their joined children. */
  method RenderMarkup(src: string, ghost ts: seq<Tree>, reg: Registry, w: Sink)
    requires src == PrintAll(ts) && Canonical(ts) && WeightAll(Doc(ts)) < U24
    requires AnyTag(Doc(ts)) ==> FlatTags(Doc(ts)) && ConcatOnly(reg)
    modifies w
    ensures w.out == old(w.out) + ShownAll(Doc(ts), reg)
  {
    hide Canonical, PrintAll, Doc, ShownAll, IsParse, AnyTag, FlatTags, ConcatOnly;
    var s := ParseSource(src, ts);
    ParseKept(ts, s);
    SourceShows(ts, s, reg);
    NoSlotsFit(s, 0);
    CompileAndExec(s, reg, w);
    if AnyTag(Doc(ts)) {
      AgreeAt(s, reg, 0);
    } else {
      PlainItems(s, reg, 0);
      RunBytes(NodeHTML(s, reg, 0), reg);
    }
  }

  // ------------------------------------------------------------------------
  // Sources that render to themselves
  // ------------------------------------------------------------------------

  predicate NoSpecials(s: string) {
    forall k :: 0 <= k < |s| ==> !Special(s[k])
  }

  /** Written as the renderer writes it. */
  predicate PlainAttr(a: Attr) {
    a.space == " " && a.form == Quoted('"') && a.blanks == "" && NoSpecials(a.v)
  }

  predicate PlainAttrs(attrs: seq<Attr>) {
    forall k :: 0 <= k < |attrs| ==> PlainAttr(attrs[k])
  }

  /** No component and no comment, nothing that escaping would change, one space
      before each attribute, double quotes, and a slash in every leaf. */
  predicate PlainTree(t: Tree) {
    match t
    case Text(text) => NoSpecials(text)
    case Comment(_) => false
    case Leaf(tag, attrs, space, slash) => !IsComponentTag(tag) && PlainAttrs(attrs) && space == "" && slash
    case Elem(tag, attrs, space, kids, closeSpace) =>
      && !IsComponentTag(tag) && !IsVoidTag(tag) && PlainAttrs(attrs) && space == "" && closeSpace == ""
      && PlainForest(kids)
  }

  predicate PlainForest(ts: seq<Tree>) {
    ts == [] || (PlainTree(ts[0]) && PlainForest(ts[1..]))
  }

  lemma {:induction false} PlainAttrsShow(attrs: seq<Attr>)
    requires PlainAttrs(attrs)
    ensures ShownAttrs(Values(attrs)) == PrintAttrs(attrs)
  {
    hide ShownAttr, PrintAttr, PlainAttr;
    if attrs != [] {
      PlainAttrsShow(attrs[1..]);
      assert Values(attrs)[1..] == Values(attrs[1..]);
      PlainAttrShows(attrs[0]);
    }
  }

  lemma PlainAttrShows(a: Attr)
    requires PlainAttr(a)
    ensures ShownAttr(AttrKV(a.k, a.v)) == PrintAttr(a)
  {
    hide PrintAttr, Escape, NoSpecials;
    PlainText(a.v);
    QuotedPrints(a.k, a.v);
  }

  lemma {:induction false} PlainShows(ts: seq<Tree>, reg: Registry)
    requires PlainForest(ts)
    ensures ShownAll(Doc(ts), reg) == PrintAll(ts) && WeightAll(Doc(ts)) == |PrintAll(ts)| && !AnyTag(Doc(ts))
    decreases ts, 1
  {
    hide Shown, Weight, HasTag, DocOf, Tokens, PrintToken;
    if ts != [] {
      PlainTreeShows(ts[0], reg);
      PlainShows(ts[1..], reg);
      PrintConcat(Tokens(ts[0]), TokensOf(ts[1..]));
      var n := DocOf(ts[0])[0];
      assert Doc(ts) == [n] + Doc(ts[1..]);
      assert Doc(ts)[1..] == Doc(ts[1..]);
    }
  }

  lemma {:induction false} PlainTreeShows(t: Tree, reg: Registry)
    requires PlainTree(t)
    ensures |DocOf(t)| == 1 && !HasTag(DocOf(t)[0])
    ensures Shown(DocOf(t)[0], reg) == PrintTokens(Tokens(t)) && Weight(DocOf(t)[0]) == |PrintTokens(Tokens(t))|
    decreases t, 0
  {
    hide PrintAttrs, ShownAttrs, TokensOf, ShownAll, WeightAll, Doc, PrintTokens, PrintToken, Escape, NoSpecials;
    match t
    case Text(text) =>
      PlainText(text);
      PrintOne(TextTok(text));
      TextIsPrinted(TextTok(text));
    case Leaf(tag, attrs, space, slash) =>
      PlainAttrsShow(attrs);
      PrintLeaf(tag, attrs);
    case Elem(tag, attrs, space, kids, closeSpace) =>
      PlainAttrsShow(attrs);
      PlainShows(kids, reg);
      PrintElem(tag, attrs, kids);
  }

  lemma PlainText(text: string)
    requires NoSpecials(text)
    ensures Escape(text) == text
  {
    EscapeFixpoint(text);
  }

  lemma PrintLeaf(tag: string, attrs: seq<Attr>)
    ensures PrintTokens(Tokens(Leaf(tag, attrs, "", true))) == "<" + tag + PrintAttrs(attrs) + "/>"
  {
    hide PrintAttrs;
    PrintOne(OpenTok(tag, attrs, "", true));
    assert "<" + (tag + (PrintAttrs(attrs) + ("" + "/>"))) == "<" + tag + PrintAttrs(attrs) + "/>";
  }

  lemma PrintOne(tok: Token)
    ensures PrintTokens([tok]) == PrintToken(tok)
  {
    hide PrintToken;
    assert [tok][1..] == [];
    assert PrintToken(tok) + "" == PrintToken(tok);
  }

  lemma PrintElem(tag: string, attrs: seq<Attr>, kids: seq<Tree>)
    ensures PrintTokens(Tokens(Elem(tag, attrs, "", kids, "")))
            == "<" + tag + PrintAttrs(attrs) + ">" + PrintAll(kids) + "</" + tag + ">"
  {
    hide PrintTokens, PrintAttrs, TokensOf;
    var open, close := OpenTok(tag, attrs, "", false), CloseTok(tag, [], "", false);
    PrintConcat([open] + TokensOf(kids), [close]);
    PrintConcat([open], TokensOf(kids));
    PrintOne(open);
    PrintOne(close);
    var inner := PrintAll(kids);
    NoAttrs();
    assert PrintToken(open) == "<" + tag + PrintAttrs(attrs) + ">";
    assert PrintToken(close) == "</" + tag + ">";
    assert PrintToken(open) + inner + PrintToken(close) == PrintToken(open) + inner + "</" + tag + ">";
  }

  /** The parsed stream of a plain source renders to that source, along both paths
      and whatever the registry. */
  lemma PlainSourceRenders(ts: seq<Tree>, s: NodeStream, reg: Registry)
    requires IsParse(ts, s) && PlainForest(ts)
    ensures s.Count() > 0 && WalkedHTML(s, reg) == PrintAll(ts)
    ensures ProgramItems(s) == Bytes(PrintAll(ts))
  {
    hide IsParse, Doc, ShownAll, WeightAll, PrintAll, PlainForest;
    ParseKept(ts, s);
    SourceShows(ts, s, reg);
    PlainShows(ts, reg);
    NoSlotsFit(s, 0);
    PlainItems(s, reg, 0);
  }

  /** Parse, compile, execute: a plain canonical source below 2^24 bytes comes
      back unchanged. */
  method RenderSource(src: string, ghost ts: seq<Tree>, reg: Registry, w: Sink)
    requires src == PrintAll(ts) && Canonical(ts) && PlainForest(ts)
    requires |src| < U24
    modifies w
    ensures w.out == old(w.out) + src
  {
    PlainShows(ts, reg);
    hide Canonical, PrintAll, Doc, ShownAll, PlainForest, WeightAll;
    RenderMarkup(src, ts, reg, w);
  }
}
