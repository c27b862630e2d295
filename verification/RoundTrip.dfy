/** Element trees as markup: parsing what was printed gives back their nodes,
    whatever comments, spaces, quotes and void tags they are written with
    (parse_html.go). */
module RoundTrip {
  import opened NodeStreams
  import opened HtmlParser
  import opened Markup

  /** A piece of a source. A leaf ends in a slash or has a void tag. */
  datatype Tree =
    | Text(text: string)
    | Comment(text: string)
    | Leaf(tag: string, attrs: seq<Attr>, space: string, slash: bool)
    | Elem(tag: string, attrs: seq<Attr>, space: string, kids: seq<Tree>, closeSpace: string)

  function Tokens(t: Tree): seq<Token> {
    match t
    case Text(text) => [TextTok(text)]
    case Comment(text) => [CommentTok(text)]
    case Leaf(tag, attrs, space, slash) => [OpenTok(tag, attrs, space, slash)]
    case Elem(tag, attrs, space, kids, closeSpace) =>
      [OpenTok(tag, attrs, space, false)] + TokensOf(kids) + [CloseTok(tag, [], closeSpace, false)]
  }

  function TokensOf(ts: seq<Tree>): seq<Token> {
    if ts == [] then [] else Tokens(ts[0]) + TokensOf(ts[1..])
  }

  function PrintAll(ts: seq<Tree>): string {
    PrintTokens(TokensOf(ts))
  }

  predicate Shapely(t: Tree) {
    match t
    case Leaf(tag, _, _, slash) => slash || IsVoidTag(tag)
    case Elem(tag, _, _, kids, _) => !IsVoidTag(tag) && AllShapely(kids)
    case _ => true
  }

  predicate AllShapely(ts: seq<Tree>) {
    ts == [] || (Shapely(ts[0]) && AllShapely(ts[1..]))
  }

  /** Valid names and values; texts not empty and never next to each other; void tags
      only as leaves. */
  ghost predicate Canonical(ts: seq<Tree>) {
    CanonicalTokens(TokensOf(ts)) && AllShapely(ts)
  }

  // ------------------------------------------------------------------------
  // What they stand for
  // ------------------------------------------------------------------------

  /** A node of the document. */
  datatype Node =
    | TextNode(text: string)
    | Element(tag: string, attrs: seq<AttrKV>, self: bool, kids: seq<Node>)

  function DocOf(t: Tree): seq<Node> {
    match t
    case Text(text) => [TextNode(text)]
    case Comment(_) => []
    case Leaf(tag, attrs, _, slash) => [Element(tag, Values(attrs), slash, [])]
    case Elem(tag, attrs, _, kids, _) => [Element(tag, Values(attrs), false, Doc(kids))]
  }

  function Doc(ts: seq<Tree>): seq<Node> {
    if ts == [] then [] else DocOf(ts[0]) + Doc(ts[1..])
  }

  /** The pre-order nodes of a document, appended below `parent`. */
  ghost function Build(s: NodeStream, parent: nat, n: Node): (r: NodeStream)
    requires s.TablesInBounds()
    ensures r.TablesInBounds()
    decreases n
  {
    match n
    case TextNode(text) => WithTextNode(s, parent, text)
    case Element(tag, attrs, self, kids) => BuildAll(WithElement(s, parent, tag, attrs, self), s.Count(), kids)
  }

  ghost function BuildAll(s: NodeStream, parent: nat, ns: seq<Node>): (r: NodeStream)
    requires s.TablesInBounds()
    ensures r.TablesInBounds()
    decreases ns
  {
    if ns == [] then s else BuildAll(Build(s, parent, ns[0]), parent, ns[1..])
  }

  lemma {:induction false} BuildConcat(s: NodeStream, parent: nat, a: seq<Node>, b: seq<Node>)
    requires s.TablesInBounds()
    ensures BuildAll(s, parent, a + b) == BuildAll(BuildAll(s, parent, a), parent, b)
    decreases |a|
  {
    hide Build;
    if a == [] {
      assert a + b == b;
    } else {
      assert (a + b)[1..] == a[1..] + b;
      BuildConcat(Build(s, parent, a[0]), parent, a[1..], b);
    }
  }

  lemma BuildOne(s: NodeStream, parent: nat, n: Node)
    requires s.TablesInBounds()
    ensures BuildAll(s, parent, [n]) == Build(s, parent, n)
  {
    hide Build;
    assert [n][1..] == [];
  }

  // ------------------------------------------------------------------------
  // Reading them
  // ------------------------------------------------------------------------

  lemma FeedOne(f: Frame, tok: Token)
    requires f.Valid()
    ensures FeedAll(f, [tok]) == Feed(f, tok)
  {
    hide Feed;
    assert [tok][1..] == [];
  }

  lemma {:induction false} FeedTree(f: Frame, t: Tree)
    requires f.Valid() && Shapely(t)
    ensures FeedAll(f, Tokens(t)) == Frame(f.stack, BuildAll(f.stream, Top(f.stack), DocOf(t)))
    decreases t, 0
  {
    hide WithElement, WithTextNode, FeedAll, BuildAll;
    match t
    case Text(text) =>
      FeedOne(f, TextTok(text));
      BuildOne(f.stream, Top(f.stack), TextNode(text));
    case Comment(text) =>
      FeedOne(f, CommentTok(text));
      BuildNone(f.stream, Top(f.stack));
    case Leaf(tag, attrs, space, slash) =>
      FeedOne(f, OpenTok(tag, attrs, space, slash));
      BuildOne(f.stream, Top(f.stack), Element(tag, Values(attrs), slash, []));
      BuildNone(WithElement(f.stream, Top(f.stack), tag, Values(attrs), slash), f.stream.Count());
    case Elem(_, _, _, _, _) => FeedElem(f, t);
  }

  lemma BuildNone(s: NodeStream, parent: nat)
    requires s.TablesInBounds()
    ensures BuildAll(s, parent, []) == s
  {
  }

  lemma {:induction false} FeedElem(f: Frame, t: Tree)
    requires f.Valid() && Shapely(t) && t.Elem?
    ensures FeedAll(f, Tokens(t)) == Frame(f.stack, BuildAll(f.stream, Top(f.stack), DocOf(t)))
    decreases t.kids, 1
  {
    hide WithElement, FeedAll, BuildAll;
    var open, close := OpenTok(t.tag, t.attrs, t.space, false), CloseTok(t.tag, [], t.closeSpace, false);
    var kids, top := TokensOf(t.kids), Top(f.stack);
    var g := Feed(f, open);
    FeedConcat(f, [open] + kids, [close]);
    FeedConcat(f, [open], kids);
    FeedOne(f, open);
    FeedForest(g, t.kids);
    FeedOne(FeedAll(g, kids), close);
    assert g.stack[..|g.stack| - 1] == f.stack;
    BuildOne(f.stream, top, Element(t.tag, Values(t.attrs), false, Doc(t.kids)));
  }

  lemma {:induction false} FeedForest(f: Frame, ts: seq<Tree>)
    requires f.Valid() && AllShapely(ts)
    ensures FeedAll(f, TokensOf(ts)) == Frame(f.stack, BuildAll(f.stream, Top(f.stack), Doc(ts)))
    decreases ts, 0
  {
    hide Feed, Build;
    if ts != [] {
      var g := FeedAll(f, Tokens(ts[0]));
      FeedConcat(f, Tokens(ts[0]), TokensOf(ts[1..]));
      FeedTree(f, ts[0]);
      FeedForest(g, ts[1..]);
      BuildConcat(f.stream, Top(f.stack), DocOf(ts[0]), Doc(ts[1..]));
    }
  }

  /** Parsing a printed canonical forest yields exactly the pre-order nodes of its
      document; comments leave no trace. */
  lemma ParsePrint(ts: seq<Tree>)
    requires Canonical(ts)
    ensures ParseFrom(PrintAll(ts), 0, [0], Root()) == Parsed(BuildAll(Root(), 0, Doc(ts)))
  {
    hide CanonicalTokens, FeedAll, BuildAll;
    ParseTokens(TokensOf(ts));
    FeedForest(Start(), ts);
  }
}
