/** The tags the package writes itself are markup that its parser reads back, to elements
    whose values decode to what was given (head.go, assets.go, suspense.go). */
module WrittenMarkup {
  import opened Sequences
  import opened Escaping
  import opened OutOfBand
  import opened NodeStreams
  import opened HtmlParser
  import opened Markup
  import opened RoundTrip
  import opened Assets
  import opened HeadState

  // ------------------------------------------------------------------------
  // What is to be read back
  // ------------------------------------------------------------------------

  /** The attribute has the name, and its value decodes to the given one. */
  predicate Holds(a: AttrKV, k: string, v: string) {
    a.k == k && Unescape(a.v) == v
  }

  predicate IsTitle(n: Node, title: string) {
    && n.Element? && n.tag == "title" && n.attrs == []
    && |n.kids| == 1 && n.kids[0].TextNode? && Unescape(n.kids[0].text) == title
  }

  predicate IsMeta(n: Node, m: Meta) {
    && n.Element? && n.tag == "meta" && n.kids == [] && |n.attrs| == 2
    && Holds(n.attrs[0], "name", m.name) && Holds(n.attrs[1], "content", m.content)
  }

  predicate IsStyle(n: Node, href: string) {
    && n.Element? && n.tag == "link" && n.kids == [] && |n.attrs| == 2
    && Holds(n.attrs[0], "rel", "stylesheet") && Holds(n.attrs[1], "href", href)
  }

  predicate IsScript(n: Node, src: string) {
    && n.Element? && n.tag == "script" && n.kids == [] && |n.attrs| == 2
    && Holds(n.attrs[0], "defer", "") && Holds(n.attrs[1], "src", src)
  }

  // ------------------------------------------------------------------------
  // Tags as trees
  // ------------------------------------------------------------------------

  function Quote(k: string, v: string): Attr {
    Attr(" ", k, Quoted('"'), "", v)
  }

  function TitleTree(title: string): Tree {
    Elem("title", [], "", [Text(Escape(title))], "")
  }

  function MetaTree(m: Meta): Tree {
    Leaf("meta", [Quote("name", Escape(m.name)), Quote("content", Escape(m.content))], "", false)
  }

  function StyleTree(href: string): Tree {
    Leaf("link", [Quote("rel", "stylesheet"), Quote("href", Escape(href))], "", false)
  }

  function ScriptTree(src: string): Tree {
    Elem("script", [Attr(" ", "defer", Missing, "", ""), Quote("src", Escape(src))], "", [], "")
  }

  lemma QuotePrints(k: string, v: string)
    ensures PrintAttr(Quote(k, v)) == " " + k + "=\"" + v + "\""
  {
    QuotedPrints(k, v);
  }

  lemma QuoteCanonical(k: string, v: string)
    requires Only(k, IsAttrNameByte) && '"' !in v
    ensures CanonicalAttr(Quote(k, v))
  {
  }

  lemma EscapedQuotes(s: string)
    ensures '"' !in Escape(s) && '<' !in Escape(s)
  {
    hide Escape;
    EscapedHasNoMarkup(s);
  }

  lemma TwoAttrs(a: Attr, b: Attr)
    ensures PrintAttrs([a, b]) == PrintAttr(a) + PrintAttr(b)
    ensures CanonicalAttr(a) && CanonicalAttr(b) && a.space != "" && b.space != "" ==> CanonicalAttrs([a, b])
  {
    hide PrintAttr, CanonicalAttr;
    assert [a, b][1..] == [b] && [b][1..] == [];
    assert CanonicalAttr(b) && b.space != "" ==> CanonicalBehind([b], a.form.Quoted?);
    assert PrintAttrs([b]) == PrintAttr(b) + "" == PrintAttr(b);
  }

  lemma TwoValues(a: Attr, b: Attr)
    ensures Values([a, b]) == [AttrKV(a.k, a.v), AttrKV(b.k, b.v)]
  {
  }

  lemma OneToken(tok: Token)
    ensures PrintTokens([tok]) == PrintToken(tok)
    ensures CanonicalToken(tok) ==> CanonicalTokens([tok])
  {
    hide PrintToken, CanonicalToken;
    assert [tok][1..] == [];
    assert PrintToken(tok) + "" == PrintToken(tok);
  }

  /** A leaf of two attributes. */
  lemma LeafPrints(tag: string, a: Attr, b: Attr)
    ensures PrintTokens(Tokens(Leaf(tag, [a, b], "", false))) == "<" + tag + PrintAttr(a) + PrintAttr(b) + ">"
    ensures CanonicalTag(tag) && CanonicalAttr(a) && CanonicalAttr(b) && a.space != "" && b.space != ""
            ==> CanonicalTokens(Tokens(Leaf(tag, [a, b], "", false)))
  {
    hide PrintAttr, CanonicalAttr, CanonicalTag, PrintAttrs, CanonicalAttrs, PrintTokens, CanonicalTokens;
    var tok := OpenTok(tag, [a, b], "", false);
    OneToken(tok);
    TwoAttrs(a, b);
    assert PrintToken(tok) == "<" + (tag + ((PrintAttr(a) + PrintAttr(b)) + ("" + ">")));
  }

  lemma TagNames()
    ensures CanonicalTag("meta") && CanonicalTag("link") && CanonicalTag("script") && CanonicalTag("title")
    ensures CanonicalTag("div")
    ensures IsVoidTag("meta") && IsVoidTag("link") && !IsVoidTag("script") && !IsVoidTag("title") && !IsVoidTag("div")
  {
  }

  /** A printed tree, its form and its document. */
  ghost predicate Written(t: Tree, text: string) {
    PrintTokens(Tokens(t)) == text && CanonicalTokens(Tokens(t)) && Shapely(t)
    && Tokens(t) != [] && !Tokens(t)[0].TextTok?
  }

  lemma LeafWritten(tag: string, a: Attr, b: Attr)
    requires CanonicalTag(tag) && IsVoidTag(tag) && CanonicalAttr(a) && CanonicalAttr(b)
    requires a.space != "" && b.space != ""
    ensures var t := Leaf(tag, [a, b], "", false);
            && Written(t, "<" + tag + PrintAttr(a) + PrintAttr(b) + ">")
            && DocOf(t) == [Element(tag, [AttrKV(a.k, a.v), AttrKV(b.k, b.v)], false, [])]
  {
    hide PrintAttr, CanonicalAttr, CanonicalTag, PrintTokens, CanonicalTokens;
    LeafPrints(tag, a, b);
    TwoValues(a, b);
  }

  lemma MetaText(x: string, y: string)
    ensures "<" + "meta" + (" " + "name" + "=\"" + x + "\"") + (" " + "content" + "=\"" + y + "\"") + ">"
         == "<meta name=\"" + x + "\" content=\"" + y + "\">"
  {
  }

  lemma MetaWritten(m: Meta)
    ensures Written(MetaTree(m), MetaTag(m)) && |DocOf(MetaTree(m))| == 1 && IsMeta(DocOf(MetaTree(m))[0], m)
  {
    hide Escape, Unescape, PrintAttr, Written, CanonicalTag, CanonicalAttr;
    var x, y := Escape(m.name), Escape(m.content);
    TagNames();
    EscapedQuotes(m.name);
    EscapedQuotes(m.content);
    QuoteCanonical("name", x);
    QuoteCanonical("content", y);
    QuotePrints("name", x);
    QuotePrints("content", y);
    LeafWritten("meta", Quote("name", x), Quote("content", y));
    UnescapeEscape(m.name);
    UnescapeEscape(m.content);
    MetaText(x, y);
  }

  lemma StyleText(x: string)
    ensures "<" + "link" + (" " + "rel" + "=\"" + "stylesheet" + "\"") + (" " + "href" + "=\"" + x + "\"") + ">"
         == "<link rel=\"stylesheet\" href=\"" + x + "\">"
  {
  }

  lemma PlainWord()
    ensures Escape("stylesheet") == "stylesheet" && '"' !in "stylesheet" && Escape("") == ""
  {
    hide Escape;
    EscapeFixpoint("stylesheet");
    EscapeFixpoint("");
  }

  lemma StyleWritten(href: string)
    ensures Written(StyleTree(href), CssTag(href)) && |DocOf(StyleTree(href))| == 1
    ensures IsStyle(DocOf(StyleTree(href))[0], href)
  {
    hide Escape, Unescape, PrintAttr, Written, CanonicalTag, CanonicalAttr;
    var x := Escape(href);
    TagNames();
    PlainWord();
    EscapedQuotes(href);
    QuoteCanonical("rel", "stylesheet");
    QuoteCanonical("href", x);
    QuotePrints("rel", "stylesheet");
    QuotePrints("href", x);
    LeafWritten("link", Quote("rel", "stylesheet"), Quote("href", x));
    UnescapeEscape("stylesheet");
    UnescapeEscape(href);
    StyleText(x);
  }

  // ------------------------------------------------------------------------
  // Elements with closing tags
  // ------------------------------------------------------------------------

  lemma ThreeTokens(a: Token, b: Token, c: Token)
    ensures PrintTokens([a, b, c]) == PrintToken(a) + PrintToken(b) + PrintToken(c)
    ensures CanonicalToken(a) && CanonicalToken(b) && CanonicalToken(c) && !a.TextTok? && !c.TextTok?
            ==> CanonicalTokens([a, b, c])
  {
    hide PrintToken, CanonicalToken;
    assert [a, b, c] == [a] + ([b] + [c]);
    PrintConcat([a], [b] + [c]);
    PrintConcat([b], [c]);
    OneToken(a);
    OneToken(b);
    OneToken(c);
    Assoc(PrintToken(a), PrintToken(b), PrintToken(c));
  }

  lemma TwoTokens(a: Token, b: Token)
    ensures PrintTokens([a, b]) == PrintToken(a) + PrintToken(b)
    ensures CanonicalToken(a) && CanonicalToken(b) && !a.TextTok? ==> CanonicalTokens([a, b])
  {
    hide PrintToken, CanonicalToken;
    assert [a, b] == [a] + [b];
    PrintConcat([a], [b]);
    OneToken(a);
    OneToken(b);
  }

  lemma TitleText(x: string)
    ensures PrintToken(OpenTok("title", [], "", false)) + x + PrintToken(CloseTok("title", [], "", false))
         == "<title>" + x + "</title>"
    ensures CanonicalToken(OpenTok("title", [], "", false)) && CanonicalToken(CloseTok("title", [], "", false))
  {
    TagNames();
    assert PrintToken(OpenTok("title", [], "", false)) == "<title>";
    assert PrintToken(CloseTok("title", [], "", false)) == "</title>";
  }

  lemma TitleWritten(title: string)
    requires title != ""
    ensures Written(TitleTree(title), TitleTag(title)) && |DocOf(TitleTree(title))| == 1
    ensures IsTitle(DocOf(TitleTree(title))[0], title)
  {
    hide Escape, Unescape, PrintToken, CanonicalTokens, PrintTokens, CanonicalTag;
    var a, b, c := OpenTok("title", [], "", false), TextTok(Escape(title)), CloseTok("title", [], "", false);
    TagNames();
    EscapedQuotes(title);
    EscapeFixpoint(title);
    UnescapeEscape(title);
    TextIsPrinted(b);
    ThreeTokens(a, b, c);
    TitleText(Escape(title));
    OneKid(Text(Escape(title)));
    InnerTokens(a, b, c);
    assert Tokens(TitleTree(title)) == [a, b, c];
  }

  lemma OneKid(t: Tree)
    ensures TokensOf([t]) == Tokens(t) + [] && Doc([t]) == DocOf(t) && AllShapely([t]) == Shapely(t)
  {
    assert [t][1..] == [];
    assert DocOf(t) + [] == DocOf(t);
  }

  lemma InnerTokens(a: Token, b: Token, c: Token)
    ensures [a] + ([b] + []) + [c] == [a, b, c] && [a] + [] + [c] == [a, c]
  {
  }

  lemma ScriptText(x: string)
    ensures "<" + ("script" + ((" " + ("defer" + "")) + (" " + "src" + "=\"" + x + "\"") + ("" + ">"))) + "</script>"
         == "<script defer src=\"" + x + "\"></script>"
  {
  }

  lemma ScriptWritten(src: string)
    ensures Written(ScriptTree(src), JsTag(src)) && |DocOf(ScriptTree(src))| == 1
    ensures IsScript(DocOf(ScriptTree(src))[0], src)
  {
    hide Escape, Unescape, PrintTokens, CanonicalTokens, CanonicalTag, CanonicalAttr, PrintAttrs, CanonicalAttrs;
    var x := Escape(src);
    var d, q := Attr(" ", "defer", Missing, "", ""), Quote("src", x);
    var a, b := OpenTok("script", [d, q], "", false), CloseTok("script", [], "", false);
    TagNames();
    PlainWord();
    EscapedQuotes(src);
    DeferCanonical();
    QuoteCanonical("src", x);
    QuotePrints("src", x);
    TwoAttrs(d, q);
    TwoValues(d, q);
    TwoTokens(a, b);
    UnescapeEscape("");
    UnescapeEscape(src);
    ScriptText(x);
    CloseText();
    InnerTokens(a, b, b);
    assert Tokens(ScriptTree(src)) == [a, b];
    assert PrintToken(a) == "<" + ("script" + (PrintAttr(d) + PrintAttr(q) + ("" + ">")));
    assert Shapely(ScriptTree(src));
    assert PrintTokens(Tokens(ScriptTree(src))) == JsTag(src);
    assert CanonicalTokens(Tokens(ScriptTree(src)));
  }

  lemma DeferCanonical()
    ensures var d := Attr(" ", "defer", Missing, "", ""); CanonicalAttr(d) && PrintAttr(d) == " " + ("defer" + "")
  {
  }

  lemma CloseText()
    ensures PrintToken(CloseTok("script", [], "", false)) == "</script>" && CanonicalAttrs([])
  {
  }

  // ------------------------------------------------------------------------
  // A whole head
  // ------------------------------------------------------------------------

  /** Trees that are printed as the text, none of them a text. */
  ghost predicate AllWritten(ts: seq<Tree>, text: string) {
    && PrintAll(ts) == text && Canonical(ts)
    && (TokensOf(ts) != [] ==> !TokensOf(ts)[0].TextTok?)
  }

  lemma NothingWritten()
    ensures AllWritten([], "") && Doc([]) == []
  {
  }

  lemma CanonicalConcat(a: seq<Token>, b: seq<Token>)
    requires CanonicalTokens(a) && CanonicalTokens(b) && (b != [] ==> !b[0].TextTok?)
    ensures CanonicalTokens(a + b)
  {
    hide CanonicalToken;
  }

  lemma {:induction false} TreesConcat(a: seq<Tree>, b: seq<Tree>)
    ensures TokensOf(a + b) == TokensOf(a) + TokensOf(b) && Doc(a + b) == Doc(a) + Doc(b)
    ensures AllShapely(a + b) == (AllShapely(a) && AllShapely(b))
    decreases |a|
  {
    hide Tokens, DocOf, Shapely;
    if a == [] {
      assert a + b == b;
    } else {
      assert (a + b)[1..] == a[1..] + b;
      TreesConcat(a[1..], b);
      Assoc(Tokens(a[0]), TokensOf(a[1..]), TokensOf(b));
      Assoc(DocOf(a[0]), Doc(a[1..]), Doc(b));
    }
  }

  lemma WrittenConcat(a: seq<Tree>, x: string, b: seq<Tree>, y: string)
    requires AllWritten(a, x) && AllWritten(b, y)
    ensures AllWritten(a + b, x + y) && Doc(a + b) == Doc(a) + Doc(b)
  {
    hide CanonicalTokens, PrintTokens, TokensOf, Doc, AllShapely;
    TreesConcat(a, b);
    PrintConcat(TokensOf(a), TokensOf(b));
    CanonicalConcat(TokensOf(a), TokensOf(b));
  }

  lemma OneWritten(t: Tree, text: string)
    requires Written(t, text)
    ensures AllWritten([t], text) && Doc([t]) == DocOf(t)
  {
    hide CanonicalTokens, PrintTokens;
    OneKid(t);
    assert Tokens(t) + [] == Tokens(t);
  }

  lemma {:induction false} MetasWritten(ms: seq<Meta>) returns (ts: seq<Tree>)
    ensures AllWritten(ts, MetaTags(ms)) && |Doc(ts)| == |ms|
    ensures forall k :: 0 <= k < |ms| ==> IsMeta(Doc(ts)[k], ms[k])
    decreases |ms|
  {
    hide AllWritten, IsMeta, MetaTag, Written, Doc, DocOf;
    if ms == [] {
      NothingWritten();
      ts := [];
    } else {
      var init, last := ms[..|ms| - 1], ms[|ms| - 1];
      var before := MetasWritten(init);
      MetaWritten(last);
      OneWritten(MetaTree(last), MetaTag(last));
      WrittenConcat(before, MetaTags(init), [MetaTree(last)], MetaTag(last));
      SnocAll(Doc(before), DocOf(MetaTree(last))[0], init, last, IsMeta);
      assert init + [last] == ms;
      assert Doc(before) + [DocOf(MetaTree(last))[0]] == Doc(before) + DocOf(MetaTree(last));
      ts := before + [MetaTree(last)];
    }
  }

  lemma SnocAll<T>(doc: seq<Node>, n: Node, xs: seq<T>, x: T, holds: (Node, T) -> bool)
    requires |doc| == |xs| && (forall k :: 0 <= k < |xs| ==> holds(doc[k], xs[k])) && holds(n, x)
    ensures forall k :: 0 <= k < |xs + [x]| ==> holds((doc + [n])[k], (xs + [x])[k])
  {
  }

  /** A tag for each path, all of one kind. */
  lemma {:induction false} EachWritten(xs: seq<string>, tree: string -> Tree, tag: string -> string,
                                       holds: (Node, string) -> bool) returns (ts: seq<Tree>)
    requires forall x :: Written(tree(x), tag(x)) && |DocOf(tree(x))| == 1 && holds(DocOf(tree(x))[0], x)
    ensures AllWritten(ts, Tags(xs, tag)) && |Doc(ts)| == |xs|
    ensures forall k :: 0 <= k < |xs| ==> holds(Doc(ts)[k], xs[k])
    decreases |xs|
  {
    hide AllWritten, Written, Doc, DocOf;
    if xs == [] {
      NothingWritten();
      ts := [];
    } else {
      var init, last := xs[..|xs| - 1], xs[|xs| - 1];
      var before := EachWritten(init, tree, tag, holds);
      OneWritten(tree(last), tag(last));
      WrittenConcat(before, Tags(init, tag), [tree(last)], tag(last));
      SnocAll(Doc(before), DocOf(tree(last))[0], init, last, holds);
      assert init + [last] == xs;
      assert Doc(before) + [DocOf(tree(last))[0]] == Doc(before) + DocOf(tree(last));
      ts := before + [tree(last)];
    }
  }

  lemma StylesWritten(xs: seq<string>) returns (ts: seq<Tree>)
    ensures AllWritten(ts, Tags(xs, CssTag)) && |Doc(ts)| == |xs|
    ensures forall k :: 0 <= k < |xs| ==> IsStyle(Doc(ts)[k], xs[k])
  {
    hide AllWritten, Written, Doc, DocOf, Tags, IsStyle;
    forall x
      ensures Written(StyleTree(x), CssTag(x)) && |DocOf(StyleTree(x))| == 1 && IsStyle(DocOf(StyleTree(x))[0], x)
    {
      StyleWritten(x);
    }
    ts := EachWritten(xs, StyleTree, CssTag, IsStyle);
  }

  lemma ScriptsWritten(xs: seq<string>) returns (ts: seq<Tree>)
    ensures AllWritten(ts, Tags(xs, JsTag)) && |Doc(ts)| == |xs|
    ensures forall k :: 0 <= k < |xs| ==> IsScript(Doc(ts)[k], xs[k])
  {
    hide AllWritten, Written, Doc, DocOf, Tags, IsScript;
    forall x
      ensures Written(ScriptTree(x), JsTag(x)) && |DocOf(ScriptTree(x))| == 1 && IsScript(DocOf(ScriptTree(x))[0], x)
    {
      ScriptWritten(x);
    }
    ts := EachWritten(xs, ScriptTree, JsTag, IsScript);
  }

  lemma TitlePart(title: string) returns (ts: seq<Tree>)
    ensures AllWritten(ts, TitleTag(title)) && |Doc(ts)| == if title == "" then 0 else 1
    ensures title != "" ==> IsTitle(Doc(ts)[0], title)
  {
    hide AllWritten, IsTitle, Written, Doc, DocOf, Escape;
    if title == "" {
      NothingWritten();
      ts := [];
    } else {
      TitleWritten(title);
      OneWritten(TitleTree(title), TitleTag(title));
      ts := [TitleTree(title)];
    }
  }

  /** What the head and asset components write parses: to a title unless it is empty, one
      `meta` for each entry, one style link for each stylesheet and one script for each
      script, in order; and their texts and values decode to what was given. */
  lemma HeadParses(title: string, ms: seq<Meta>, css: seq<string>, js: seq<string>) returns (doc: seq<Node>)
    ensures ParseFrom(TitleTag(title) + MetaTags(ms) + Tags(css, CssTag) + Tags(js, JsTag), 0, [0], Root())
            == Parsed(BuildAll(Root(), 0, doc))
    ensures var a := if title == "" then 0 else 1;
            var b := a + |ms|;
            var c := b + |css|;
            && |doc| == c + |js|
            && (title != "" ==> IsTitle(doc[0], title))
            && (forall k :: 0 <= k < |ms| ==> IsMeta(doc[a + k], ms[k]))
            && (forall k :: 0 <= k < |css| ==> IsStyle(doc[b + k], css[k]))
            && (forall k :: 0 <= k < |js| ==> IsScript(doc[c + k], js[k]))
  {
    hide AllWritten, IsTitle, IsMeta, IsStyle, IsScript, Doc, ParseFrom, BuildAll, TitleTag, MetaTags, Tags;
    var t := TitlePart(title);
    var m := MetasWritten(ms);
    var l := StylesWritten(css);
    var j := ScriptsWritten(js);
    WrittenConcat(t, TitleTag(title), m, MetaTags(ms));
    WrittenConcat(t + m, TitleTag(title) + MetaTags(ms), l, Tags(css, CssTag));
    WrittenConcat(t + m + l, TitleTag(title) + MetaTags(ms) + Tags(css, CssTag), j, Tags(js, JsTag));
    var all := t + m + l + j;
    WrittenParses(all, TitleTag(title) + MetaTags(ms) + Tags(css, CssTag) + Tags(js, JsTag));
    doc := Doc(t) + Doc(m) + Doc(l) + Doc(j);
  }

  lemma WrittenParses(ts: seq<Tree>, text: string)
    requires AllWritten(ts, text)
    ensures ParseFrom(text, 0, [0], Root()) == Parsed(BuildAll(Root(), 0, Doc(ts)))
  {
    hide Canonical, ParseFrom, BuildAll, Doc, PrintAll;
    ParsePrint(ts);
  }

  // ------------------------------------------------------------------------
  // An out-of-band chunk
  // ------------------------------------------------------------------------

  lemma DivText(x: string)
    ensures "<" + ("div" + ((" " + "id" + "=\"" + x + "\"") + (" " + "hx-swap-oob" + "=\"" + "true" + "\"")
                            + ("" + ">")))
         == "<div id=\"" + x + "\" hx-swap-oob=\"true\">"
  {
  }

  lemma DivClose()
    ensures PrintToken(CloseTok("div", [], "", false)) == "</div>" && CanonicalAttrs([])
  {
  }

  lemma SwapNames()
    ensures Only("id", IsAttrNameByte) && Only("hx-swap-oob", IsAttrNameByte) && '"' !in "true"
  {
  }

  /** The chunk around a canonical source parses to one `div` with that source's document,
      an id that decodes to the target's, and the mark of an out-of-band swap. */
  lemma ChunkParses(id: string, ts: seq<Tree>)
    requires Canonical(ts)
    ensures var attrs := [AttrKV("id", Escape(id)), AttrKV("hx-swap-oob", "true")];
            ParseFrom(OobChunk(id, PrintAll(ts)), 0, [0], Root())
            == Parsed(BuildAll(Root(), 0, [Element("div", attrs, false, Doc(ts))]))
    ensures Unescape(Escape(id)) == id
  {
    hide Escape, Unescape, ParseFrom, BuildAll, PrintTokens, CanonicalTokens, TokensOf, Doc, PrintAttr, CanonicalAttr,
         PrintAttrs, CanonicalAttrs, OobChunk, CanonicalTag;
    var x := Escape(id);
    var a, b := Quote("id", x), Quote("hx-swap-oob", "true");
    var div := Elem("div", [a, b], "", ts, "");
    var open, close := OpenTok("div", [a, b], "", false), CloseTok("div", [], "", false);
    TagNames();
    EscapedQuotes(id);
    SwapNames();
    QuoteCanonical("id", x);
    QuoteCanonical("hx-swap-oob", "true");
    QuotePrints("id", x);
    QuotePrints("hx-swap-oob", "true");
    TwoAttrs(a, b);
    TwoValues(a, b);
    OneToken(open);
    OneToken(close);
    PrintConcat([open] + TokensOf(ts), [close]);
    PrintConcat([open], TokensOf(ts));
    DivClose();
    CanonicalWrapped(open, TokensOf(ts), close);
    DivText(x);
    ChunkText(id, PrintAll(ts));
    OneKid(div);
    assert Tokens(div) + [] == Tokens(div);
    assert PrintToken(open) == "<" + ("div" + (PrintAttr(a) + PrintAttr(b) + ("" + ">")));
    ParsePrint([div]);
    UnescapeEscape(id);
  }

  lemma CanonicalWrapped(open: Token, toks: seq<Token>, close: Token)
    requires CanonicalTokens(toks) && CanonicalToken(open) && CanonicalToken(close) && !open.TextTok? && !close.TextTok?
    ensures CanonicalTokens([open] + toks + [close])
  {
    hide CanonicalToken;
  }
}
