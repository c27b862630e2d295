/** Markup as a list of tokens, and what the parser makes of every such list:
    comments, stray closing tags and unclosed elements included (parse_html.go). */
module Markup {
  import opened Sequences
  import opened NodeStreams
  import opened HtmlParser

  /** How an attribute's value is written. */
  datatype Form = Quoted(quote: char) | Bare | Missing

  /** `space` goes before the name, `blanks` between the `=` and the value. */
  datatype Attr = Attr(space: string, k: string, form: Form, blanks: string, v: string)

  datatype Token =
    | TextTok(text: string)
    | CommentTok(text: string)
    | OpenTok(tag: string, attrs: seq<Attr>, space: string, self: bool)
    | CloseTok(tag: string, attrs: seq<Attr>, space: string, self: bool)

  // ------------------------------------------------------------------------
  // Printing
  // ------------------------------------------------------------------------

  function PrintValue(a: Attr): string {
    match a.form
    case Quoted(quote) => "=" + (a.blanks + ([quote] + (a.v + [quote])))
    case Bare => "=" + (a.blanks + a.v)
    case Missing => ""
  }

  function PrintAttr(a: Attr): string {
    a.space + (a.k + PrintValue(a))
  }

  function PrintAttrs(attrs: seq<Attr>): string {
    if attrs == [] then "" else PrintAttr(attrs[0]) + PrintAttrs(attrs[1..])
  }

  function TagEnd(space: string, self: bool): string {
    space + if self then "/>" else ">"
  }

  function PrintToken(tok: Token): string {
    match tok
    case TextTok(text) => text
    case CommentTok(text) => "<!--" + (text + "-->")
    case OpenTok(tag, attrs, space, self) => "<" + (tag + (PrintAttrs(attrs) + TagEnd(space, self)))
    case CloseTok(tag, attrs, space, self) => "</" + (tag + (PrintAttrs(attrs) + TagEnd(space, self)))
  }

  function PrintTokens(toks: seq<Token>): string {
    if toks == [] then "" else PrintToken(toks[0]) + PrintTokens(toks[1..])
  }

  // ------------------------------------------------------------------------
  // Which tokens are meant
  // ------------------------------------------------------------------------

  ghost predicate Only(s: string, p: char -> bool) {
    forall k :: 0 <= k < |s| ==> p(s[k])
  }

  ghost predicate CanonicalTag(tag: string) {
    tag != "" && Only(tag, IsTagNameByte)
  }

  ghost predicate CanonicalAttr(a: Attr) {
    && Only(a.space, IsWhitespace) && Only(a.k, IsAttrNameByte) && Only(a.blanks, IsBlank)
    && match a.form
       case Quoted(quote) => (quote == '"' || quote == '\'') && quote !in a.v
       case Bare => a.v != "" && Only(a.v, IsUnquotedByte) && a.v[0] != '"' && a.v[0] != '\''
       case Missing => a.k != "" && a.v == ""
  }

  /** Only behind a closing quote may the space be missing. */
  ghost predicate CanonicalBehind(attrs: seq<Attr>, quoted: bool) {
    attrs == [] ||
    (CanonicalAttr(attrs[0]) && (attrs[0].space != "" || quoted)
     && CanonicalBehind(attrs[1..], attrs[0].form.Quoted?))
  }

  ghost predicate CanonicalAttrs(attrs: seq<Attr>) {
    CanonicalBehind(attrs, false)
  }

  predicate EndAt(s: string, k: nat) {
    k + 2 < |s| && s[k] == '-' && s[k + 1] == '-' && s[k + 2] == '>'
  }

  /** The end of a comment is not in it. */
  ghost predicate NoCommentEnd(text: string) {
    forall k: nat :: !EndAt(text, k)
  }

  ghost predicate CanonicalToken(tok: Token) {
    match tok
    case TextTok(text) => text != "" && '<' !in text
    case CommentTok(text) => NoCommentEnd(text)
    case OpenTok(tag, attrs, space, _) => CanonicalTag(tag) && CanonicalAttrs(attrs) && Only(space, IsWhitespace)
    case CloseTok(tag, attrs, space, _) => CanonicalTag(tag) && CanonicalAttrs(attrs) && Only(space, IsWhitespace)
  }

  /** Two texts in a row would be one. */
  ghost predicate CanonicalTokens(toks: seq<Token>) {
    && (forall k :: 0 <= k < |toks| ==> CanonicalToken(toks[k]))
    && (forall k :: 0 < k < |toks| ==> !(toks[k - 1].TextTok? && toks[k].TextTok?))
  }

  // ------------------------------------------------------------------------
  // What a parser is to make of them
  // ------------------------------------------------------------------------

  function Values(attrs: seq<Attr>): (r: seq<AttrKV>)
    ensures |r| == |attrs|
  {
    seq(|attrs|, i requires 0 <= i < |attrs| => AttrKV(attrs[i].k, attrs[i].v))
  }

  /** The open elements, innermost last, and the nodes so far. */
  datatype Frame = Frame(stack: seq<nat>, stream: NodeStream) {
    ghost predicate Valid() {
      stack != [] && stream.TablesInBounds()
    }
  }

  /** A text or an element goes below the innermost open element; a comment goes
      nowhere; any closing tag closes the innermost element, whatever its name,
      attributes and slash. */
  ghost function Feed(f: Frame, tok: Token): (r: Frame)
    requires f.Valid()
    ensures r.Valid()
  {
    var parent := f.stack[|f.stack| - 1];
    match tok
    case TextTok(text) => Frame(f.stack, WithTextNode(f.stream, parent, text))
    case CommentTok(_) => f
    case OpenTok(tag, attrs, _, self) =>
      Frame(if self || IsVoidTag(tag) then f.stack else f.stack + [f.stream.Count()],
            WithElement(f.stream, parent, tag, Values(attrs), self))
    case CloseTok(_, _, _, _) => Frame(if |f.stack| > 1 then f.stack[..|f.stack| - 1] else f.stack, f.stream)
  }

  ghost function FeedAll(f: Frame, toks: seq<Token>): (r: Frame)
    requires f.Valid()
    ensures r.Valid()
    decreases |toks|
  {
    if toks == [] then f else FeedAll(Feed(f, toks[0]), toks[1..])
  }

  ghost function Start(): (f: Frame)
    ensures f.Valid()
  {
    Frame([0], Root())
  }

  lemma {:induction false} FeedConcat(f: Frame, a: seq<Token>, b: seq<Token>)
    requires f.Valid()
    ensures FeedAll(f, a + b) == FeedAll(FeedAll(f, a), b)
    decreases |a|
  {
    hide Feed;
    if a == [] {
      assert a + b == b;
    } else {
      assert (a + b)[1..] == a[1..] + b;
      FeedConcat(Feed(f, a[0]), a[1..], b);
    }
  }

  lemma {:induction false} PrintConcat(a: seq<Token>, b: seq<Token>)
    ensures PrintTokens(a + b) == PrintTokens(a) + PrintTokens(b)
    decreases |a|
  {
    hide PrintToken;
    if a == [] {
      assert a + b == b;
    } else {
      assert (a + b)[1..] == a[1..] + b;
      PrintConcat(a[1..], b);
      Assoc(PrintToken(a[0]), PrintTokens(a[1..]), PrintTokens(b));
    }
  }

  // ------------------------------------------------------------------------
  // Reading at a position
  // ------------------------------------------------------------------------

  /** `src` reads `text` at `i`. */
  ghost predicate At(src: string, i: nat, text: string) {
    i + |text| <= |src| && forall k :: 0 <= k < |text| ==> src[i + k] == text[k]
  }

  lemma AtSplit(src: string, i: nat, a: string, b: string)
    requires At(src, i, a + b)
    ensures At(src, i, a) && At(src, i + |a|, b)
  {
    forall k | 0 <= k < |a|
      ensures src[i + k] == a[k]
    {
      assert (a + b)[k] == a[k];
    }
    forall k | 0 <= k < |b|
      ensures src[i + |a| + k] == b[k]
    {
      assert (a + b)[|a| + k] == b[k];
    }
  }

  lemma AtSlice(src: string, i: nat, text: string)
    requires At(src, i, text)
    ensures src[i..i + |text|] == text
  {
  }

  /** A run of bytes of one kind is skipped up to the byte that ends it. */
  lemma OnlyReads(src: string, i: nat, text: string, p: char -> bool)
    requires At(src, i, text) && Only(text, p)
    requires i + |text| < |src| ==> !p(src[i + |text|])
    ensures SkipWhile(src, i, p) == i + |text|
  {
    hide SkipWhile;
    forall k | i <= k < i + |text|
      ensures p(src[k])
    {
      assert src[i + (k - i)] == text[k - i];
    }
    SkipWhileIs(src, i, i + |text|, p);
  }

  lemma UntilReads(src: string, i: nat, text: string, c: char)
    requires At(src, i, text) && c !in text
    requires i + |text| < |src| ==> src[i + |text|] == c
    ensures FindByte(src, i, c) == i + |text|
  {
    hide FindByte;
    forall k | i <= k < i + |text|
      ensures src[k] != c
    {
      assert src[i + (k - i)] == text[k - i];
    }
    FindByteIs(src, i, i + |text|, c);
  }

  // ------------------------------------------------------------------------
  // Attributes
  // ------------------------------------------------------------------------

  /** What comes after an attribute: more space, or the end of the tag. */
  predicate Ends(c: char) {
    IsWhitespace(c) || c == '>' || c == '/'
  }

  lemma QuotedAt(src: string, e: nat, blanks: string, quote: char, v: string)
    requires At(src, e, "=" + (blanks + ([quote] + (v + [quote]))))
    ensures var open := e + 1 + |blanks|;
            var close := open + 1 + |v|;
            && close < |src| && src[e] == '=' && At(src, e + 1, blanks)
            && src[open] == quote && At(src, open + 1, v) && src[close] == quote
  {
    AtSplit(src, e, "=", blanks + ([quote] + (v + [quote])));
    assert src[e] == "="[0];
    AtSplit(src, e + 1, blanks, [quote] + (v + [quote]));
    AtSplit(src, e + 1 + |blanks|, [quote], v + [quote]);
    AtSplit(src, e + 2 + |blanks|, v, [quote]);
    assert src[e + 1 + |blanks|] == [quote][0];
    assert src[e + 2 + |blanks| + |v|] == [quote][0];
  }

  lemma QuotedReads(src: string, e: nat, blanks: string, quote: char, v: string)
    requires At(src, e, "=" + (blanks + ([quote] + (v + [quote])))) && Only(blanks, IsBlank)
    requires (quote == '"' || quote == '\'') && quote !in v
    ensures ScanValue(src, e) == Value(v, e + 3 + |blanks| + |v|)
  {
    hide SkipWhile, FindByte, At, Only;
    var open := e + 1 + |blanks|;
    QuotedAt(src, e, blanks, quote, v);
    OnlyReads(src, e + 1, blanks, IsBlank);
    UntilReads(src, open + 1, v, quote);
    AtSlice(src, open + 1, v);
  }

  lemma BareReads(src: string, e: nat, blanks: string, v: string)
    requires At(src, e, "=" + (blanks + v)) && Only(blanks, IsBlank)
    requires v != "" && Only(v, IsUnquotedByte) && v[0] != '"' && v[0] != '\''
    requires var next := e + 1 + |blanks| + |v|; next < |src| && Ends(src[next])
    ensures ScanValue(src, e) == Value(v, e + 1 + |blanks| + |v|)
  {
    hide SkipWhile, FindByte;
    var start := e + 1 + |blanks|;
    AtSplit(src, e, "=", blanks + v);
    AtSplit(src, e + 1, blanks, v);
    assert src[e] == "="[0] && src[start] == v[0];
    OnlyReads(src, e + 1, blanks, IsBlank);
    OnlyReads(src, start, v, IsUnquotedByte);
    AtSlice(src, start, v);
  }

  /** What may come after an attribute. */
  ghost predicate Follows(src: string, next: nat, a: Attr) {
    a.form.Quoted? || (next < |src| && Ends(src[next]))
  }

  lemma ValueReads(src: string, e: nat, a: Attr)
    requires CanonicalAttr(a) && At(src, e, PrintValue(a)) && Follows(src, e + |PrintValue(a)|, a)
    ensures ScanValue(src, e) == Value(a.v, e + |PrintValue(a)|)
  {
    hide SkipWhile, FindByte, Only, At;
    match a.form
    case Quoted(quote) => QuotedReads(src, e, a.blanks, quote, a.v);
    case Bare => BareReads(src, e, a.blanks, a.v);
    case Missing =>
  }

  lemma ValueStart(src: string, e: nat, a: Attr)
    requires At(src, e, PrintValue(a)) && Follows(src, e + |PrintValue(a)|, a)
    ensures e < |src| && !IsAttrNameByte(src[e]) && (!a.form.Missing? ==> src[e] == '=')
  {
    if !a.form.Missing? {
      assert src[e + 0] == PrintValue(a)[0] == '=';
    }
  }

  /** The form the renderer writes. */
  lemma QuotedPrints(k: string, v: string)
    ensures PrintAttr(Attr(" ", k, Quoted('"'), "", v)) == " " + k + "=\"" + v + "\""
  {
    assert PrintAttr(Attr(" ", k, Quoted('"'), "", v)) == " " + (k + ("=" + ("" + (['"'] + (v + ['"'])))));
  }

  /** One attribute is read, up to the byte after it. */
  lemma AttrReads(src: string, i: nat, a: Attr, acc: seq<AttrKV>)
    requires CanonicalAttr(a) && At(src, i, PrintAttr(a)) && Follows(src, i + |PrintAttr(a)|, a)
    ensures ScanAttrs(src, i, acc) == ScanAttrs(src, i + |PrintAttr(a)|, acc + [AttrKV(a.k, a.v)])
  {
    hide SkipWhile, ScanValue, ScanAttrs, PrintValue;
    var start := i + |a.space|;
    var e := start + |a.k|;
    AtSplit(src, i, a.space, a.k + PrintValue(a));
    AtSplit(src, start, a.k, PrintValue(a));
    ValueStart(src, e, a);
    assert a.space != "" ==> src[i + 0] == a.space[0];
    assert a.k != "" ==> src[start + 0] == a.k[0];
    OnlyReads(src, i, a.space, IsWhitespace);
    OnlyReads(src, start, a.k, IsAttrNameByte);
    AtSlice(src, start, a.k);
    ValueReads(src, e, a);
    ScanStep(src, i, start, e, a.v, e + |PrintValue(a)|, acc);
  }

  /** One step of the attribute scan. */
  lemma ScanStep(src: string, i: nat, start: nat, e: nat, v: string, next: nat, acc: seq<AttrKV>)
    requires i <= start <= e < |src| && src[i] != '>' && SkipWhile(src, i, IsWhitespace) == start
    requires SkipWhile(src, start, IsAttrNameByte) == e
    requires if start == e then src[start] == '=' else IsAttrNameByte(src[start])
    requires ScanValue(src, e) == Value(v, next)
    ensures next <= |src| && ScanAttrs(src, i, acc) == ScanAttrs(src, next, acc + [AttrKV(src[start..e], v)])
  {
    hide SkipWhile, ScanValue;
  }

  lemma AttrStarts(attrs: seq<Attr>)
    requires attrs != [] && CanonicalAttr(attrs[0]) && attrs[0].space != ""
    ensures PrintAttrs(attrs) != "" && IsWhitespace(PrintAttrs(attrs)[0])
  {
  }

  /** All attributes are read, up to the end of the tag. */
  lemma {:induction false} AttrsRead(src: string, i: nat, attrs: seq<Attr>, quoted: bool, acc: seq<AttrKV>)
    requires CanonicalBehind(attrs, quoted) && At(src, i, PrintAttrs(attrs))
    requires var next := i + |PrintAttrs(attrs)|; next < |src| && Ends(src[next])
    ensures ScanAttrs(src, i, acc) == ScanAttrs(src, i + |PrintAttrs(attrs)|, acc + Values(attrs))
    decreases |attrs|
  {
    hide ScanAttrs, PrintAttr, CanonicalAttr, Ends;
    if attrs == [] {
      assert acc + Values(attrs) == acc;
    } else {
      var a, rest := attrs[0], attrs[1..];
      var mid := i + |PrintAttr(a)|;
      AtSplit(src, i, PrintAttr(a), PrintAttrs(rest));
      if rest != [] && rest[0].space != "" {
        AttrStarts(rest);
        assert src[mid + 0] == PrintAttrs(rest)[0];
        SpaceEnds(src[mid]);
      }
      AttrReads(src, i, a, acc);
      AttrsRead(src, mid, rest, a.form.Quoted?, acc + [AttrKV(a.k, a.v)]);
      Assoc(acc, [AttrKV(a.k, a.v)], Values(rest));
      assert [AttrKV(a.k, a.v)] + Values(rest) == Values(attrs);
    }
  }

  lemma SpaceEnds(c: char)
    requires IsWhitespace(c)
    ensures Ends(c)
  {
  }

  // ------------------------------------------------------------------------
  // Tags
  // ------------------------------------------------------------------------

  lemma TagEndAt(src: string, i: nat, space: string, self: bool)
    requires At(src, i, TagEnd(space, self)) && Only(space, IsWhitespace)
    ensures var e := i + |space|;
            && At(src, i, space) && i + |TagEnd(space, self)| <= |src|
            && (if self then e + 1 < |src| && src[e] == '/' && src[e + 1] == '>' else e < |src| && src[e] == '>')
    ensures i < |src| && Ends(src[i]) && !IsTagNameByte(src[i]) && SkipWhile(src, i, IsWhitespace) == i + |space|
  {
    hide SkipWhile;
    var mark := if self then "/>" else ">";
    AtSplit(src, i, space, mark);
    assert src[i + |space| + 0] == mark[0];
    assert self ==> src[i + |space| + 1] == mark[1];
    assert space != "" ==> src[i + 0] == space[0];
    OnlyReads(src, i, space, IsWhitespace);
  }

  lemma TagEndScans(src: string, i: nat, space: string, self: bool, acc: seq<AttrKV>)
    requires At(src, i, TagEnd(space, self)) && Only(space, IsWhitespace)
    ensures ScanAttrs(src, i, acc) == Attrs(acc, self, i + |space| + if self then 1 else 0)
    ensures PastTag(src, i + |space| + if self then 1 else 0) == i + |TagEnd(space, self)|
  {
    hide SkipWhile, ScanValue;
    TagEndAt(src, i, space, self);
  }

  /** All of a tag behind its name. */
  lemma TagScans(src: string, e: nat, attrs: seq<Attr>, space: string, self: bool)
    requires CanonicalAttrs(attrs) && Only(space, IsWhitespace)
    requires At(src, e, PrintAttrs(attrs) + TagEnd(space, self))
    ensures e < |src| && !IsTagNameByte(src[e])
    ensures var close := e + |PrintAttrs(attrs)| + |space| + if self then 1 else 0;
            && ScanAttrs(src, e, []) == Attrs(Values(attrs), self, close)
            && PastTag(src, close) == e + |PrintAttrs(attrs) + TagEnd(space, self)| <= |src|
  {
    hide ScanAttrs, PrintAttrs, TagEnd, CanonicalAttr, Only;
    var mid := e + |PrintAttrs(attrs)|;
    AtSplit(src, e, PrintAttrs(attrs), TagEnd(space, self));
    TagEndAt(src, mid, space, self);
    TagEndScans(src, mid, space, self, [] + Values(attrs));
    AttrsRead(src, e, attrs, false, []);
    assert [] + Values(attrs) == Values(attrs);
    if attrs == [] {
      NoAttrs();
    } else {
      AttrStarts(attrs);
      assert src[e + 0] == PrintAttrs(attrs)[0];
      SpaceIsNoName(src[e]);
    }
  }

  lemma NoAttrs()
    ensures PrintAttrs([]) == ""
  {
  }

  lemma SpaceIsNoName(c: char)
    requires IsWhitespace(c)
    ensures !IsTagNameByte(c)
  {
  }

  lemma NameReads(src: string, i: nat, tag: string)
    requires CanonicalTag(tag) && At(src, i, tag) && i + |tag| < |src| && !IsTagNameByte(src[i + |tag|])
    ensures SkipWhile(src, i, IsTagNameByte) == i + |tag| && src[i..i + |tag|] == tag
    ensures src[i] == tag[0] && IsTagNameByte(tag[0])
  {
    hide SkipWhile;
    OnlyReads(src, i, tag, IsTagNameByte);
    AtSlice(src, i, tag);
    assert src[i + 0] == tag[0];
  }

  lemma OpenTagStep(src: string, i: nat, e: nat, scan: AttrScan, f: Frame)
    requires i + 1 < e <= |src| && src[i] == '<' && IsTagNameByte(src[i + 1]) && f.Valid()
    requires SkipWhile(src, i + 1, IsTagNameByte) == e
    requires scan.Attrs? && scan == ScanAttrs(src, e, [])
    ensures var tag := src[i + 1..e];
            ParseFrom(src, i, f.stack, f.stream) == ParseFrom(src, PastTag(src, scan.end),
              if scan.self || IsVoidTag(tag) then f.stack else f.stack + [f.stream.Count()],
              WithElement(f.stream, f.stack[|f.stack| - 1], tag, scan.attrs, scan.self))
  {
    hide SkipWhile, WithElement, ScanAttrs, CommentEnd, FindByte, WithTextNode, IsVoidTag;
  }

  lemma CloseTagStep(src: string, i: nat, e: nat, scan: AttrScan, f: Frame)
    requires i + 2 < e <= |src| && src[i] == '<' && src[i + 1] == '/' && f.Valid()
    requires SkipWhile(src, i + 2, IsTagNameByte) == e
    requires scan.Attrs? && scan == ScanAttrs(src, e, [])
    ensures ParseFrom(src, i, f.stack, f.stream) == ParseFrom(src, PastTag(src, scan.end), Pop(f.stack), f.stream)
  {
    hide SkipWhile, WithElement, ScanAttrs, CommentEnd, FindByte, WithTextNode, IsVoidTag, Pop;
  }

  /** What parsing `tok` at `i` does. */
  ghost predicate Reads(src: string, i: nat, tok: Token, f: Frame)
    requires f.Valid()
  {
    var r, next := Feed(f, tok), i + |PrintToken(tok)|;
    next <= |src| && ParseFrom(src, i, f.stack, f.stream) == ParseFrom(src, next, r.stack, r.stream)
  }

  lemma OpenAt(src: string, i: nat, tag: string, rest: string)
    requires At(src, i, "<" + (tag + rest))
    ensures i < |src| && src[i] == '<' && At(src, i + 1, tag) && At(src, i + 1 + |tag|, rest)
  {
    AtSplit(src, i, "<", tag + rest);
    AtSplit(src, i + 1, tag, rest);
    assert src[i + 0] == "<"[0];
  }

  lemma CloseAt(src: string, i: nat, tag: string, rest: string)
    requires At(src, i, "</" + (tag + rest))
    ensures i + 1 < |src| && src[i] == '<' && src[i + 1] == '/'
    ensures At(src, i + 2, tag) && At(src, i + 2 + |tag|, rest)
  {
    AtSplit(src, i, "</", tag + rest);
    AtSplit(src, i + 2, tag, rest);
    assert src[i + 0] == "</"[0] && src[i + 1] == "</"[1];
  }

  lemma OpenFacts(tok: Token, f: Frame)
    requires tok.OpenTok? && f.Valid()
    ensures PrintToken(tok) == "<" + (tok.tag + (PrintAttrs(tok.attrs) + TagEnd(tok.space, tok.self)))
    ensures |PrintToken(tok)| == 1 + |tok.tag| + |PrintAttrs(tok.attrs) + TagEnd(tok.space, tok.self)|
    ensures CanonicalToken(tok) ==>
              CanonicalTag(tok.tag) && CanonicalAttrs(tok.attrs) && Only(tok.space, IsWhitespace)
    ensures Feed(f, tok) ==
            Frame(if tok.self || IsVoidTag(tok.tag) then f.stack else f.stack + [f.stream.Count()],
                  WithElement(f.stream, f.stack[|f.stack| - 1], tok.tag, Values(tok.attrs), tok.self))
  {
    hide WithElement, PrintAttrs, TagEnd, CanonicalAttrs, Only, CanonicalTag;
  }

  lemma CloseFacts(tok: Token, f: Frame)
    requires tok.CloseTok? && f.Valid()
    ensures PrintToken(tok) == "</" + (tok.tag + (PrintAttrs(tok.attrs) + TagEnd(tok.space, tok.self)))
    ensures |PrintToken(tok)| == 2 + |tok.tag| + |PrintAttrs(tok.attrs) + TagEnd(tok.space, tok.self)|
    ensures CanonicalToken(tok) ==>
              CanonicalTag(tok.tag) && CanonicalAttrs(tok.attrs) && Only(tok.space, IsWhitespace)
    ensures Feed(f, tok) == Frame(Pop(f.stack), f.stream)
  {
    hide WithElement, PrintAttrs, TagEnd, CanonicalAttrs, Only, CanonicalTag;
  }

  lemma TagNotEmpty(tag: string)
    requires CanonicalTag(tag)
    ensures tag != ""
  {
  }

  lemma OpenTagReads(src: string, i: nat, tok: Token, f: Frame)
    requires tok.OpenTok? && CanonicalToken(tok) && At(src, i, PrintToken(tok)) && f.Valid()
    ensures Reads(src, i, tok, f)
  {
    hide ParseFrom, Feed, PrintToken, CanonicalToken, WithElement, ScanAttrs, SkipWhile, PrintAttrs, TagEnd, PastTag,
         CanonicalAttrs, At, Only, CanonicalTag, IsTagNameByte;
    OpenFacts(tok, f);
    var tag, rest := tok.tag, PrintAttrs(tok.attrs) + TagEnd(tok.space, tok.self);
    var e := i + 1 + |tag|;
    OpenAt(src, i, tag, rest);
    TagScans(src, e, tok.attrs, tok.space, tok.self);
    NameReads(src, i + 1, tag);
    TagNotEmpty(tag);
    OpenTagStep(src, i, e, ScanAttrs(src, e, []), f);
  }

  lemma CloseTagReads(src: string, i: nat, tok: Token, f: Frame)
    requires tok.CloseTok? && CanonicalToken(tok) && At(src, i, PrintToken(tok)) && f.Valid()
    ensures Reads(src, i, tok, f)
  {
    hide ParseFrom, Feed, PrintToken, CanonicalToken, WithElement, ScanAttrs, SkipWhile, PrintAttrs, TagEnd, PastTag,
         CanonicalAttrs, At, Only, CanonicalTag, IsTagNameByte;
    CloseFacts(tok, f);
    var tag, rest := tok.tag, PrintAttrs(tok.attrs) + TagEnd(tok.space, tok.self);
    var e := i + 2 + |tag|;
    CloseAt(src, i, tag, rest);
    TagScans(src, e, tok.attrs, tok.space, tok.self);
    NameReads(src, i + 2, tag);
    TagNotEmpty(tag);
    CloseTagStep(src, i, e, ScanAttrs(src, e, []), f);
  }

  // ------------------------------------------------------------------------
  // Comments and texts
  // ------------------------------------------------------------------------

  lemma CommentEndStep(src: string, i: nat)
    requires i <= |src|
    ensures CommentEnd(src, i)
            == if i + 3 > |src| then |src| else if EndAt(src, i) then i + 3 else CommentEnd(src, i + 1)
  {
    if i + 3 <= |src| {
      assert src[i..i + 3] == [src[i], src[i + 1], src[i + 2]];
    }
  }

  /** The scan for the end of a comment stops behind the first "-->". */
  lemma {:induction false} CommentReads(src: string, i: nat, j: nat)
    requires i <= j && EndAt(src, j) && forall k: nat :: i <= k < j ==> !EndAt(src, k)
    ensures CommentEnd(src, i) == j + 3
    decreases j - i
  {
    hide CommentEnd;
    CommentEndStep(src, i);
    if i < j {
      CommentReads(src, i + 1, j);
    }
  }

  lemma CommentAt(src: string, i: nat, text: string)
    requires At(src, i, text + "-->") && NoCommentEnd(text)
    ensures EndAt(src, i + |text|) && forall k: nat :: i <= k < i + |text| ==> !EndAt(src, k)
  {
    var j := i + |text|;
    AtSplit(src, i, text, "-->");
    assert src[j + 0] == "-->"[0] && src[j + 1] == "-->"[1] && src[j + 2] == "-->"[2];
    forall k: nat | i <= k < j
      ensures !EndAt(src, k)
    {
      assert !EndAt(text, k - i);
      assert src[i + (k - i)] == text[k - i];
      assert k + 1 < j ==> src[i + (k + 1 - i)] == text[k + 1 - i];
      assert k + 2 < j ==> src[i + (k + 2 - i)] == text[k + 2 - i];
    }
  }

  lemma CommentStep(src: string, i: nat, f: Frame)
    requires i <= |src| && IsCommentStart(src, i) && f.Valid()
    ensures ParseFrom(src, i, f.stack, f.stream) == ParseFrom(src, CommentEnd(src, i + 4), f.stack, f.stream)
  {
    hide CommentEnd, SkipWhile, ScanAttrs, WithElement, WithTextNode, FindByte;
  }

  lemma CommentOpens(src: string, i: nat, rest: string)
    requires At(src, i, "<!--" + rest)
    ensures IsCommentStart(src, i) && At(src, i + 4, rest)
  {
    AtSplit(src, i, "<!--", rest);
    assert src[i + 0] == "<!--"[0] && src[i + 1] == "<!--"[1] && src[i + 2] == "<!--"[2] && src[i + 3] == "<!--"[3];
  }

  lemma CommentFacts(tok: Token, f: Frame)
    requires tok.CommentTok? && f.Valid()
    ensures Feed(f, tok) == f && PrintToken(tok) == "<!--" + (tok.text + "-->") && |PrintToken(tok)| == |tok.text| + 7
    ensures CanonicalToken(tok) == NoCommentEnd(tok.text)
  {
    hide NoCommentEnd;
  }

  lemma CommentTokReads(src: string, i: nat, tok: Token, f: Frame)
    requires tok.CommentTok? && CanonicalToken(tok) && At(src, i, PrintToken(tok)) && f.Valid()
    ensures Reads(src, i, tok, f)
  {
    hide ParseFrom, CommentEnd, NoCommentEnd, EndAt, At, Feed, PrintToken, IsCommentStart;
    CommentFacts(tok, f);
    CommentOpens(src, i, tok.text + "-->");
    CommentAt(src, i + 4, tok.text);
    CommentReads(src, i + 4, i + 4 + |tok.text|);
    CommentStep(src, i, f);
  }

  lemma TextReads(src: string, i: nat, tok: Token, f: Frame)
    requires tok.TextTok? && CanonicalToken(tok) && At(src, i, PrintToken(tok)) && f.Valid()
    requires i + |tok.text| < |src| ==> src[i + |tok.text|] == '<'
    ensures Reads(src, i, tok, f)
  {
    hide CommentEnd, SkipWhile, ScanAttrs, WithElement, WithTextNode, FindByte;
    UntilReads(src, i, tok.text, '<');
    AtSlice(src, i, tok.text);
    assert src[i + 0] == tok.text[0];
  }

  lemma TokenReads(src: string, i: nat, tok: Token, f: Frame)
    requires CanonicalToken(tok) && At(src, i, PrintToken(tok)) && f.Valid()
    requires tok.TextTok? && i + |tok.text| < |src| ==> src[i + |tok.text|] == '<'
    ensures Reads(src, i, tok, f)
  {
    hide Reads, PrintToken, At, CanonicalToken;
    match tok
    case TextTok(_) =>
      TextIsPrinted(tok);
      TextReads(src, i, tok, f);
    case CommentTok(_) => CommentTokReads(src, i, tok, f);
    case OpenTok(_, _, _, _) => OpenTagReads(src, i, tok, f);
    case CloseTok(_, _, _, _) => CloseTagReads(src, i, tok, f);
  }

  lemma TextIsPrinted(tok: Token)
    requires tok.TextTok?
    ensures PrintToken(tok) == tok.text
  {
  }

  // ------------------------------------------------------------------------
  // Token lists
  // ------------------------------------------------------------------------

  lemma TokenStarts(tok: Token)
    ensures !tok.TextTok? ==> PrintToken(tok) != "" && PrintToken(tok)[0] == '<'
  {
  }

  /** What follows a token list: after a text, only the end or a tag. */
  ghost predicate MayFollow(src: string, i: nat, toks: seq<Token>) {
    toks != [] && toks[|toks| - 1].TextTok? && i < |src| ==> src[i] == '<'
  }

  lemma {:induction false} TokensRead(src: string, i: nat, toks: seq<Token>, f: Frame)
    requires CanonicalTokens(toks) && At(src, i, PrintTokens(toks)) && f.Valid()
    requires MayFollow(src, i + |PrintTokens(toks)|, toks)
    ensures var r := FeedAll(f, toks);
            ParseFrom(src, i, f.stack, f.stream) == ParseFrom(src, i + |PrintTokens(toks)|, r.stack, r.stream)
    decreases |toks|
  {
    hide ParseFrom, Feed, PrintToken, CanonicalToken;
    if toks != [] {
      var tok, rest := toks[0], toks[1..];
      var mid := i + |PrintToken(tok)|;
      AtSplit(src, i, PrintToken(tok), PrintTokens(rest));
      if rest != [] {
        TokenStarts(rest[0]);
        if !rest[0].TextTok? {
          assert PrintTokens(rest)[0] == PrintToken(rest[0])[0];
          assert src[mid + 0] == PrintTokens(rest)[0];
        }
      }
      if tok.TextTok? {
        TextIsPrinted(tok);
      }
      TokenReads(src, i, tok, f);
      TokensRead(src, mid, rest, Feed(f, tok));
    }
  }

  /** Every canonical token list parses, to the nodes it stands for. */
  lemma ParseTokens(toks: seq<Token>)
    requires CanonicalTokens(toks)
    ensures ParseFrom(PrintTokens(toks), 0, [0], Root()) == Parsed(FeedAll(Start(), toks).stream)
  {
    hide CanonicalTokens, PrintTokens, FeedAll, ParseFrom;
    TokensRead(PrintTokens(toks), 0, toks, Start());
    NothingLeft(PrintTokens(toks), FeedAll(Start(), toks));
  }

  /** What follows a canonical token list is parsed from where the list has led. */
  lemma AfterTokens(toks: seq<Token>, rest: string)
    requires CanonicalTokens(toks) && (rest != "" ==> rest[0] == '<')
    ensures var r := FeedAll(Start(), toks);
            ParseFrom(PrintTokens(toks) + rest, 0, [0], Root())
            == ParseFrom(PrintTokens(toks) + rest, |PrintTokens(toks)|, r.stack, r.stream)
  {
    hide CanonicalTokens, PrintTokens, FeedAll, ParseFrom, At;
    AppendedAt(PrintTokens(toks), rest);
    TokensRead(PrintTokens(toks) + rest, 0, toks, Start());
  }

  /** After a canonical token list, a `<` with nothing or no name behind it fails at
      its own offset. */
  lemma BadTagFails(toks: seq<Token>, rest: string)
    requires CanonicalTokens(toks) && rest != "" && rest[0] == '<' && !IsCommentStart(rest, 0)
    requires |rest| > 1 ==> SkipWhile(rest, TagStart(rest, 0), IsTagNameByte) == TagStart(rest, 0)
    ensures ParseFrom(PrintTokens(toks) + rest, 0, [0], Root())
            == Failed(|PrintTokens(toks)|, if |rest| == 1 then "unterminated tag" else "expected tag name")
  {
    hide CanonicalTokens, PrintTokens, FeedAll, SkipWhile, ParseFrom, IsCommentStart, TagStart, Root, Start;
    var src, n, r := PrintTokens(toks) + rest, |PrintTokens(toks)|, FeedAll(Start(), toks);
    ShiftedTag(PrintTokens(toks), rest);
    AfterTokens(toks, rest);
    if |rest| > 1 {
      SkipShifted(PrintTokens(toks), rest, TagStart(rest, 0), IsTagNameByte);
    }
    FailStep(src, n, r);
  }

  lemma ShiftedTag(before: string, rest: string)
    ensures var src, n := before + rest, |before|;
            && IsCommentStart(src, n) == IsCommentStart(rest, 0)
            && (|rest| > 1 ==> TagStart(src, n) == n + TagStart(rest, 0) && TagStart(rest, 0) <= |rest|)
  {
  }

  lemma FailStep(src: string, i: nat, f: Frame)
    requires i < |src| && src[i] == '<' && !IsCommentStart(src, i) && f.Valid()
    requires i + 1 < |src| ==> SkipWhile(src, TagStart(src, i), IsTagNameByte) == TagStart(src, i)
    ensures ParseFrom(src, i, f.stack, f.stream)
            == Failed(i, if i + 1 == |src| then "unterminated tag" else "expected tag name")
  {
    hide SkipWhile, ScanAttrs, CommentEnd, FindByte, WithElement, WithTextNode;
  }

  lemma SkipShifted(before: string, rest: string, i: nat, p: char -> bool)
    requires i <= |rest| && SkipWhile(rest, i, p) == i
    ensures SkipWhile(before + rest, |before| + i, p) == |before| + i
  {
  }

  /** A comment that does not end swallows the rest of the source. */
  lemma OpenCommentSwallows(toks: seq<Token>, text: string)
    requires CanonicalTokens(toks) && NoCommentEnd(text)
    ensures ParseFrom(PrintTokens(toks) + ("<!--" + text), 0, [0], Root()) == Parsed(FeedAll(Start(), toks).stream)
  {
    hide CanonicalTokens, PrintTokens, FeedAll, ParseFrom, CommentEnd;
    var rest := "<!--" + text;
    var src, n, r := PrintTokens(toks) + rest, |PrintTokens(toks)|, FeedAll(Start(), toks);
    assert src[n] == rest[0] && src[n + 1] == rest[1] && src[n + 2] == rest[2] && src[n + 3] == rest[3];
    AfterTokens(toks, rest);
    forall k: nat | n + 4 <= k
      ensures !EndAt(src, k)
    {
      assert !EndAt(text, k - n - 4);
    }
    NoEndRuns(src, n + 4);
    CommentStep(src, n, r);
    NothingLeft(src, r);
  }

  lemma {:induction false} NoEndRuns(src: string, i: nat)
    requires i <= |src| && forall k: nat :: i <= k ==> !EndAt(src, k)
    ensures CommentEnd(src, i) == |src|
    decreases |src| - i
  {
    hide CommentEnd;
    CommentEndStep(src, i);
    if i + 3 <= |src| {
      NoEndRuns(src, i + 1);
    }
  }

  lemma NothingLeft(src: string, f: Frame)
    requires f.Valid()
    ensures ParseFrom(src, |src|, f.stack, f.stream) == Parsed(f.stream)
  {
  }

  lemma AppendedAt(before: string, rest: string)
    ensures At(before + rest, 0, before) && At(before + rest, |before|, rest)
    ensures rest != "" ==> (before + rest)[|before|] == rest[0]
  {
  }

  /** A tag that the source ends in is an open tag all the same, and an open quote goes
      to the end. */
  lemma CutTagOpens(toks: seq<Token>, tag: string, k: string, quote: char, v: string)
    requires CanonicalTokens(toks) && CanonicalTag(tag) && Only(k, IsAttrNameByte)
    requires (quote == '"' || quote == '\'') && v != "" && quote !in v
    ensures var attrs := [Attr(" ", k, Quoted(quote), "", v)];
            ParseFrom(PrintTokens(toks) + ("<" + (tag + (" " + (k + ("=" + ([quote] + v)))))), 0, [0], Root())
            == Parsed(Feed(FeedAll(Start(), toks), OpenTok(tag, attrs, "", false)).stream)
  {
    hide CanonicalTokens, PrintTokens, FeedAll, ParseFrom, Feed, Only, CanonicalTag, At;
    var rest := "<" + (tag + (" " + (k + ("=" + ([quote] + v)))));
    var src, n := PrintTokens(toks) + rest, |PrintTokens(toks)|;
    AppendedAt(PrintTokens(toks), rest);
    AfterTokens(toks, rest);
    CutTagReads(src, n, tag, k, quote, v, FeedAll(Start(), toks));
  }

  lemma CutTagReads(src: string, n: nat, tag: string, k: string, quote: char, v: string, f: Frame)
    requires CanonicalTag(tag) && Only(k, IsAttrNameByte) && f.Valid()
    requires (quote == '"' || quote == '\'') && v != "" && quote !in v
    requires At(src, n, "<" + (tag + (" " + (k + ("=" + ([quote] + v)))))) && |src| == n + 4 + |tag| + |k| + |v|
    ensures var attrs := [Attr(" ", k, Quoted(quote), "", v)];
            ParseFrom(src, n, f.stack, f.stream) == Parsed(Feed(f, OpenTok(tag, attrs, "", false)).stream)
  {
    hide ParseFrom, ScanAttrs, SkipWhile, WithElement, Only, At;
    var e := n + 1 + |tag|;
    CutTagAt(src, n, tag, k, "=" + ([quote] + v));
    NameReads(src, n + 1, tag);
    CutAttrScans(src, e, k, quote, v);
    OpenTagStep(src, n, e, ScanAttrs(src, e, []), f);
    assert Values([Attr(" ", k, Quoted(quote), "", v)]) == [AttrKV(k, v)];
    NothingLeft(src, Feed(f, OpenTok(tag, [Attr(" ", k, Quoted(quote), "", v)], "", false)));
  }

  lemma CutTagAt(src: string, n: nat, tag: string, k: string, value: string)
    requires At(src, n, "<" + (tag + (" " + (k + value))))
    ensures n < |src| && src[n] == '<' && At(src, n + 1, tag)
    ensures var e := n + 1 + |tag|;
            At(src, e, " ") && e < |src| && src[e] == ' ' && At(src, e + 1, k) && At(src, e + 1 + |k|, value)
  {
    var e := n + 1 + |tag|;
    AtSplit(src, n, "<", tag + (" " + (k + value)));
    AtSplit(src, n + 1, tag, " " + (k + value));
    AtSplit(src, e, " ", k + value);
    AtSplit(src, e + 1, k, value);
    assert src[n + 0] == "<"[0] && src[e + 0] == " "[0];
  }

  lemma CutAttrScans(src: string, e: nat, k: string, quote: char, v: string)
    requires At(src, e, " ") && At(src, e + 1, k) && At(src, e + 1 + |k|, "=" + ([quote] + v))
    requires e + 3 + |k| + |v| == |src| && Only(k, IsAttrNameByte)
    requires (quote == '"' || quote == '\'') && v != "" && quote !in v
    ensures ScanAttrs(src, e, []) == Attrs([AttrKV(k, v)], false, |src|)
  {
    hide SkipWhile, FindByte, ScanValue;
    var open := e + 2 + |k|;
    assert src[e + 0] == " "[0];
    AtSplit(src, open - 1, "=", [quote] + v);
    AtSplit(src, open, [quote], v);
    assert src[open - 1 + 0] == "="[0] && src[open + 0] == [quote][0];
    assert k != "" ==> src[e + 1 + 0] == k[0];
    assert Only(" ", IsWhitespace);
    OnlyReads(src, e, " ", IsWhitespace);
    OnlyReads(src, e + 1, k, IsAttrNameByte);
    AtSlice(src, e + 1, k);
    CutValueScans(src, open - 1, quote, v);
    ScanStep(src, e, e + 1, open - 1, v, |src|, []);
    assert [] + [AttrKV(k, v)] == [AttrKV(k, v)];
  }

  lemma CutValueScans(src: string, e: nat, quote: char, v: string)
    requires e + 2 + |v| == |src| && src[e] == '=' && src[e + 1] == quote && At(src, e + 2, v)
    requires (quote == '"' || quote == '\'') && v != "" && quote !in v
    ensures ScanValue(src, e) == Value(v, |src|)
  {
    hide SkipWhile, FindByte;
    SkipWhileIs(src, e + 1, e + 1, IsBlank);
    UntilReads(src, e + 2, v, quote);
    AtSlice(src, e + 2, v);
  }

  /** A slash ends a tag at once: what follows it is content, even in front of the `>`. */
  lemma SlashEndsTag(toks: seq<Token>, tag: string, space: string, more: seq<Token>)
    requires CanonicalTokens(toks) && CanonicalTag(tag) && Only(space, IsWhitespace) && CanonicalTokens(more)
    requires PrintTokens(more) != "" ==> PrintTokens(more)[0] != '>'
    ensures var f := Feed(FeedAll(Start(), toks), OpenTok(tag, [], space, true));
            ParseFrom(PrintTokens(toks) + ("<" + (tag + (space + ("/" + PrintTokens(more))))), 0, [0], Root())
            == Parsed(FeedAll(f, more).stream)
  {
    hide CanonicalTokens, PrintTokens, FeedAll, ParseFrom, Feed, Only, CanonicalTag, At;
    var rest := "<" + (tag + (space + ("/" + PrintTokens(more))));
    var src, n := PrintTokens(toks) + rest, |PrintTokens(toks)|;
    var f := FeedAll(Start(), toks);
    AppendedAt(PrintTokens(toks), rest);
    AfterTokens(toks, rest);
    SlashReads(src, n, tag, space, PrintTokens(more), f);
    var next := n + 2 + |tag| + |space|;
    TokensRead(src, next, more, Feed(f, OpenTok(tag, [], space, true)));
    NothingLeft(src, FeedAll(Feed(f, OpenTok(tag, [], space, true)), more));
  }

  lemma SlashReads(src: string, n: nat, tag: string, space: string, more: string, f: Frame)
    requires CanonicalTag(tag) && Only(space, IsWhitespace) && f.Valid() && (more != "" ==> more[0] != '>')
    requires At(src, n, "<" + (tag + (space + ("/" + more)))) && |src| == n + 2 + |tag| + |space| + |more|
    ensures var next, r := n + 2 + |tag| + |space|, Feed(f, OpenTok(tag, [], space, true));
            At(src, next, more) && ParseFrom(src, n, f.stack, f.stream) == ParseFrom(src, next, r.stack, r.stream)
  {
    hide ParseFrom, ScanAttrs, SkipWhile, WithElement, Only, At;
    var e := n + 1 + |tag|;
    OpenAt(src, n, tag, space + ("/" + more));
    SlashScans(src, e, space, more);
    NameReads(src, n + 1, tag);
    TagNotEmpty(tag);
    OpenTagStep(src, n, e, ScanAttrs(src, e, []), f);
    assert Values([]) == [];
  }

  lemma SlashScans(src: string, e: nat, space: string, more: string)
    requires At(src, e, space + ("/" + more)) && Only(space, IsWhitespace) && |src| == e + 1 + |space| + |more|
    requires more != "" ==> more[0] != '>'
    ensures var next := e + |space| + 1;
            && e < |src| && !IsTagNameByte(src[e]) && At(src, next, more)
            && ScanAttrs(src, e, []) == Attrs([], true, next) && PastTag(src, next) == next
  {
    hide SkipWhile, ScanValue;
    AtSplit(src, e, space, "/" + more);
    AtSplit(src, e + |space|, "/", more);
    assert src[e + |space| + 0] == "/"[0];
    assert space != "" ==> src[e + 0] == space[0];
    assert more != "" ==> src[e + |space| + 1 + 0] == more[0];
    OnlyReads(src, e, space, IsWhitespace);
  }
}
