/** The one-pass HTML parser (parse_html.go). */
module HtmlParser {
  import opened Wrappers
  import opened NodeStreams

  predicate IsTagNameByte(b: char) {
    ('a' <= b <= 'z') || ('A' <= b <= 'Z') || ('0' <= b <= '9') || b == '-' || b == '_' || b == ':'
  }

  predicate IsWhitespace(b: char) {
    b == ' ' || b == '\t' || b == '\n' || b == '\r'
  }

  predicate IsBlank(b: char) {
    b == ' ' || b == '\t'
  }

  /** Not one of the bytes that end an attribute name. */
  predicate IsAttrNameByte(b: char) {
    !(b == '=' || IsWhitespace(b) || b == '>' || b == '/')
  }

  /** Not one of the bytes that end an unquoted attribute value. */
  predicate IsUnquotedByte(b: char) {
    !(IsWhitespace(b) || b == '>' || b == '/')
  }

  predicate IsComponentTag(tag: string) {
    tag != "" && 'A' <= tag[0] <= 'Z'
  }

  const VOID_TAGS: set<string> := {
    "area", "base", "br", "col", "embed", "hr", "img", "input", "link", "meta", "source", "track", "wbr"}

  predicate IsVoidTag(tag: string) {
    tag in VOID_TAGS
  }

  // ------------------------------------------------------------------------
  // Scanning
  // ------------------------------------------------------------------------

  /** The first index at or after `i` whose byte does not satisfy `p`, or the end. */
  function SkipWhile(src: string, i: nat, p: char -> bool): (r: nat)
    requires i <= |src|
    ensures i <= r <= |src|
    ensures forall k :: i <= k < r ==> p(src[k])
    ensures r < |src| ==> !p(src[r])
    decreases |src| - i
  {
    if i < |src| && p(src[i]) then SkipWhile(src, i + 1, p) else i
  }

  /** bytes.IndexByte: the first `c` at or after `i`, or the end. */
  function FindByte(src: string, i: nat, c: char): (r: nat)
    requires i <= |src|
    ensures i <= r <= |src|
    ensures forall k :: i <= k < r ==> src[k] != c
    ensures r < |src| ==> src[r] == c
    decreases |src| - i
  {
    if i < |src| && src[i] != c then FindByte(src, i + 1, c) else i
  }

  /** bytes.Index for the end of a comment: just past the first "-->", or the end. */
  function CommentEnd(src: string, i: nat): (r: nat)
    requires i <= |src|
    ensures i <= r <= |src|
    decreases |src| - i
  {
    if i + 3 > |src| then |src|
    else if src[i..i + 3] == "-->" then i + 3
    else CommentEnd(src, i + 1)
  }

  /** A run of bytes is skipped up to the byte that ends it. */
  lemma {:induction false} SkipWhileIs(src: string, i: nat, j: nat, p: char -> bool)
    requires i <= j <= |src|
    requires forall k :: i <= k < j ==> p(src[k])
    requires j < |src| ==> !p(src[j])
    ensures SkipWhile(src, i, p) == j
    decreases j - i
  {
    if i < j {
      SkipWhileIs(src, i + 1, j, p);
    }
  }

  lemma {:induction false} FindByteIs(src: string, i: nat, j: nat, c: char)
    requires i <= j <= |src|
    requires forall k :: i <= k < j ==> src[k] != c
    requires j < |src| ==> src[j] == c
    ensures FindByte(src, i, c) == j
    decreases j - i
  {
    if i < j {
      FindByteIs(src, i + 1, j, c);
    }
  }

  /** A scanned attribute value and where scanning goes on. `OutOfRange`: the
      source takes the address of a byte past the end and panics. */
  datatype ValueScan = Value(val: string, end: nat) | ValueOutOfRange

  /** The value of an attribute whose name ends at `e`. */
  function ScanValue(src: string, e: nat): (r: ValueScan)
    requires e <= |src|
    ensures r.Value? ==> e <= r.end <= |src|
    ensures r.Value? && e < |src| && src[e] == '=' ==> e < r.end
  {
    if e < |src| && src[e] == '=' then
      var v := SkipWhile(src, e + 1, IsBlank);
      if v < |src| && (src[v] == '"' || src[v] == '\'') then
        if v + 1 == |src| then ValueOutOfRange
        else
          var close := FindByte(src, v + 1, src[v]);
          Value(src[v + 1..close], if close < |src| then close + 1 else close)
      else if v == |src| then ValueOutOfRange
      else
        var close := SkipWhile(src, v, IsUnquotedByte);
        Value(src[v..close], close)
    else Value("", e)
  }

  datatype AttrScan = Attrs(attrs: seq<AttrKV>, self: bool, end: nat) | AttrsOutOfRange

  /** The attributes of a tag from `end` on; stops at '>', past a '/', or at the end. */
  function ScanAttrs(src: string, end: nat, attrs: seq<AttrKV>): (r: AttrScan)
    requires end <= |src|
    ensures r.Attrs? ==> end <= r.end <= |src|
    decreases |src| - end
  {
    if end == |src| || src[end] == '>' then Attrs(attrs, false, end)
    else
      var start := SkipWhile(src, end, IsWhitespace);
      if start == |src| then Attrs(attrs, false, start)
      else if src[start] == '/' then Attrs(attrs, true, start + 1)
      else if src[start] == '>' then Attrs(attrs, false, start)
      else
        var e := SkipWhile(src, start, IsAttrNameByte);
        match ScanValue(src, e)
        case ValueOutOfRange => AttrsOutOfRange
        case Value(val, next) => ScanAttrs(src, next, attrs + [AttrKV(src[start..e], val)])
  }

  // ------------------------------------------------------------------------
  // Building the stream
  // ------------------------------------------------------------------------

  function ElementFlags(tag: string, self: bool): bv8 {
    (if self || IsVoidTag(tag) then FLAG_SELF_CLOSING else 0)
    | (if IsComponentTag(tag) then FLAG_COMPONENT else 0)
  }

  /** The stream with one more element, below `parent`. */
  ghost function WithElement(s: NodeStream, parent: int, tag: string, attrs: seq<AttrKV>, self: bool): (t: NodeStream)
    requires s.TablesInBounds()
    ensures t.TablesInBounds() && t.Count() == s.Count() + 1
    ensures t.parent == s.parent + [parent]
  {
    var id := s.Count();
    var t := WithNode(s, tag, ElementFlags(tag, self));
    var t := if IsComponentTag(tag) then t.(componentName := t.componentName[id := tag]) else t;
    var t := WithAttrs(t, id, attrs);
    t.(parent := t.parent[id := parent])
  }

  ghost function WithTextNode(s: NodeStream, parent: int, text: string): (t: NodeStream)
    requires s.TablesInBounds()
    ensures t.TablesInBounds() && t.Count() == s.Count() + 1
    ensures t.parent == s.parent + [parent]
  {
    var t := WithText(s, text, false);
    t.(parent := t.parent[s.Count() := parent])
  }

  ghost function Root(): (s: NodeStream)
    ensures s.TablesInBounds() && s.Count() == 1 && s.parent == [-1]
  {
    WithNode(EMPTY, "#document", FLAG_FRAGMENT)
  }

  datatype Outcome =
    | Parsed(stream: NodeStream)
    | Failed(offset: nat, msg: string)
    | Panicked

  function Top(stack: seq<nat>): nat
    requires stack != []
  {
    stack[|stack| - 1]
  }

  function Pop(stack: seq<nat>): seq<nat> {
    if |stack| > 1 then stack[..|stack| - 1] else stack
  }

  predicate IsCommentStart(src: string, i: nat) {
    i + 3 < |src| && src[i] == '<' && src[i + 1] == '!' && src[i + 2] == '-' && src[i + 3] == '-'
  }

  /** A scanned tag: where its name is and whether it closes. */
  function TagStart(src: string, i: nat): nat
    requires i + 1 < |src|
  {
    if src[i + 1] == '/' then i + 2 else i + 1
  }

  /** Past the '>' that ends a tag, if there is one. */
  function PastTag(src: string, end: nat): (r: nat)
    requires end <= |src|
    ensures end <= r <= |src|
  {
    if end < |src| && src[end] == '>' then end + 1 else end
  }

  /** The parse from `i` on, with the open tags and the nodes so far. */
  ghost function ParseFrom(src: string, i: nat, stack: seq<nat>, s: NodeStream): Outcome
    requires i <= |src| && stack != [] && s.TablesInBounds()
    decreases |src| - i
  {
    if i == |src| then Parsed(s)
    else if src[i] == '<' then
      if i + 1 == |src| then Failed(i, "unterminated tag")
      else if IsCommentStart(src, i) then ParseFrom(src, CommentEnd(src, i + 4), stack, s)
      else
        var tagStart := TagStart(src, i);
        var end := SkipWhile(src, tagStart, IsTagNameByte);
        if end == tagStart then Failed(i, "expected tag name")
        else
          match ScanAttrs(src, end, [])
          case AttrsOutOfRange => Panicked
          case Attrs(attrs, self, end') =>
            if tagStart == i + 2 then ParseFrom(src, PastTag(src, end'), Pop(stack), s)
            else
              var tag := src[tagStart..end];
              ParseFrom(src, PastTag(src, end'),
                        if self || IsVoidTag(tag) then stack else stack + [s.Count()],
                        WithElement(s, Top(stack), tag, attrs, self))
    else
      var next := FindByte(src, i, '<');
      ParseFrom(src, next, stack, WithTextNode(s, Top(stack), src[i..next]))
  }

  // ------------------------------------------------------------------------
  // The parser
  // ------------------------------------------------------------------------

  method SkipBytes(src: string, i: nat, p: char -> bool) returns (end: nat)
    requires i <= |src|
    ensures end == SkipWhile(src, i, p)
  {
    end := i;
    while end < |src| && p(src[end])
      invariant i <= end <= |src|
      invariant SkipWhile(src, end, p) == SkipWhile(src, i, p)
    {
      end := end + 1;
    }
  }

  method ParseValue(src: string, e: nat) returns (r: ValueScan)
    requires e <= |src|
    ensures r == ScanValue(src, e)
  {
    var end := e;
    if end < |src| && src[end] == '=' {
      end := SkipBytes(src, end + 1, IsBlank);
      if end < |src| && (src[end] == '"' || src[end] == '\'') {
        var quote := src[end];
        end := end + 1;
        if end == |src| {
          return ValueOutOfRange;
        }
        var close := FindByte(src, end, quote);
        return Value(src[end..close], if close < |src| then close + 1 else close);
      }
      var valStart := end;
      if valStart == |src| {
        return ValueOutOfRange;
      }
      end := SkipBytes(src, valStart, IsUnquotedByte);
      return Value(src[valStart..end], end);
    }
    return Value("", end);
  }

  method ParseAttrs(src: string, from: nat) returns (r: AttrScan)
    requires from <= |src|
    ensures r == ScanAttrs(src, from, [])
  {
    var end := from;
    var attrs := [];
    while end < |src| && src[end] != '>'
      invariant from <= end <= |src|
      invariant ScanAttrs(src, end, attrs) == ScanAttrs(src, from, [])
      decreases |src| - end
    {
      var nameStart := SkipBytes(src, end, IsWhitespace);
      if nameStart == |src| {
        return Attrs(attrs, false, nameStart);
      }
      if src[nameStart] == '/' {
        return Attrs(attrs, true, nameStart + 1);
      }
      if src[nameStart] == '>' {
        return Attrs(attrs, false, nameStart);
      }
      var nameEnd := SkipBytes(src, nameStart, IsAttrNameByte);
      var value := ParseValue(src, nameEnd);
      if value.ValueOutOfRange? {
        return AttrsOutOfRange;
      }
      attrs := attrs + [AttrKV(src[nameStart..nameEnd], value.val)];
      end := value.end;
    }
    return Attrs(attrs, false, end);
  }

  method AddElement(b: NodeStreamBuilder, parent: nat, tag: string, attrs: seq<AttrKV>, self: bool) returns (id: nat)
    requires b.stream.TablesInBounds()
    modifies b
    ensures id == old(b.stream.Count())
    ensures b.stream == WithElement(old(b.stream), parent, tag, attrs, self)
  {
    id := b.AppendNode(tag, ElementFlags(tag, self));
    if IsComponentTag(tag) {
      b.SetComponentName(id, tag);
    }
    if |attrs| > 0 {
      b.SetAttrsEach(id, attrs);
    }
    b.SetParent(id, parent);
  }

  /** Parses one tag, or fails; `next` is where parsing goes on. */
  method ParseTag(src: string, i: nat, b: NodeStreamBuilder, stack: seq<nat>)
    returns (failure: Option<Outcome>, next: nat, stack': seq<nat>)
    requires i + 1 < |src| && src[i] == '<' && !IsCommentStart(src, i)
    requires stack != [] && b.stream.TablesInBounds()
    modifies b
    ensures b.stream.TablesInBounds() && stack' != []
    ensures failure.Some? ==> failure.value == ParseFrom(src, i, stack, old(b.stream)) && !failure.value.Parsed?
    ensures failure.None? ==> i < next <= |src|
    ensures failure.None? ==> ParseFrom(src, next, stack', b.stream) == ParseFrom(src, i, stack, old(b.stream))
  {
    failure, next, stack' := None, |src|, stack;
    var closing := src[i + 1] == '/';
    var tagStart := if closing then i + 2 else i + 1;
    var end := SkipBytes(src, tagStart, IsTagNameByte);
    if end == tagStart {
      failure := Some(Failed(i, "expected tag name"));
      return;
    }
    var tag := src[tagStart..end];
    var scan := ParseAttrs(src, end);
    if scan.AttrsOutOfRange? {
      failure := Some(Panicked);
      return;
    }
    next := PastTag(src, scan.end);
    if closing {
      stack' := Pop(stack);
    } else {
      var id := AddElement(b, Top(stack), tag, scan.attrs, scan.self);
      if !scan.self && !IsVoidTag(tag) {
        stack' := stack + [id];
      }
    }
  }

  method AddText(b: NodeStreamBuilder, parent: nat, text: string)
    requires b.stream.TablesInBounds()
    modifies b
    ensures b.stream == WithTextNode(old(b.stream), parent, text)
  {
    var id := b.AppendText(text, false);
    b.SetParent(id, parent);
  }

  /** parseHTML: the nodes in document order, parents set, links not yet built. */
  method ParseHTML(src: string) returns (r: Outcome)
    ensures r == ParseFrom(src, 0, [0], Root())
  {
    var b := new NodeStreamBuilder();
    var root := b.AppendNode("#document", FLAG_FRAGMENT);
    var stack := [root];
    var i := 0;
    while i < |src|
      invariant i <= |src| && stack != [] && b.stream.TablesInBounds()
      invariant ParseFrom(src, i, stack, b.stream) == ParseFrom(src, 0, [0], Root())
      decreases |src| - i
    {
      if src[i] == '<' {
        if i + 1 >= |src| {
          return Failed(i, "unterminated tag");
        }
        if IsCommentStart(src, i) {
          i := CommentEnd(src, i + 4);
        } else {
          var failure, next, stack' := ParseTag(src, i, b, stack);
          if failure.Some? {
            return failure.value;
          }
          i, stack := next, stack';
        }
      } else {
        var next := FindByte(src, i, '<');
        AddText(b, Top(stack), src[i..next]);
        i := next;
      }
    }
    return Parsed(b.stream);
  }
}
