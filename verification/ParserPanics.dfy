/** Which inputs make the parser index past their end (parse_html.go): exactly
    those that a byte scan with finitely many states ends in the wrong state. */
module ParserPanics {
  import opened NodeStreams
  import opened HtmlParser

  /** Where a byte scan is: in text, behind a '<', in a tag name, between
      attributes, in an attribute's name or value, behind a '/', in a comment
      (with as many dashes of its end seen), or past an error. */
  datatype Place =
    | InText
    | Lt
    | Closing
    | TagName
    | Between
    | AttrName
    | Eq
    | Opened(quote: char)
    | Quoted(quote: char)
    | Bare
    | Slash
    | Bang
    | BangDash
    | InComment(dashes: nat)
    | Dead

  function AfterText(c: char): Place {
    if c == '<' then Lt else InText
  }

  /** Between attributes, or where an attribute has just ended. */
  function AfterAttr(c: char): Place {
    if c == '>' then InText
    else if c == '/' then Slash
    else if c == '=' then Eq
    else if IsWhitespace(c) then Between
    else AttrName
  }

  function Next(place: Place, c: char): Place {
    match place
    case InText => AfterText(c)
    case Lt =>
      if c == '/' then Closing else if IsTagNameByte(c) then TagName else if c == '!' then Bang else Dead
    case Closing => if IsTagNameByte(c) then TagName else Dead
    case TagName => if IsTagNameByte(c) then TagName else AfterAttr(c)
    case Between => AfterAttr(c)
    case AttrName => if IsAttrNameByte(c) then AttrName else AfterAttr(c)
    case Eq =>
      if IsBlank(c) then Eq
      else if c == '"' || c == '\'' then Opened(c)
      else if IsUnquotedByte(c) then Bare
      else AfterAttr(c)
    case Opened(quote) => if c == quote then Between else Quoted(quote)
    case Quoted(quote) => if c == quote then Between else place
    case Bare => if IsUnquotedByte(c) then Bare else AfterAttr(c)
    case Slash => if c == '>' then InText else AfterText(c)
    case Bang => if c == '-' then BangDash else Dead
    case BangDash => if c == '-' then InComment(0) else Dead
    case InComment(dashes) =>
      if c == '-' then InComment(if dashes < 2 then dashes + 1 else 2)
      else if c == '>' && dashes == 2 then InText
      else InComment(0)
    case Dead => Dead
  }

  /** The place at the end of the input, scanning on from `i`. */
  function Final(src: string, i: nat, place: Place): Place
    requires i <= |src|
    decreases |src| - i
  {
    if i == |src| then place else Final(src, i + 1, Next(place, src[i]))
  }

  /** The scan ends where a value should begin: behind '=' and blanks, or right
      behind an opening quote. */
  predicate EndsOpen(src: string, i: nat, place: Place)
    requires i <= |src|
  {
    var final := Final(src, i, place);
    final.Eq? || final.Opened?
  }

  // ------------------------------------------------------------------------
  // Following the parser
  // ------------------------------------------------------------------------

  lemma Steps(src: string, i: nat, place: Place)
    requires i <= |src|
    ensures EndsOpen(src, i, place) == if i < |src| then EndsOpen(src, i + 1, Next(place, src[i]))
                                       else place.Eq? || place.Opened?
  {
  }

  lemma {:induction false} Stays(src: string, i: nat, j: nat, place: Place)
    requires i <= j <= |src|
    requires forall k :: i <= k < j ==> Next(place, src[k]) == place
    ensures EndsOpen(src, i, place) == EndsOpen(src, j, place)
    decreases j - i
  {
    if i < j {
      Stays(src, i + 1, j, place);
    }
  }

  lemma CommentEndSkips(src: string, i: nat)
    requires i < |src| && !(i + 3 <= |src| && src[i..i + 3] == "-->")
    ensures CommentEnd(src, i) == CommentEnd(src, i + 1)
  {
  }

  /** A comment goes on up to the first "-->", of which `d` dashes are behind. */
  lemma {:induction false} CommentScans(src: string, i: nat, d: nat)
    requires d <= 2 && d <= i <= |src| && forall k :: i - d <= k < i ==> src[k] == '-'
    ensures EndsOpen(src, i, InComment(d)) <==> EndsOpen(src, CommentEnd(src, i - d), InText)
    decreases |src| - i
  {
    hide EndsOpen, CommentEnd;
    Steps(src, i, InComment(d));
    Steps(src, |src|, InText);
    if i < |src| {
      var c := src[i];
      if c == '-' {
        if d < 2 {
          CommentScans(src, i + 1, d + 1);
        } else {
          CommentEndSkips(src, i - 2);
          CommentScans(src, i + 1, 2);
        }
      } else if c == '>' && d == 2 {
        CommentEndFinds(src, i - 2);
      } else {
        CommentEndPasses(src, i - d, i);
        CommentScans(src, i + 1, 0);
      }
    } else {
      CommentEndPasses(src, i - d, i);
    }
  }

  lemma CommentEndFinds(src: string, i: nat)
    requires i + 3 <= |src| && src[i] == '-' && src[i + 1] == '-' && src[i + 2] == '>'
    ensures CommentEnd(src, i) == i + 3
  {
    assert src[i..i + 3] == "-->";
  }

  /** The search passes `j` when no "-->" starts at or before it. */
  lemma {:induction false} CommentEndPasses(src: string, i: nat, j: nat)
    requires i <= j <= i + 2 && j <= |src|
    requires j < |src| ==> src[j] != '-' && (j == i + 2 ==> src[j] != '>')
    ensures CommentEnd(src, i) == if j < |src| then CommentEnd(src, j + 1) else |src|
    decreases j - i
  {
    if i < |src| {
      if i + 3 <= |src| {
        assert src[i..i + 3] == [src[i], src[i + 1], src[i + 2]];
        assert "-->"[0] == "-->"[1] == '-' && "-->"[2] == '>';
        assert src[j] == src[i..i + 3][j - i];
      }
      CommentEndSkips(src, i);
      if i < j {
        CommentEndPasses(src, i + 1, j);
      }
    }
  }

  /** A quoted value: from the quote at `v` to just past its partner, or the end. */
  lemma QuotedScans(src: string, v: nat)
    requires v + 1 < |src| && (src[v] == '"' || src[v] == '\'')
    ensures var close := FindByte(src, v + 1, src[v]);
            EndsOpen(src, v, Eq) <==> EndsOpen(src, if close < |src| then close + 1 else close, Between)
  {
    hide EndsOpen;
    var quote := src[v];
    var close := FindByte(src, v + 1, quote);
    Steps(src, v, Eq);
    Steps(src, v + 1, Opened(quote));
    if close > v + 1 {
      Stays(src, v + 2, close, Quoted(quote));
    }
    Steps(src, close, Quoted(quote));
    Steps(src, |src|, Between);
  }

  /** A bare value: up to the byte that ends it, or the end. */
  lemma BareScans(src: string, v: nat)
    requires v < |src| && !IsBlank(src[v]) && src[v] != '"' && src[v] != '\''
    ensures EndsOpen(src, v, Eq) <==> EndsOpen(src, SkipWhile(src, v, IsUnquotedByte), Between)
  {
    hide EndsOpen;
    var close := SkipWhile(src, v, IsUnquotedByte);
    Steps(src, v, Eq);
    if close > v {
      Stays(src, v + 1, close, Bare);
      Steps(src, close, Bare);
    }
    Steps(src, close, Between);
  }

  lemma ValueScans(src: string, e: nat)
    requires e < |src| && src[e] == '='
    ensures match ScanValue(src, e)
            case ValueOutOfRange => EndsOpen(src, e + 1, Eq)
            case Value(_, next) => EndsOpen(src, e + 1, Eq) <==> EndsOpen(src, next, Between)
  {
    hide EndsOpen;
    var v := SkipWhile(src, e + 1, IsBlank);
    Stays(src, e + 1, v, Eq);
    if v == |src| {
      Steps(src, v, Eq);
    } else if src[v] == '"' || src[v] == '\'' {
      if v + 1 == |src| {
        Steps(src, v, Eq);
        Steps(src, v + 1, Opened(src[v]));
      } else {
        QuotedScans(src, v);
      }
    } else {
      BareScans(src, v);
    }
  }

  /** One attribute, from the first byte of its name. */
  lemma AttrScans(src: string, start: nat)
    requires start < |src| && src[start] != '>' && src[start] != '/' && !IsWhitespace(src[start])
    ensures var e := SkipWhile(src, start, IsAttrNameByte);
            match ScanValue(src, e)
            case ValueOutOfRange => EndsOpen(src, start, Between)
            case Value(_, next) => EndsOpen(src, start, Between) <==> EndsOpen(src, next, Between)
  {
    hide EndsOpen, SkipWhile, FindByte;
    var e := SkipWhile(src, start, IsAttrNameByte);
    if e > start {
      Steps(src, start, Between);
      Stays(src, start + 1, e, AttrName);
      Steps(src, e, AttrName);
    }
    Steps(src, e, Between);
    if e < |src| && src[e] == '=' {
      ValueScans(src, e);
    }
  }

  /** The attributes of a tag and its end. */
  lemma {:induction false} AttrsScan(src: string, end: nat, attrs: seq<AttrKV>)
    requires end <= |src|
    ensures match ScanAttrs(src, end, attrs)
            case AttrsOutOfRange => EndsOpen(src, end, Between)
            case Attrs(_, _, end') => EndsOpen(src, end, Between) <==> EndsOpen(src, PastTag(src, end'), InText)
    decreases |src| - end
  {
    hide ScanValue, EndsOpen;
    var start := SkipWhile(src, end, IsWhitespace);
    Stays(src, end, start, Between);
    if start == |src| {
      Steps(src, start, Between);
      Steps(src, start, InText);
    } else if src[start] == '>' || src[start] == '/' {
      TagEndScans(src, start);
    } else {
      var e := SkipWhile(src, start, IsAttrNameByte);
      AttrScans(src, start);
      match ScanValue(src, e)
      case ValueOutOfRange =>
      case Value(val, next) => AttrsScan(src, next, attrs + [AttrKV(src[start..e], val)]);
    }
  }

  lemma TagEndScans(src: string, start: nat)
    requires start < |src| && (src[start] == '>' || src[start] == '/')
    ensures EndsOpen(src, start, Between)
            <==> EndsOpen(src, PastTag(src, if src[start] == '/' then start + 1 else start), InText)
  {
    hide EndsOpen;
    Steps(src, start, Between);
    if src[start] == '/' {
      Steps(src, start + 1, Slash);
      Steps(src, start + 1, InText);
    }
  }

  lemma DeadEnds(src: string, i: nat)
    requires i <= |src|
    ensures !EndsOpen(src, i, Dead)
  {
    hide EndsOpen;
    Stays(src, i, |src|, Dead);
    Steps(src, |src|, Dead);
  }

  /** A tag whose name is missing ends the parse, and the scan. */
  lemma NamelessEnds(src: string, i: nat)
    requires i + 1 < |src| && src[i] == '<' && !IsCommentStart(src, i)
    requires SkipWhile(src, TagStart(src, i), IsTagNameByte) == TagStart(src, i)
    ensures !EndsOpen(src, i, InText)
  {
    hide EndsOpen;
    Steps(src, i, InText);
    Steps(src, i + 1, Lt);
    if src[i + 1] == '/' {
      EndsOrDies(src, i + 2, Closing);
    } else if src[i + 1] == '!' {
      Steps(src, i + 2, Bang);
      if i + 2 < |src| && src[i + 2] == '-' {
        EndsOrDies(src, i + 3, BangDash);
      } else if i + 2 < |src| {
        DeadEnds(src, i + 3);
      }
    } else {
      DeadEnds(src, i + 2);
    }
  }

  lemma EndsOrDies(src: string, i: nat, place: Place)
    requires i <= |src| && !place.Eq? && !place.Opened?
    requires i < |src| ==> Next(place, src[i]) == Dead
    ensures !EndsOpen(src, i, place)
  {
    hide EndsOpen;
    Steps(src, i, place);
    if i < |src| {
      DeadEnds(src, i + 1);
    }
  }

  lemma CommentStartScans(src: string, i: nat)
    requires IsCommentStart(src, i)
    ensures EndsOpen(src, i, InText) <==> EndsOpen(src, CommentEnd(src, i + 4), InText)
  {
    hide EndsOpen, CommentEnd;
    Steps(src, i, InText);
    Steps(src, i + 1, Lt);
    Steps(src, i + 2, Bang);
    Steps(src, i + 3, BangDash);
    CommentScans(src, i + 4, 0);
  }

  lemma TagNameScans(src: string, i: nat)
    requires i + 1 < |src| && src[i] == '<'
    requires SkipWhile(src, TagStart(src, i), IsTagNameByte) > TagStart(src, i)
    ensures EndsOpen(src, i, InText)
            <==> EndsOpen(src, SkipWhile(src, TagStart(src, i), IsTagNameByte), Between)
  {
    hide EndsOpen;
    var j := TagStart(src, i);
    var end := SkipWhile(src, j, IsTagNameByte);
    Steps(src, i, InText);
    Steps(src, i + 1, Lt);
    Steps(src, j, Closing);
    Stays(src, j + 1, end, TagName);
    Steps(src, end, TagName);
    Steps(src, end, Between);
  }

  /** The parser panics from `i` on exactly when the scan ends open. */
  lemma {:induction false} ParseScans(src: string, i: nat, stack: seq<nat>, s: NodeStream)
    requires i <= |src| && stack != [] && s.TablesInBounds()
    ensures ParseFrom(src, i, stack, s) == Panicked <==> EndsOpen(src, i, InText)
    decreases |src| - i
  {
    hide EndsOpen, ScanAttrs;
    Steps(src, i, InText);
    if i == |src| {
    } else if src[i] != '<' {
      var next := FindByte(src, i, '<');
      Stays(src, i, next, InText);
      ParseScans(src, next, stack, WithTextNode(s, Top(stack), src[i..next]));
    } else if i + 1 == |src| {
      Steps(src, i + 1, Lt);
    } else if IsCommentStart(src, i) {
      CommentStartScans(src, i);
      ParseScans(src, CommentEnd(src, i + 4), stack, s);
    } else {
      TagScans(src, i, stack, s);
    }
  }

  lemma {:induction false} TagScans(src: string, i: nat, stack: seq<nat>, s: NodeStream)
    requires i + 1 < |src| && src[i] == '<' && !IsCommentStart(src, i)
    requires stack != [] && s.TablesInBounds()
    ensures ParseFrom(src, i, stack, s) == Panicked <==> EndsOpen(src, i, InText)
    decreases |src| - i, 0
  {
    hide EndsOpen, ScanAttrs;
    var tagStart := TagStart(src, i);
    var end := SkipWhile(src, tagStart, IsTagNameByte);
    if end == tagStart {
      NamelessEnds(src, i);
    } else {
      TagNameScans(src, i);
      AttrsScan(src, end, []);
      match ScanAttrs(src, end, [])
      case AttrsOutOfRange =>
      case Attrs(attrs, self, end') =>
        if tagStart == i + 2 {
          ParseScans(src, PastTag(src, end'), Pop(stack), s);
        } else {
          var tag := src[tagStart..end];
          ParseScans(src, PastTag(src, end'),
                     if self || IsVoidTag(tag) then stack else stack + [s.Count()],
                     WithElement(s, Top(stack), tag, attrs, self));
        }
    }
  }

  /** The parser indexes past the end of exactly those inputs whose scan ends
      behind an attribute's '=' and blanks, or right behind an opening quote. */
  lemma PanicsExactly(src: string)
    ensures ParseFrom(src, 0, [0], Root()) == Panicked <==> EndsOpen(src, 0, InText)
  {
    ParseScans(src, 0, [0], Root());
  }

  /** Such an input, and one that differs in not being inside a tag. */
  lemma PanicWitness()
    ensures ParseFrom("<a x=", 0, [0], Root()) == Panicked
    ensures ParseFrom("a x=", 0, [0], Root()) != Panicked
  {
    PanicsExactly("<a x=");
    PanicsExactly("a x=");
    hide ParseFrom;
  }

  /** In particular the last byte of such an input is '=', a blank or a quote. */
  lemma PanicOnlyAtEnd(src: string)
    requires ParseFrom(src, 0, [0], Root()) == Panicked
    ensures src != "" && src[|src| - 1] in "= \t\"'"
  {
    hide EndsOpen, ParseFrom;
    PanicsExactly(src);
    EndsOpenBehind(src, 0, InText);
  }

  lemma OpensBehind(place: Place, c: char)
    ensures Next(place, c).Eq? || Next(place, c).Opened? ==> c in "= \t\"'"
  {
  }

  lemma {:induction false} EndsOpenBehind(src: string, i: nat, place: Place)
    requires i <= |src| && EndsOpen(src, i, place)
    requires place.Eq? || place.Opened? ==> i > 0 && src[i - 1] in "= \t\"'"
    ensures src != "" && src[|src| - 1] in "= \t\"'"
    decreases |src| - i
  {
    hide EndsOpen, Next;
    Steps(src, i, place);
    if i < |src| {
      OpensBehind(place, src[i]);
      EndsOpenBehind(src, i + 1, Next(place, src[i]));
    }
  }
}
