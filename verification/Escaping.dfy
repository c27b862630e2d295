/** Byte sinks and HTML escaping (bytecode.go, execute.go).

    A byte is modelled as a `char`; nothing below depends on its upper bound. */
module Escaping {
  import opened Sequences

  /** An error-free writer: everything written so far, in order. */
  class Sink {
    var out: string

    constructor ()
      ensures out == ""
    {
      out := "";
    }

    method Write(s: string)
      modifies this
      ensures out == old(out) + s
    {
      out := out + s;
    }
  }

  predicate Special(c: char) {
    c == '&' || c == '<' || c == '>' || c == '"' || c == '\''
  }

  /** What one byte becomes in escaped output. */
  function Entity(c: char): string {
    match c
    case '&' => "&amp;"
    case '<' => "&lt;"
    case '>' => "&gt;"
    case '"' => "&#34;"
    case '\'' => "&#39;"
    case _ => [c]
  }

  /** The meaning of escaping: every byte replaced by its entity. */
  function Escape(s: string): string {
    if s == "" then "" else Entity(s[0]) + Escape(s[1..])
  }

  /** Decodes the five entities and nothing else. */
  function Unescape(s: string): string {
    if s == "" then ""
    else if "&amp;" <= s then "&" + Unescape(s[5..])
    else if "&lt;" <= s then "<" + Unescape(s[4..])
    else if "&gt;" <= s then ">" + Unescape(s[4..])
    else if "&#34;" <= s then "\"" + Unescape(s[5..])
    else if "&#39;" <= s then "'" + Unescape(s[5..])
    else [s[0]] + Unescape(s[1..])
  }

  lemma EscapeUnfold(s: string)
    requires s != ""
    ensures Escape(s) == Entity(s[0]) + Escape(s[1..])
  {
  }

  lemma {:induction false} EscapeConcat(a: string, b: string)
    ensures Escape(a + b) == Escape(a) + Escape(b)
  {
    if a == "" {
      assert a + b == b;
    } else {
      calc {
        Escape(a + b);
        { EscapeUnfold(a + b); assert (a + b)[1..] == a[1..] + b; }
        Entity(a[0]) + Escape(a[1..] + b);
        { EscapeConcat(a[1..], b); }
        Entity(a[0]) + (Escape(a[1..]) + Escape(b));
        { Assoc(Entity(a[0]), Escape(a[1..]), Escape(b)); }
        Entity(a[0]) + Escape(a[1..]) + Escape(b);
        { EscapeUnfold(a); }
        Escape(a) + Escape(b);
      }
    }
  }

  lemma EscapeOne(c: char)
    ensures Escape([c]) == Entity(c)
  {
    assert [c][1..] == "";
    assert Entity(c) + "" == Entity(c);
  }

  /** Text without any of the five bytes is left alone, and only such text is. */
  lemma {:induction false} EscapeFixpoint(s: string)
    ensures |Escape(s)| >= |s|
    ensures Escape(s) == s <==> forall k :: 0 <= k < |s| ==> !Special(s[k])
  {
    if s != "" {
      EscapeFixpoint(s[1..]);
      assert forall k :: 0 <= k < |s[1..]| ==> s[1..][k] == s[k + 1];
      if !Special(s[0]) {
        assert Escape(s)[1..] == Escape(s[1..]);
        assert [s[0]] + s[1..] == s;
      } else {
        assert |Entity(s[0])| > 1;
      }
    }
  }

  /** Escaped output never holds a raw markup or quote byte. */
  lemma {:induction false} EscapedHasNoMarkup(s: string)
    ensures forall k :: 0 <= k < |Escape(s)| ==> Escape(s)[k] !in "<>\"'"
  {
    if s != "" {
      EscapedHasNoMarkup(s[1..]);
    }
  }

  lemma UnescapePlain(all: string)
    requires all != "" && all[0] != '&'
    ensures Unescape(all) == [all[0]] + Unescape(all[1..])
  {
  }

  lemma UnescapeSpecial(c: char, all: string)
    requires Special(c) && Entity(c) <= all
    ensures Unescape(all) == [c] + Unescape(all[|Entity(c)|..])
  {
    var e := Entity(c);
    assert all[1] == e[1] && all[3] == e[3];
  }

  lemma UnescapeEntity(c: char, rest: string)
    ensures Unescape(Entity(c) + rest) == [c] + Unescape(rest)
  {
    hide Unescape;
    var all := Entity(c) + rest;
    assert all[|Entity(c)|..] == rest;
    if Special(c) {
      UnescapeSpecial(c, all);
    } else {
      UnescapePlain(all);
    }
  }

  /** Decoding the five entities gives the input back. */
  lemma {:induction false} UnescapeEscape(s: string)
    ensures Unescape(Escape(s)) == s
  {
    hide Entity;
    if s != "" {
      UnescapeEscape(s[1..]);
      UnescapeEntity(s[0], Escape(s[1..]));
      assert [s[0]] + s[1..] == s;
    }
  }

  /** The five entities, both ways. */
  lemma FiveEntities()
    ensures Escape("&") == "&amp;" && Escape("<") == "&lt;" && Escape(">") == "&gt;"
    ensures Escape("\"") == "&#34;" && Escape("'") == "&#39;"
    ensures Unescape("&amp;") == "&" && Unescape("&lt;") == "<" && Unescape("&gt;") == ">"
    ensures Unescape("&#34;") == "\"" && Unescape("&#39;") == "'"
  {
    hide Escape, Unescape;
    EntityBothWays('&');
    EntityBothWays('<');
    EntityBothWays('>');
    EntityBothWays('"');
    EntityBothWays('\'');
  }

  lemma EntityBothWays(c: char)
    ensures Escape([c]) == Entity(c) && Unescape(Entity(c)) == [c]
  {
    EscapeOne(c);
    UnescapeEscape([c]);
  }

  /** Two inputs that escape to the same bytes are the same input. */
  lemma EscapeInjective(a: string, b: string)
    requires Escape(a) == Escape(b)
    ensures a == b
  {
    UnescapeEscape(a);
    UnescapeEscape(b);
  }

  /** bytecode.go: the byte-wise escaper of the compiler. */
  method EscapeAppend(dst: string, src: string) returns (r: string)
    ensures r == dst + Escape(src)
  {
    r := dst;
    for i := 0 to |src|
      invariant r == dst + Escape(src[..i])
    {
      EscapeConcat(src[..i], [src[i]]);
      EscapeOne(src[i]);
      assert src[..i + 1] == src[..i] + [src[i]];
      Assoc(dst, Escape(src[..i]), Entity(src[i]));
      r := r + Entity(src[i]);
    }
    assert src[..|src|] == src;
  }

  lemma NothingEscaped(before: string, b: string)
    ensures before + Escape(b[..0]) == before
  {
  }

  /** execute.go: the run-splitting escaper of the tree walk. Plain runs are
      written whole, between the entities. */
  method EscapeBytes(w: Sink, b: string)
    modifies w
    ensures w.out == old(w.out) + Escape(b)
  {
    hide Escape, Special, Entity;
    var start := 0;
    NothingEscaped(old(w.out), b);
    for i := 0 to |b|
      invariant 0 <= start <= i
      invariant forall k :: start <= k < i ==> !Special(b[k])
      invariant w.out == old(w.out) + Escape(b[..start])
    {
      if Special(b[i]) {
        WriteRun(w, b, start, i);
        w.Write(Entity(b[i]));
        EscapeStep(b, start, i);
        Assoc(old(w.out), Escape(b[..start]), b[start..i]);
        Assoc(old(w.out), Escape(b[..start]) + b[start..i], Entity(b[i]));
        start := i + 1;
      }
    }
    WriteRun(w, b, start, |b|);
    EscapeRun(b, start, |b|);
    Assoc(old(w.out), Escape(b[..start]), b[start..|b|]);
    assert b[..|b|] == b;
  }

  /** The plain run `b[start..end]`; nothing is written when it is empty. */
  method WriteRun(w: Sink, b: string, start: nat, end: nat)
    requires start <= end <= |b|
    modifies w
    ensures w.out == old(w.out) + b[start..end]
  {
    if start < end {
      w.Write(b[start..end]);
    }
  }

  lemma EscapeRun(b: string, start: nat, end: nat)
    requires start <= end <= |b|
    requires forall k :: start <= k < end ==> !Special(b[k])
    ensures Escape(b[..end]) == Escape(b[..start]) + b[start..end]
  {
    hide Escape, Special;
    var run := b[start..end];
    PlainRun(run);
    EscapeConcat(b[..start], run);
    assert b[..end] == b[..start] + run;
  }

  lemma PlainRun(run: string)
    requires forall k :: 0 <= k < |run| ==> !Special(run[k])
    ensures Escape(run) == run
  {
    EscapeFixpoint(run);
  }


  lemma EscapeStep(b: string, start: nat, i: nat)
    requires start <= i < |b|
    requires forall k :: start <= k < i ==> !Special(b[k])
    ensures Escape(b[..i + 1]) == Escape(b[..start]) + b[start..i] + Entity(b[i])
  {
    EscapeRun(b, start, i);
    EscapeConcat(b[..i], [b[i]]);
    EscapeOne(b[i]);
    assert b[..i + 1] == b[..i] + [b[i]];
  }
}
