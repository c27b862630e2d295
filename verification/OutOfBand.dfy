/** What both the synchronous and the suspended components write around an
    out-of-band update, and for a boundary that failed (fluent.go, suspense.go). */
module OutOfBand {
  import opened Sequences
  import opened Escaping

  const PLACEHOLDER := "<!-- error boundary failed -->"

  /** The separate writes that make up one chunk. */
  function OobPieces(id: string, bytes: string): (r: seq<string>)
    ensures |r| == 5
  {
    ["<div id=\"", Escape(id), "\" hx-swap-oob=\"true\">", bytes, "</div>"]
  }

  function OobChunk(id: string, bytes: string): string {
    Concat(OobPieces(id, bytes))
  }

  lemma ChunkText(id: string, bytes: string)
    ensures OobChunk(id, bytes) == "<div id=\"" + Escape(id) + "\" hx-swap-oob=\"true\">" + bytes + "</div>"
  {
    hide Escape;
    var a, b, c := "<div id=\"", Escape(id), "\" hx-swap-oob=\"true\">";
    assert OobPieces(id, bytes) == [a] + ([b] + ([c] + ([bytes] + ["</div>"])));
    ConcatCons(a, [b] + ([c] + ([bytes] + ["</div>"])));
    ConcatCons(b, [c] + ([bytes] + ["</div>"]));
    ConcatCons(c, [bytes] + ["</div>"]);
    ConcatCons(bytes, ["</div>"]);
    ConcatCons("</div>", []);
    assert ["</div>"] + [] == ["</div>"];
    assert a + (b + (c + (bytes + ("</div>" + "")))) == a + b + c + bytes + "</div>";
  }

  lemma ConcatCons(part: string, rest: seq<string>)
    ensures Concat([part] + rest) == part + Concat(rest)
  {
  }
}
