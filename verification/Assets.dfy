/** The asset lists of a request (assets.go): 16 inline slots, then a slice that
    spills over; each path once, in the order of its first mention. */
module Assets {
  import opened Sequences
  import opened Escaping

  const ASSET_INLINE_CAP: nat := 16

  // ------------------------------------------------------------------------
  // Keeping first occurrences
  // ------------------------------------------------------------------------

  function Add(list: seq<string>, x: string): seq<string> {
    if x == "" || x in list then list else list + [x]
  }

  function AddAll(list: seq<string>, xs: seq<string>): seq<string> {
    if xs == [] then list else Add(AddAll(list, xs[..|xs| - 1]), xs[|xs| - 1])
  }

  /** The non-empty paths in the order of their first occurrence. */
  function Dedup(xs: seq<string>): seq<string> {
    AddAll([], xs)
  }

  /** Where `x` first occurs. */
  function FirstIndex(xs: seq<string>, x: string): (i: nat)
    requires x in xs
    ensures i < |xs| && xs[i] == x && x !in xs[..i]
  {
    if x in xs[..|xs| - 1] then
      var i := FirstIndex(xs[..|xs| - 1], x);
      assert xs[..|xs| - 1][..i] == xs[..i];
      i
    else |xs| - 1
  }

  lemma FirstIndexSnoc(xs: seq<string>, last: string, x: string)
    requires x in xs
    ensures FirstIndex(xs + [last], x) == FirstIndex(xs, x)
  {
    assert (xs + [last])[..|xs|] == xs;
  }

  /** `r` lists the non-empty members of `xs` sorted by first occurrence, which
      also says that none is there twice. */
  ghost predicate FirstOccurrences(r: seq<string>, xs: seq<string>) {
    && (forall x :: x in r <==> x in xs && x != "")
    && (forall i, j :: 0 <= i < j < |r| ==>
          r[i] in xs && r[j] in xs && FirstIndex(xs, r[i]) < FirstIndex(xs, r[j]))
  }

  lemma {:induction false} DedupIsFirstOccurrences(xs: seq<string>)
    ensures FirstOccurrences(Dedup(xs), xs)
  {
    if xs != [] {
      var init, last := xs[..|xs| - 1], xs[|xs| - 1];
      DedupIsFirstOccurrences(init);
      assert xs == init + [last];
      FirstOccurrencesSnoc(Dedup(init), init, last);
    }
  }

  lemma FirstIndexLast(xs: seq<string>, last: string)
    requires last !in xs
    ensures FirstIndex(xs + [last], last) == |xs|
  {
    assert (xs + [last])[..|xs|] == xs;
  }

  lemma FirstOccurrencesSnoc(r: seq<string>, xs: seq<string>, last: string)
    requires FirstOccurrences(r, xs)
    ensures FirstOccurrences(Add(r, last), xs + [last])
  {
    hide FirstIndex;
    var r', xs' := Add(r, last), xs + [last];
    forall x
      ensures x in r' <==> x in xs' && x != ""
    {
    }
    forall i, j | 0 <= i < j < |r'|
      ensures r'[i] in xs' && r'[j] in xs' && FirstIndex(xs', r'[i]) < FirstIndex(xs', r'[j])
    {
      FirstIndexSnoc(xs, last, r'[i]);
      if j < |r| {
        FirstIndexSnoc(xs, last, r'[j]);
      } else {
        FirstIndexLast(xs, last);
      }
    }
  }

  lemma AddAllNothing(list: seq<string>, xs: seq<string>)
    ensures AddAll(list, xs[..0]) == list
  {
  }

  lemma AddAllNext(list: seq<string>, xs: seq<string>, k: nat)
    requires k < |xs|
    ensures AddAll(list, xs[..k + 1]) == Add(AddAll(list, xs[..k]), xs[k])
  {
    assert xs[..k + 1][..k] == xs[..k];
  }

  lemma {:induction false} AddAllConcat(list: seq<string>, xs: seq<string>, ys: seq<string>)
    ensures AddAll(list, xs + ys) == AddAll(AddAll(list, xs), ys)
  {
    if ys == [] {
      assert xs + ys == xs;
    } else {
      assert (xs + ys)[..|xs + ys| - 1] == xs + ys[..|ys| - 1];
      AddAllConcat(list, xs, ys[..|ys| - 1]);
    }
  }

  lemma {:induction false} AddAllHolds(list: seq<string>, xs: seq<string>)
    ensures forall x :: x in AddAll(list, xs) <==> x in list || (x in xs && x != "")
  {
    if xs != [] {
      AddAllHolds(list, xs[..|xs| - 1]);
      assert xs == xs[..|xs| - 1] + [xs[|xs| - 1]];
    }
  }

  /** Handing a list over after it was deduplicated is like handing over every
      call. */
  lemma {:induction false} AddAllDedup(list: seq<string>, xs: seq<string>)
    ensures AddAll(list, Dedup(xs)) == AddAll(list, xs)
  {
    if xs != [] {
      var init, last := xs[..|xs| - 1], xs[|xs| - 1];
      AddAllDedup(list, init);
      AddAllHolds([], init);
      AddAllHolds(list, init);
      var d := Dedup(init);
      if last != "" && last !in d {
        assert (d + [last])[..|d|] == d;
      }
    }
  }

  /** Over the two passes of a page: what the list holds is the first occurrences
      of the calls before, during and after the view. */
  lemma TwoPassDedup(early: seq<string>, view: seq<string>, layout: seq<string>)
    ensures AddAll(AddAll(Dedup(early), Dedup(view)), layout) == Dedup(early + view + layout)
  {
    AddAllDedup(Dedup(early), view);
    AddAllConcat([], early, view);
    AddAllConcat([], early + view, layout);
  }

  // ------------------------------------------------------------------------
  // The two-tier list
  // ------------------------------------------------------------------------

  class AssetList {
    const slots: array<string>
    var overflow: seq<string>
    var n: nat

    ghost predicate Valid()
      reads this
    {
      && slots.Length == ASSET_INLINE_CAP
      && |overflow| == if n <= ASSET_INLINE_CAP then 0 else n - ASSET_INLINE_CAP
    }

    function InlineN(): (k: nat)
      reads this
      ensures k <= ASSET_INLINE_CAP
    {
      if n > ASSET_INLINE_CAP then ASSET_INLINE_CAP else n
    }

    function Contents(): seq<string>
      requires Valid()
      reads this, slots
    {
      slots[..InlineN()] + overflow
    }

    constructor ()
      ensures Valid() && fresh(slots) && Contents() == []
    {
      slots := new string[ASSET_INLINE_CAP](_ => "");
      overflow := [];
      n := 0;
    }

    method Requires(x: string)
      requires Valid()
      modifies this, slots
      ensures Valid() && Contents() == Add(old(Contents()), x)
    {
      if x == "" {
        return;
      }
      var i := 0;
      while i < InlineN()
        invariant 0 <= i <= InlineN()
        invariant x !in slots[..i]
      {
        if slots[i] == x {
          assert Contents()[i] == x;
          return;
        }
        i := i + 1;
      }
      i := 0;
      while i < |overflow|
        invariant 0 <= i <= |overflow|
        invariant x !in overflow[..i]
      {
        if overflow[i] == x {
          return;
        }
        i := i + 1;
      }
      assert overflow[..i] == overflow;
      if n < ASSET_INLINE_CAP {
        slots[n] := x;
        n := n + 1;
        return;
      }
      overflow := overflow + [x];
      n := n + 1;
      Assoc(slots[..], old(overflow), [x]);
      assert slots[..InlineN()] == slots[..];
    }

    method Clear()
      requires Valid()
      modifies this, slots
      ensures Valid() && Contents() == []
    {
      var i := 0;
      while i < InlineN()
        invariant 0 <= i <= InlineN()
      {
        slots[i] := "";
        i := i + 1;
      }
      overflow := [];
      n := 0;
    }

    /** The transfer after the view pass: every entry is required here too. */
    method Take(from: AssetList)
      requires Valid() && from.Valid() && from != this && from.slots != slots
      modifies this, slots
      ensures Valid() && Contents() == AddAll(old(Contents()), from.Contents())
    {
      hide AddAll, Add;
      ghost var was, given := Contents(), from.Contents();
      AddAllNothing(was, given);
      var i := 0;
      while i < from.InlineN()
        invariant 0 <= i <= from.InlineN() && Valid()
        invariant Contents() == AddAll(was, given[..i])
      {
        AddAllNext(was, given, i);
        Requires(from.slots[i]);
        i := i + 1;
      }
      var j := 0;
      while j < |from.overflow|
        invariant 0 <= j <= |from.overflow| && Valid()
        invariant Contents() == AddAll(was, given[..i + j])
      {
        AddAllNext(was, given, i + j);
        Requires(from.overflow[j]);
        j := j + 1;
      }
      assert given[..i + j] == given;
    }
  }

  // ------------------------------------------------------------------------
  // The tags
  // ------------------------------------------------------------------------

  function CssTag(href: string): string {
    "<link rel=\"stylesheet\" href=\"" + Escape(href) + "\">"
  }

  function JsTag(src: string): string {
    "<script defer src=\"" + Escape(src) + "\"></script>"
  }

  function Tags(xs: seq<string>, tag: string -> string): string {
    if xs == [] then "" else Tags(xs[..|xs| - 1], tag) + tag(xs[|xs| - 1])
  }

  lemma TagsNothing(before: string, xs: seq<string>, tag: string -> string)
    ensures before + Tags(xs[..0], tag) == before
  {
  }

  lemma TagsNext(before: string, xs: seq<string>, k: nat, tag: string -> string)
    requires k < |xs|
    ensures before + Tags(xs[..k + 1], tag) == before + Tags(xs[..k], tag) + tag(xs[k])
  {
    assert xs[..k + 1][..k] == xs[..k];
    Assoc(before, Tags(xs[..k], tag), tag(xs[k]));
  }

  /** Writes one tag for each entry, inline ones first. */
  method WriteList(w: Sink, list: AssetList, tag: string -> string)
    requires list.Valid()
    modifies w
    ensures w.out == old(w.out) + Tags(list.Contents(), tag)
  {
    hide Tags;
    ghost var before, xs := w.out, list.Contents();
    TagsNothing(before, xs, tag);
    var i := 0;
    while i < list.InlineN()
      invariant 0 <= i <= list.InlineN()
      invariant w.out == before + Tags(xs[..i], tag)
    {
      TagsNext(before, xs, i, tag);
      w.Write(tag(list.slots[i]));
      i := i + 1;
    }
    var j := 0;
    while j < |list.overflow|
      invariant 0 <= j <= |list.overflow|
      invariant w.out == before + Tags(xs[..i + j], tag)
    {
      TagsNext(before, xs, i + j, tag);
      w.Write(tag(list.overflow[j]));
      j := j + 1;
    }
    assert xs[..i + j] == xs;
  }

  method WriteAssetTags(w: Sink, css: AssetList, js: AssetList)
    requires css.Valid() && js.Valid()
    modifies w
    ensures w.out == old(w.out) + Tags(css.Contents(), CssTag) + Tags(js.Contents(), JsTag)
  {
    WriteList(w, css, CssTag);
    WriteList(w, js, JsTag);
  }
}
