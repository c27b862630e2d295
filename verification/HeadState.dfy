/** The document head of a request (head.go): meta tags by name, and the
    sequence of element ids. */
module HeadState {
  import opened Wrappers
  import opened Sequences
  import opened Escaping
  import opened Assets

  const META_INLINE_CAP: nat := 16

  // ------------------------------------------------------------------------
  // Meta tags: the first position and the last content of each name
  // ------------------------------------------------------------------------

  datatype Meta = Meta(name: string, content: string)

  function NamesOf(ms: seq<Meta>): (r: seq<string>)
    ensures |r| == |ms|
    ensures forall i :: 0 <= i < |ms| ==> r[i] == ms[i].name
  {
    seq(|ms|, i requires 0 <= i < |ms| => ms[i].name)
  }

  function IndexOf(ms: seq<Meta>, name: string): (i: nat)
    ensures i <= |ms|
    ensures i < |ms| ==> ms[i].name == name
    ensures forall j :: 0 <= j < i ==> ms[j].name != name
  {
    if ms == [] then 0
    else if ms[0].name == name then 0
    else IndexOf(ms[1..], name) + 1
  }

  function SetMeta(ms: seq<Meta>, m: Meta): seq<Meta> {
    if m.name == "" then ms
    else
      var i := IndexOf(ms, m.name);
      if i < |ms| then ms[i := m] else ms + [m]
  }

  function SetAll(ms: seq<Meta>, calls: seq<Meta>): seq<Meta> {
    if calls == [] then ms else SetMeta(SetAll(ms, calls[..|calls| - 1]), calls[|calls| - 1])
  }

  lemma SetAllNothing(ms: seq<Meta>, calls: seq<Meta>)
    ensures SetAll(ms, calls[..0]) == ms
  {
  }

  lemma SetAllNext(ms: seq<Meta>, calls: seq<Meta>, k: nat)
    requires k < |calls|
    ensures SetAll(ms, calls[..k + 1]) == SetMeta(SetAll(ms, calls[..k]), calls[k])
  {
    assert calls[..k + 1][..k] == calls[..k];
  }

  /** What the last call for a name set it to. */
  function LastContent(calls: seq<Meta>, name: string): Option<string> {
    if calls == [] then None
    else if calls[|calls| - 1].name == name then Some(calls[|calls| - 1].content)
    else LastContent(calls[..|calls| - 1], name)
  }

  /** A table has its names once each; given the names, the contents are a map. */
  ghost predicate IsTable(ms: seq<Meta>) {
    && (forall i, j :: 0 <= i < j < |ms| ==> ms[i].name != ms[j].name)
    && (forall i :: 0 <= i < |ms| ==> ms[i].name != "")
  }

  /** What a table that started as `start` holds after the calls. */
  ghost predicate HoldsLast(ms: seq<Meta>, start: seq<Meta>, calls: seq<Meta>) {
    forall i :: 0 <= i < |ms| ==>
      Some(ms[i].content) == match LastContent(calls, ms[i].name)
                             case Some(content) => Some(content)
                             case None => LastContent(start, ms[i].name)
  }

  lemma SetMetaNames(ms: seq<Meta>, m: Meta)
    requires IsTable(ms)
    ensures IsTable(SetMeta(ms, m))
    ensures NamesOf(SetMeta(ms, m)) == Add(NamesOf(ms), m.name)
  {
    var i := IndexOf(ms, m.name);
    if i < |ms| {
      assert NamesOf(ms)[i] == m.name;
    } else {
      assert m.name !in NamesOf(ms);
      assert NamesOf(ms + [m]) == NamesOf(ms) + [m.name];
    }
  }

  /** Positions are those of the first calls for each name. */
  lemma {:induction false} SetAllNames(ms: seq<Meta>, calls: seq<Meta>)
    requires IsTable(ms)
    ensures IsTable(SetAll(ms, calls))
    ensures NamesOf(SetAll(ms, calls)) == AddAll(NamesOf(ms), NamesOf(calls))
  {
    if calls != [] {
      var init, last := calls[..|calls| - 1], calls[|calls| - 1];
      SetAllNames(ms, init);
      SetMetaNames(SetAll(ms, init), last);
      assert NamesOf(calls)[..|calls| - 1] == NamesOf(init);
    }
  }

  lemma {:induction false} LastInTable(ms: seq<Meta>, i: nat)
    requires IsTable(ms) && i < |ms|
    ensures LastContent(ms, ms[i].name) == Some(ms[i].content)
  {
    if i < |ms| - 1 {
      LastInTable(ms[..|ms| - 1], i);
    }
  }

  /** Contents are those of the last calls for each name. */
  lemma {:induction false} SetAllContents(ms: seq<Meta>, calls: seq<Meta>)
    requires IsTable(ms)
    ensures HoldsLast(SetAll(ms, calls), ms, calls)
  {
    if calls == [] {
      forall i | 0 <= i < |ms|
        ensures LastContent(ms, ms[i].name) == Some(ms[i].content)
      {
        LastInTable(ms, i);
      }
    } else {
      var init, last := calls[..|calls| - 1], calls[|calls| - 1];
      SetAllContents(ms, init);
      SetAllNames(ms, init);
      SetMetaContents(SetAll(ms, init), ms, init, last);
      assert init + [last] == calls;
    }
  }

  lemma SetMetaContents(table: seq<Meta>, start: seq<Meta>, calls: seq<Meta>, m: Meta)
    requires IsTable(table) && HoldsLast(table, start, calls)
    ensures HoldsLast(SetMeta(table, m), start, calls + [m])
  {
    assert (calls + [m])[..|calls|] == calls;
    var table' := SetMeta(table, m);
    forall i | 0 <= i < |table'| && table'[i].name != m.name
      ensures i < |table| && table'[i] == table[i]
    {
    }
  }

  /** Names and contents determine a table. */
  lemma SameTable(a: seq<Meta>, b: seq<Meta>, start: seq<Meta>, xs: seq<Meta>, ys: seq<Meta>)
    requires NamesOf(a) == NamesOf(b) && HoldsLast(a, start, xs) && HoldsLast(b, start, ys)
    requires forall name: string :: name != "" ==> LastContent(xs, name) == LastContent(ys, name)
    requires IsTable(a)
    ensures a == b
  {
    assert |a| == |NamesOf(a)| == |b|;
    forall i | 0 <= i < |a|
      ensures a[i] == b[i]
    {
      assert NamesOf(a)[i] == NamesOf(b)[i];
      assert LastContent(xs, a[i].name) == LastContent(ys, a[i].name);
    }
  }

  lemma {:induction false} NoCallNoContent(calls: seq<Meta>, name: string)
    ensures LastContent(calls, name).None? <==> name !in NamesOf(calls)
  {
    if calls != [] {
      var init := calls[..|calls| - 1];
      NoCallNoContent(init, name);
      assert NamesOf(calls) == NamesOf(init) + [calls[|calls| - 1].name];
    }
  }

  /** Replaying a table sets what the calls that made it set. */
  lemma LastOfTable(calls: seq<Meta>, name: string)
    requires name != ""
    ensures LastContent(SetAll([], calls), name) == LastContent(calls, name)
  {
    var table := SetAll([], calls);
    SetAllNames([], calls);
    SetAllContents([], calls);
    AddAllHolds([], NamesOf(calls));
    assert NamesOf([]) == [];
    NoCallNoContent(calls, name);
    NoCallNoContent(table, name);
    if name in NamesOf(table) {
      var i :| 0 <= i < |table| && NamesOf(table)[i] == name;
      LastInTable(table, i);
    }
  }

  lemma SetAllTable(ms: seq<Meta>, calls: seq<Meta>)
    requires IsTable(ms)
    ensures SetAll(ms, SetAll([], calls)) == SetAll(ms, calls)
  {
    var table := SetAll([], calls);
    SetAllNames([], calls);
    assert NamesOf([]) == [];
    SetAllNames(ms, calls);
    SetAllNames(ms, table);
    AddAllDedup(NamesOf(ms), NamesOf(calls));
    SetAllContents(ms, calls);
    SetAllContents(ms, table);
    forall name: string | name != ""
      ensures LastContent(table, name) == LastContent(calls, name)
    {
      LastOfTable(calls, name);
    }
    SameTable(SetAll(ms, table), SetAll(ms, calls), ms, table, calls);
  }

  lemma {:induction false} SetAllConcat(ms: seq<Meta>, xs: seq<Meta>, ys: seq<Meta>)
    ensures SetAll(ms, xs + ys) == SetAll(SetAll(ms, xs), ys)
  {
    if ys == [] {
      assert xs + ys == xs;
    } else {
      assert (xs + ys)[..|xs + ys| - 1] == xs + ys[..|ys| - 1];
      SetAllConcat(ms, xs, ys[..|ys| - 1]);
    }
  }

  /** Over the two passes of a page, each name keeps the position of its first
      call and the content of its last, among the calls before, during and after
      the view. */
  lemma TwoPassMeta(early: seq<Meta>, view: seq<Meta>, layout: seq<Meta>)
    ensures var all := early + view + layout;
            var table := SetAll(SetAll(SetAll([], early), SetAll([], view)), layout);
            && table == SetAll([], all)
            && FirstOccurrences(NamesOf(table), NamesOf(all))
            && forall i :: 0 <= i < |table| ==> LastContent(all, table[i].name) == Some(table[i].content)
  {
    var all := early + view + layout;
    SetAllNames([], early);
    SetAllTable(SetAll([], early), view);
    SetAllConcat([], early, view);
    SetAllConcat([], early + view, layout);
    SetAllNames([], all);
    assert NamesOf([]) == [];
    DedupIsFirstOccurrences(NamesOf(all));
    SetAllContents([], all);
    var table := SetAll([], all);
    forall i | 0 <= i < |table|
      ensures LastContent(all, table[i].name) == Some(table[i].content)
    {
      assert table[i].name == NamesOf(table)[i];
      NoCallNoContent(all, table[i].name);
      AddAllHolds([], NamesOf(all));
    }
  }

  // ------------------------------------------------------------------------
  // The two-tier table
  // ------------------------------------------------------------------------

  class MetaTable {
    const slots: array<Meta>
    var overflow: seq<Meta>
    var n: nat

    ghost predicate Valid()
      reads this
    {
      && slots.Length == META_INLINE_CAP
      && |overflow| == if n <= META_INLINE_CAP then 0 else n - META_INLINE_CAP
    }

    function InlineN(): (k: nat)
      reads this
      ensures k <= META_INLINE_CAP
    {
      if n > META_INLINE_CAP then META_INLINE_CAP else n
    }

    function Contents(): seq<Meta>
      requires Valid()
      reads this, slots
    {
      slots[..InlineN()] + overflow
    }

    constructor ()
      ensures Valid() && fresh(slots) && Contents() == []
    {
      slots := new Meta[META_INLINE_CAP](_ => Meta("", ""));
      overflow := [];
      n := 0;
    }

    lemma IndexIs(i: nat, name: string)
      requires Valid()
      requires i <= |Contents()| && forall j :: 0 <= j < i ==> Contents()[j].name != name
      requires i < |Contents()| ==> Contents()[i].name == name
      ensures IndexOf(Contents(), name) == i
    {
    }

    method AddMeta(name: string, content: string)
      requires Valid()
      modifies this, slots
      ensures Valid() && Contents() == SetMeta(old(Contents()), Meta(name, content))
    {
      hide IndexOf;
      if name == "" {
        return;
      }
      var i := 0;
      while i < InlineN()
        invariant 0 <= i <= InlineN()
        invariant forall j :: 0 <= j < i ==> slots[j].name != name
      {
        if slots[i].name == name {
          IndexIs(i, name);
          slots[i] := Meta(name, content);
          assert Contents() == old(Contents())[i := Meta(name, content)];
          return;
        }
        i := i + 1;
      }
      var k := 0;
      while k < |overflow|
        invariant 0 <= k <= |overflow|
        invariant forall j :: 0 <= j < k ==> overflow[j].name != name
      {
        if overflow[k].name == name {
          IndexIs(i + k, name);
          overflow := overflow[k := Meta(name, content)];
          assert Contents() == old(Contents())[i + k := Meta(name, content)];
          return;
        }
        k := k + 1;
      }
      IndexIs(i + k, name);
      if n < META_INLINE_CAP {
        slots[n] := Meta(name, content);
        n := n + 1;
        assert Contents() == old(Contents()) + [Meta(name, content)];
        return;
      }
      overflow := overflow + [Meta(name, content)];
      n := n + 1;
      assert Contents() == old(Contents()) + [Meta(name, content)];
    }

    method Clear()
      requires Valid()
      modifies this, slots
      ensures Valid() && Contents() == []
    {
      var i := 0;
      while i < InlineN()
        invariant 0 <= i <= InlineN()
      {
        slots[i] := Meta("", "");
        i := i + 1;
      }
      overflow := [];
      n := 0;
    }

    /** The transfer after the view pass. */
    method Take(from: MetaTable)
      requires Valid() && from.Valid() && from != this && from.slots != slots
      modifies this, slots
      ensures Valid() && Contents() == SetAll(old(Contents()), from.Contents())
    {
      hide SetAll, SetMeta;
      ghost var was, given := Contents(), from.Contents();
      SetAllNothing(was, given);
      var i := 0;
      while i < from.InlineN()
        invariant 0 <= i <= from.InlineN() && Valid()
        invariant Contents() == SetAll(was, given[..i])
      {
        SetAllNext(was, given, i);
        AddMeta(from.slots[i].name, from.slots[i].content);
        i := i + 1;
      }
      var j := 0;
      while j < |from.overflow|
        invariant 0 <= j <= |from.overflow| && Valid()
        invariant Contents() == SetAll(was, given[..i + j])
      {
        SetAllNext(was, given, i + j);
        AddMeta(from.overflow[j].name, from.overflow[j].content);
        j := j + 1;
      }
      assert given[..i + j] == given;
    }
  }

  // ------------------------------------------------------------------------
  // The tags
  // ------------------------------------------------------------------------

  function MetaTag(m: Meta): string {
    "<meta name=\"" + Escape(m.name) + "\" content=\"" + Escape(m.content) + "\">"
  }

  function MetaTags(ms: seq<Meta>): string {
    if ms == [] then "" else MetaTags(ms[..|ms| - 1]) + MetaTag(ms[|ms| - 1])
  }

  function TitleTag(title: string): string {
    if title == "" then "" else "<title>" + Escape(title) + "</title>"
  }

  lemma MetaTagsSnoc(ms: seq<Meta>, m: Meta)
    ensures MetaTags(ms + [m]) == MetaTags(ms) + MetaTag(m)
  {
    assert (ms + [m])[..|ms|] == ms;
  }

  method WriteHeadTags(w: Sink, title: string, metas: MetaTable)
    requires metas.Valid()
    modifies w
    ensures w.out == old(w.out) + TitleTag(title) + MetaTags(metas.Contents())
  {
    if title != "" {
      w.Write("<title>" + Escape(title) + "</title>");
    }
    WriteMetas(w, metas);
  }

  method WriteMetas(w: Sink, metas: MetaTable)
    requires metas.Valid()
    modifies w
    ensures w.out == old(w.out) + MetaTags(metas.Contents())
  {
    hide MetaTag;
    ghost var start := w.out;
    var i := 0;
    while i < metas.InlineN()
      invariant 0 <= i <= metas.InlineN()
      invariant w.out == start + MetaTags(metas.slots[..i])
    {
      MetaTagsSnoc(metas.slots[..i], metas.slots[i]);
      assert metas.slots[..i + 1] == metas.slots[..i] + [metas.slots[i]];
      Assoc(start, MetaTags(metas.slots[..i]), MetaTag(metas.slots[i]));
      w.Write(MetaTag(metas.slots[i]));
      i := i + 1;
    }
    var j := 0;
    assert metas.slots[..i] + metas.overflow[..j] == metas.slots[..i];
    while j < |metas.overflow|
      invariant 0 <= j <= |metas.overflow|
      invariant w.out == start + MetaTags(metas.slots[..i] + metas.overflow[..j])
    {
      ghost var sofar := metas.slots[..i] + metas.overflow[..j];
      assert metas.slots[..i] + metas.overflow[..j + 1] == sofar + [metas.overflow[j]];
      MetaTagsSnoc(sofar, metas.overflow[j]);
      Assoc(start, MetaTags(sofar), MetaTag(metas.overflow[j]));
      w.Write(MetaTag(metas.overflow[j]));
      j := j + 1;
    }
    assert metas.overflow[..j] == metas.overflow;
  }

  // ------------------------------------------------------------------------
  // Element ids
  // ------------------------------------------------------------------------

  const ID_TABLE_SIZE: nat := 256

  function Digit(d: nat): char
    requires d < 10
  {
    '0' + d as char
  }

  /** The decimal form of a number. */
  function Itoa(n: nat): (s: string)
    ensures s != ""
  {
    if n < 10 then [Digit(n)] else Itoa(n / 10) + [Digit(n % 10)]
  }

  function Atoi(s: string): int {
    if s == "" then 0 else Atoi(s[..|s| - 1]) * 10 + (s[|s| - 1] as int - '0' as int)
  }

  lemma {:induction false} AtoiItoa(n: nat)
    ensures Atoi(Itoa(n)) == n
  {
    if n >= 10 {
      AtoiItoa(n / 10);
      assert Itoa(n)[..|Itoa(n)| - 1] == Itoa(n / 10);
    } else {
      assert Itoa(n)[..0] == "";
    }
  }

  function Id(n: nat): string {
    "nano-" + Itoa(n)
  }

  /** An id is the prefix and a decimal that reads back as the number. */
  lemma IdReads(n: nat)
    ensures |Id(n)| > 5 && Id(n)[..5] == "nano-" && Atoi(Id(n)[5..]) == n
  {
    AtoiItoa(n);
    assert Id(n)[5..] == Itoa(n);
  }

  /** Different numbers give different ids. */
  lemma IdInjective(m: nat, n: nat)
    ensures Id(m) == Id(n) <==> m == n
  {
    if Id(m) == Id(n) {
      assert Itoa(m) == Id(m)[5..] && Itoa(n) == Id(n)[5..];
      AtoiItoa(m);
      AtoiItoa(n);
    }
  }

  /** The table of the first ids, filled once. */
  method PrecomputeIDs() returns (table: array<string>)
    ensures fresh(table) && IsIDTable(table[..])
  {
    table := new string[ID_TABLE_SIZE](_ => "");
    for i := 0 to table.Length
      invariant forall j :: 0 <= j < i ==> table[j] == Id(j + 1)
    {
      table[i] := "nano-" + Itoa(i + 1);
    }
  }

  predicate IsIDTable(table: seq<string>) {
    |table| == ID_TABLE_SIZE && forall j :: 0 <= j < |table| ==> table[j] == Id(j + 1)
  }

  /** The ids handed out by `count` calls from sequence number `from`. */
  function Ids(from: nat, count: nat): (r: seq<string>)
    ensures |r| == count
    ensures forall i :: 0 <= i < count ==> r[i] == Id(from + i + 1)
  {
    seq(count, i requires 0 <= i < count => Id(from + i + 1))
  }

  lemma IdsDistinct(from: nat, count: nat)
    ensures NoDuplicates(Ids(from, count))
  {
    forall i, j | 0 <= i < j < count
      ensures Ids(from, count)[i] != Ids(from, count)[j]
    {
      IdInjective(from + i + 1, from + j + 1);
    }
  }

  lemma IdsConcat(from: nat, a: nat, b: nat)
    ensures Ids(from, a) + Ids(from + a, b) == Ids(from, a + b)
  {
  }

  /** Ids handed out before the view, by the view, and by the layout after the
      view's sequence was handed over. They are pairwise distinct exactly when
      none was handed out before the view, or none after: the layout's context
      must be fresh. */
  lemma PageIdsDistinct(early: nat, view: nat, layout: nat)
    ensures NoDuplicates(Ids(0, early) + Ids(0, view) + Ids(view, layout)) <==> early == 0 || view + layout == 0
  {
    hide Id, Ids, NoDuplicates;
    IdsConcat(0, view, layout);
    Assoc(Ids(0, early), Ids(0, view), Ids(view, layout));
    if early == 0 {
      assert Ids(0, early) + Ids(0, view + layout) == Ids(0, view + layout);
      IdsDistinct(0, view + layout);
    } else if view + layout == 0 {
      assert Ids(0, early) + Ids(0, view + layout) == Ids(0, early);
      IdsDistinct(0, early);
    } else {
      IdsRepeat(early, view + layout);
    }
  }

  /** Two counts from 1 share their first id. */
  lemma IdsRepeat(early: nat, late: nat)
    requires early > 0 && late > 0
    ensures !NoDuplicates(Ids(0, early) + Ids(0, late))
  {
    hide Id;
    var all := Ids(0, early) + Ids(0, late);
    assert all[0] == Id(1) && all[early] == Id(1);
  }
}
