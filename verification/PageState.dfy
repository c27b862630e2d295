/** The head state of a page over its two passes (page.go): the view renders in
    a context of its own, whose state is then handed over to the layout's. */
module PageState {
  import opened Wrappers
  import opened Sequences
  import opened Escaping
  import opened Assets
  import opened HeadState

  /** What components may do to the head state while a pass renders. */
  datatype Call =
    | SetTitle(title: string)
    | AddMeta(name: string, content: string)
    | RequiresCSS(href: string)
    | RequiresJS(src: string)
    | UseId

  datatype Head = Head(title: string, metas: seq<Meta>, css: seq<string>, js: seq<string>, idSeq: nat)

  const FRESH := Head("", [], [], [], 0)

  function Step(h: Head, c: Call): Head {
    match c
    case SetTitle(title) => h.(title := title)
    case AddMeta(name, content) => h.(metas := SetMeta(h.metas, Meta(name, content)))
    case RequiresCSS(href) => h.(css := Add(h.css, href))
    case RequiresJS(src) => h.(js := Add(h.js, src))
    case UseId => h.(idSeq := h.idSeq + 1)
  }

  function Run(h: Head, calls: seq<Call>): Head {
    if calls == [] then h else Step(Run(h, calls[..|calls| - 1]), calls[|calls| - 1])
  }

  /** The ids handed out during the calls. */
  function Issued(h: Head, calls: seq<Call>): seq<string> {
    if calls == [] then []
    else
      var before := calls[..|calls| - 1];
      Issued(h, before) + if calls[|calls| - 1].UseId? then [Id(Run(h, before).idSeq + 1)] else []
  }

  /** The hand-over after the view pass. */
  function Transfer(layout: Head, view: Head): Head {
    Head(view.title, SetAll(layout.metas, view.metas),
         AddAll(layout.css, view.css), AddAll(layout.js, view.js), view.idSeq)
  }

  // ------------------------------------------------------------------------
  // What the calls ask for
  // ------------------------------------------------------------------------

  function MetasIn(calls: seq<Call>): seq<Meta> {
    if calls == [] then []
    else
      var last := calls[|calls| - 1];
      MetasIn(calls[..|calls| - 1]) + if last.AddMeta? then [Meta(last.name, last.content)] else []
  }

  function CssIn(calls: seq<Call>): seq<string> {
    if calls == [] then []
    else
      var last := calls[|calls| - 1];
      CssIn(calls[..|calls| - 1]) + if last.RequiresCSS? then [last.href] else []
  }

  function JsIn(calls: seq<Call>): seq<string> {
    if calls == [] then []
    else
      var last := calls[|calls| - 1];
      JsIn(calls[..|calls| - 1]) + if last.RequiresJS? then [last.src] else []
  }

  function IdCount(calls: seq<Call>): nat {
    if calls == [] then 0
    else IdCount(calls[..|calls| - 1]) + if calls[|calls| - 1].UseId? then 1 else 0
  }

  function TitleAfter(title: string, calls: seq<Call>): string {
    if calls == [] then title
    else if calls[|calls| - 1].SetTitle? then calls[|calls| - 1].title
    else TitleAfter(title, calls[..|calls| - 1])
  }

  predicate SetsTitle(calls: seq<Call>) {
    exists c :: c in calls && c.SetTitle?
  }

  /** Calls that set no title keep it; others do not care what it was. */
  lemma {:induction false} TitleIsSet(title: string, calls: seq<Call>)
    ensures TitleAfter(title, calls) == if SetsTitle(calls) then TitleAfter("", calls) else title
    ensures !SetsTitle(calls) ==> TitleAfter("", calls) == ""
  {
    if calls != [] {
      var init := calls[..|calls| - 1];
      TitleIsSet(title, init);
      assert calls == init + [calls[|calls| - 1]];
    }
  }

  /** A pass collects each kind of call on its own. */
  lemma {:induction false} RunCollects(h: Head, calls: seq<Call>)
    ensures Run(h, calls) == Head(TitleAfter(h.title, calls), SetAll(h.metas, MetasIn(calls)),
                                  AddAll(h.css, CssIn(calls)), AddAll(h.js, JsIn(calls)), h.idSeq + IdCount(calls))
    ensures Issued(h, calls) == Ids(h.idSeq, IdCount(calls))
  {
    if calls != [] {
      var before, last := calls[..|calls| - 1], calls[|calls| - 1];
      RunCollects(h, before);
      hide SetAll, AddAll, SetMeta, Add, Id, Ids;
      match last {
        case AddMeta(name, content) => SetAllSnoc(h.metas, MetasIn(before), Meta(name, content));
        case RequiresCSS(href) => AddAllSnoc(h.css, CssIn(before), href);
        case RequiresJS(src) => AddAllSnoc(h.js, JsIn(before), src);
        case UseId => IdsSnoc(h.idSeq, IdCount(before));
        case SetTitle(_) =>
      }
      assert MetasIn(before) + [] == MetasIn(before) && CssIn(before) + [] == CssIn(before);
      assert JsIn(before) + [] == JsIn(before) && Issued(h, before) + [] == Issued(h, before);
    }
  }

  lemma SetAllSnoc(ms: seq<Meta>, calls: seq<Meta>, m: Meta)
    ensures SetAll(ms, calls + [m]) == SetMeta(SetAll(ms, calls), m)
  {
    assert (calls + [m])[..|calls|] == calls;
  }

  lemma AddAllSnoc(list: seq<string>, xs: seq<string>, x: string)
    ensures AddAll(list, xs + [x]) == Add(AddAll(list, xs), x)
  {
    assert (xs + [x])[..|xs|] == xs;
  }

  lemma IdsSnoc(from: nat, count: nat)
    ensures Ids(from, count + 1) == Ids(from, count) + [Id(from + count + 1)]
  {
  }

  // ------------------------------------------------------------------------
  // The page
  // ------------------------------------------------------------------------

  /** The layout's head after the calls made before the view, by the view, and by
      the layout up to the point where the tags are written. */
  function PageHead(early: seq<Call>, view: seq<Call>, layout: seq<Call>): Head {
    Run(Transfer(Run(FRESH, early), Run(FRESH, view)), layout)
  }

  lemma MetasConcat(a: seq<Call>, b: seq<Call>)
    ensures MetasIn(a + b) == MetasIn(a) + MetasIn(b)
    ensures CssIn(a + b) == CssIn(a) + CssIn(b)
    ensures JsIn(a + b) == JsIn(a) + JsIn(b)
  {
    if b == [] {
      assert a + b == a;
    } else {
      assert (a + b)[..|a + b| - 1] == a + b[..|b| - 1];
      MetasConcat(a, b[..|b| - 1]);
    }
  }

  /** The assets of a page are the first occurrences over all its calls, across
      the hand-over; each meta name has the position of its first call and the
      content of its last; the title is the layout's last, else the view's, so it is
      the last of all exactly when one of them sets it or none was set before. */
  lemma PageKeepsHead(early: seq<Call>, view: seq<Call>, layout: seq<Call>)
    ensures var h, all := PageHead(early, view, layout), early + view + layout;
            && FirstOccurrences(h.css, CssIn(all))
            && FirstOccurrences(h.js, JsIn(all))
            && FirstOccurrences(NamesOf(h.metas), NamesOf(MetasIn(all)))
            && (forall i :: 0 <= i < |h.metas| ==>
                  LastContent(MetasIn(all), h.metas[i].name) == Some(h.metas[i].content))
            && h.title == TitleAfter("", view + layout)
            && (h.title == TitleAfter("", all) <==> SetsTitle(view + layout) || TitleAfter("", early) == "")
  {
    var before := Run(FRESH, early);
    var seen := Run(FRESH, view);
    RunCollects(FRESH, early);
    RunCollects(FRESH, view);
    RunCollects(Transfer(before, seen), layout);
    MetasConcat(early, view);
    MetasConcat(early + view, layout);
    TwoPassDedup(CssIn(early), CssIn(view), CssIn(layout));
    TwoPassDedup(JsIn(early), JsIn(view), JsIn(layout));
    TwoPassMeta(MetasIn(early), MetasIn(view), MetasIn(layout));
    DedupIsFirstOccurrences(CssIn(early + view + layout));
    DedupIsFirstOccurrences(JsIn(early + view + layout));
    TitleConcat("", view, layout);
    Assoc(early, view, layout);
    TitleConcat("", early, view + layout);
    TitleIsSet(TitleAfter("", early), view + layout);
  }

  lemma {:induction false} TitleConcat(title: string, a: seq<Call>, b: seq<Call>)
    ensures TitleAfter(title, a + b) == TitleAfter(TitleAfter(title, a), b)
  {
    if b == [] {
      assert a + b == a;
    } else {
      assert (a + b)[..|a + b| - 1] == a + b[..|b| - 1];
      TitleConcat(title, a, b[..|b| - 1]);
    }
  }

  /** The ids of a page never collide exactly when the layout's context handed out
      none before the view, or nothing after it asks for one. */
  lemma PageKeepsIds(early: seq<Call>, view: seq<Call>, layout: seq<Call>)
    ensures var start := Transfer(Run(FRESH, early), Run(FRESH, view));
            NoDuplicates(Issued(FRESH, early) + Issued(FRESH, view) + Issued(start, layout))
            <==> IdCount(early) == 0 || IdCount(view) + IdCount(layout) == 0
  {
    var start := Transfer(Run(FRESH, early), Run(FRESH, view));
    RunCollects(FRESH, early);
    RunCollects(FRESH, view);
    RunCollects(start, layout);
    var k, v, l := IdCount(early), IdCount(view), IdCount(layout);
    assert start.idSeq == v;
    hide Run, Issued, IdCount, NoDuplicates, Ids, Transfer, SetAll, AddAll;
    PageIdsDistinct(k, v, l);
  }

  // ------------------------------------------------------------------------
  // The contexts
  // ------------------------------------------------------------------------

  class HeadContext {
    var title: string
    const metas: MetaTable
    const css: AssetList
    const js: AssetList
    var idSeq: nat

    ghost function Repr(): set<object>
      reads this
    {
      {this, metas, metas.slots, css, css.slots, js, js.slots}
    }

    ghost predicate Valid()
      reads Repr()
    {
      metas.Valid() && css.Valid() && js.Valid() && css != js && css.slots != js.slots
    }

    function View(): Head
      requires Valid()
      reads Repr()
    {
      Head(title, metas.Contents(), css.Contents(), js.Contents(), idSeq)
    }

    constructor ()
      ensures Valid() && fresh(Repr()) && View() == FRESH
    {
      title := "";
      metas := new MetaTable();
      css := new AssetList();
      js := new AssetList();
      idSeq := 0;
    }

    /** Reuse of a pooled context. */
    method ClearHeadState()
      requires Valid()
      modifies Repr()
      ensures Valid() && View() == FRESH
    {
      title := "";
      metas.Clear();
      idSeq := 0;
      css.Clear();
      js.Clear();
    }

    /** The next id; the first ones come from the table. */
    method NextId(table: array<string>) returns (id: string)
      requires IsIDTable(table[..])
      modifies this`idSeq
      ensures idSeq == old(idSeq) + 1 && id == Id(idSeq)
    {
      idSeq := idSeq + 1;
      if idSeq <= table.Length {
        id := table[idSeq - 1];
        assert id == table[..][idSeq - 1];
      } else {
        id := "nano-" + Itoa(idSeq);
      }
    }

    /** One call of a component, and the ids it hands out. */
    method Do(c: Call, table: array<string>) returns (ids: seq<string>)
      requires Valid() && IsIDTable(table[..])
      requires table != css.slots && table != js.slots
      modifies Repr()
      ensures Valid() && View() == Step(old(View()), c)
      ensures ids == Issued(old(View()), [c])
    {
      assert [c][..0] == [];
      ids := [];
      match c
      case SetTitle(t) => title := t;
      case AddMeta(name, content) => metas.AddMeta(name, content);
      case RequiresCSS(href) => css.Requires(href);
      case RequiresJS(src) => js.Requires(src);
      case UseId =>
        var id := NextId(table);
        ids := [id];
    }

    /** The hand-over from the view's context. */
    method TakeFrom(view: HeadContext)
      requires Valid() && view.Valid() && Repr() !! view.Repr()
      modifies Repr()
      ensures Valid() && View() == Transfer(old(View()), view.View())
    {
      hide AddAll, SetAll;
      title := view.title;
      metas.Take(view.metas);
      css.Take(view.css);
      js.Take(view.js);
      idSeq := view.idSeq;
    }

    /** What the head and asset components of a layout write. */
    method WriteTags(w: Sink)
      requires Valid()
      modifies w
      ensures var h := View();
              w.out == old(w.out) + TitleTag(h.title) + MetaTags(h.metas) + Tags(h.css, CssTag) + Tags(h.js, JsTag)
    {
      WriteHeadTags(w, title, metas);
      WriteAssetTags(w, css, js);
    }
  }
}
