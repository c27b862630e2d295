/** The lock-free copy-on-write loop behind the registries (component.go,
    page.go, preload.go), for any kind of snapshot: load the current pointer,
    build a new snapshot from it, and publish it with a compare-and-swap.

    `next(op, snapshot)` is the snapshot the operation builds, `None` when the
    operation finds nothing to do and returns. */
module CopyOnWrite {
  import opened Wrappers
  import opened Sequences

  /** Where a thread is in the loop. Calls are numbered; `at` remembers how many
      snapshots had been published when the pointer was loaded. */
  datatype Thread =
    | Idle
    | Looping(id: nat)
    | Loaded(id: nat, base: nat, at: nat)
    | Building(id: nat, base: nat, own: nat, at: nat)
    | Ready(id: nat, base: nat, own: nat, at: nat)

  /** Pointers index the heap. The last four fields are history: the calls made,
      the calls in the order they took effect, and what was ever published. */
  datatype State<Op, S> = State(
    heap: seq<S>,
    current: nat,
    threads: seq<Thread>,
    calls: seq<Op>,
    log: seq<nat>,
    published: set<nat>,
    pubs: nat)

  datatype Choice<Op, S> =
    | Call(t: nat, op: Op)
    | Load(t: nat)
    | Scan(t: nat, junk: S)
    | Scribble(t: nat, junk: S)
    | Fill(t: nat)
    | Swap(t: nat)

  function Init<Op, S>(threads: nat, first: S): State<Op, S> {
    State([first], 0, seq(threads, _ => Idle), [], [], {0}, 0)
  }

  predicate Enabled<Op, S>(s: State<Op, S>, c: Choice<Op, S>) {
    && c.t < |s.threads|
    && match c
       case Call(t, _) => s.threads[t].Idle?
       case Load(t) => s.threads[t].Looping?
       case Scan(t, _) => s.threads[t].Loaded?
       case Scribble(t, _) => s.threads[t].Building?
       case Fill(t) => s.threads[t].Building?
       case Swap(t) => s.threads[t].Ready?
  }

  /** The indices the thread uses exist. */
  predicate InHeap<Op, S>(s: State<Op, S>, th: Thread) {
    && (!th.Idle? ==> th.id < |s.calls|)
    && (th.Loaded? || th.Building? || th.Ready? ==> th.base < |s.heap|)
    && (th.Building? || th.Ready? ==> th.own < |s.heap|)
  }

  predicate Sane<Op, S>(s: State<Op, S>) {
    s.current < |s.heap| && forall t :: 0 <= t < |s.threads| ==> InHeap(s, s.threads[t])
  }

  /** An operation with nothing to do takes effect when it loads the pointer, any
      other when its swap succeeds. */
  function Apply<Op, S>(next: (Op, S) -> Option<S>, s: State<Op, S>, c: Choice<Op, S>): State<Op, S>
    requires Sane(s) && Enabled(s, c)
  {
    var th := s.threads[c.t];
    match c
    case Call(t, op) => s.(threads := s.threads[t := Looping(|s.calls|)], calls := s.calls + [op])
    case Load(t) =>
      s.(threads := s.threads[t := Loaded(th.id, s.current, s.pubs)],
         log := if next(s.calls[th.id], s.heap[s.current]).None? then s.log + [th.id] else s.log)
    case Scan(t, junk) =>
      if next(s.calls[th.id], s.heap[th.base]).None? then s.(threads := s.threads[t := Idle])
      else s.(threads := s.threads[t := Building(th.id, th.base, |s.heap|, th.at)], heap := s.heap + [junk])
    case Scribble(t, junk) => s.(heap := s.heap[th.own := junk])
    case Fill(t) =>
      var built := next(s.calls[th.id], s.heap[th.base]);
      s.(threads := s.threads[t := Ready(th.id, th.base, th.own, th.at)],
         heap := if built.Some? then s.heap[th.own := built.value] else s.heap)
    case Swap(t) =>
      if s.current == th.base then
        s.(current := th.own, published := s.published + {th.own}, pubs := s.pubs + 1,
           log := s.log + [th.id], threads := s.threads[t := Idle])
      else s.(threads := s.threads[t := Looping(th.id)])
  }

  // ------------------------------------------------------------------------
  // Sequential meaning
  // ------------------------------------------------------------------------

  function Do<Op, S>(next: (Op, S) -> Option<S>, op: Op, s: S): S {
    match next(op, s) case Some(s') => s' case None => s
  }

  function Fold<Op, S>(next: (Op, S) -> Option<S>, first: S, ops: seq<Op>): S {
    if ops == [] then first else Do(next, ops[|ops| - 1], Fold(next, first, ops[..|ops| - 1]))
  }

  predicate AreCalls(n: nat, log: seq<nat>) {
    forall j :: 0 <= j < |log| ==> log[j] < n
  }

  /** The operations in the order they took effect. */
  function OpsOf<Op>(calls: seq<Op>, log: seq<nat>): (r: seq<Op>)
    requires AreCalls(|calls|, log)
    ensures |r| == |log|
  {
    seq(|log|, j requires 0 <= j < |log| => calls[log[j]])
  }

  lemma OpsOfSnoc<Op>(calls: seq<Op>, log: seq<nat>, id: nat)
    requires AreCalls(|calls|, log) && id < |calls|
    ensures OpsOf(calls, log + [id]) == OpsOf(calls, log) + [calls[id]]
  {
  }

  lemma OpsOfCall<Op>(calls: seq<Op>, log: seq<nat>, op: Op)
    requires AreCalls(|calls|, log)
    ensures OpsOf(calls + [op], log) == OpsOf(calls, log)
  {
  }

  lemma FoldSnoc<Op, S>(next: (Op, S) -> Option<S>, first: S, ops: seq<Op>, op: Op)
    ensures Fold(next, first, ops + [op]) == Do(next, op, Fold(next, first, ops))
  {
    assert (ops + [op])[..|ops|] == ops;
  }

  // ------------------------------------------------------------------------
  // The invariant
  // ------------------------------------------------------------------------

  /** What a thread's local values mean. */
  ghost predicate ThreadFits<Op, S>(next: (Op, S) -> Option<S>, s: State<Op, S>, th: Thread)
    requires Sane(s) && InHeap(s, th)
  {
    match th
    case Idle => true
    case Looping(id) => id !in s.log
    case Loaded(id, base, at) =>
      && base in s.published
      && (id in s.log <==> next(s.calls[id], s.heap[base]).None?)
      && at <= s.pubs && (at == s.pubs ==> base == s.current)
    case Building(id, base, own, at) =>
      && base in s.published && own !in s.published && id !in s.log
      && next(s.calls[id], s.heap[base]).Some?
      && at <= s.pubs && (at == s.pubs ==> base == s.current)
    case Ready(id, base, own, at) =>
      && base in s.published && own !in s.published && id !in s.log
      && next(s.calls[id], s.heap[base]) == Some(s.heap[own])
      && at <= s.pubs && (at == s.pubs ==> base == s.current)
  }

  predicate HasOwn(th: Thread, p: nat) {
    (th.Building? || th.Ready?) && th.own == p
  }

  predicate HasId(th: Thread, id: nat) {
    !th.Idle? && th.id == id
  }

  /** No two threads build at the same address or serve the same call. */
  ghost predicate Apart(a: Thread, b: Thread) {
    && (forall p :: HasOwn(a, p) ==> !HasOwn(b, p))
    && (forall id :: HasId(a, id) ==> !HasId(b, id))
  }

  ghost predicate AllApart(threads: seq<Thread>) {
    forall t, u :: 0 <= t < |threads| && 0 <= u < |threads| && t != u ==> Apart(threads[t], threads[u])
  }

  ghost predicate InService(threads: seq<Thread>, id: nat) {
    exists t :: 0 <= t < |threads| && HasId(threads[t], id)
  }

  /** Each call takes effect at most once, and has done so when it has returned. */
  ghost predicate LogFits<Op, S>(s: State<Op, S>) {
    && AreCalls(|s.calls|, s.log)
    && NoDuplicates(s.log)
    && (forall id: nat :: id < |s.calls| ==> InService(s.threads, id) || id in s.log)
  }

  ghost predicate Inv<Op, S>(next: (Op, S) -> Option<S>, first: S, s: State<Op, S>) {
    && Sane(s)
    && s.current in s.published
    && (forall p :: p in s.published ==> p < |s.heap|)
    && (forall t :: 0 <= t < |s.threads| ==> ThreadFits(next, s, s.threads[t]))
    && AllApart(s.threads)
    && LogFits(s)
    && s.heap[s.current] == Fold(next, first, OpsOf(s.calls, s.log))
  }

  lemma InitInv<Op, S>(next: (Op, S) -> Option<S>, threads: nat, first: S)
    ensures Inv(next, first, Init(threads, first))
  {
    var s: State<Op, S> := Init(threads, first);
    assert OpsOf(s.calls, s.log) == [];
  }

  /** What a step of one thread may do to the others. */
  ghost predicate Gentle<Op, S>(s: State<Op, S>, s': State<Op, S>, th: Thread)
    requires Sane(s)
  {
    && Sane(s')
    && s.calls <= s'.calls
    && |s.heap| <= |s'.heap|
    && s.published <= s'.published
    && (forall p :: p in s.published && p < |s.heap| ==> s'.heap[p] == s.heap[p])
    && (forall p: nat :: HasOwn(th, p) && p < |s.heap| ==>
          s'.heap[p] == s.heap[p] && (p in s'.published ==> p in s.published))
    && (!th.Idle? ==> (th.id in s'.log <==> th.id in s.log))
    && (s'.pubs > s.pubs || (s'.pubs == s.pubs && s'.current == s.current))
  }

  lemma OthersFit<Op, S>(next: (Op, S) -> Option<S>, s: State<Op, S>, s': State<Op, S>, th: Thread)
    requires Sane(s) && InHeap(s, th) && ThreadFits(next, s, th) && Gentle(s, s', th)
    ensures InHeap(s', th) && ThreadFits(next, s', th)
  {
  }

  /** The step is gentle to every other thread. */
  lemma StepIsGentle<Op, S>(next: (Op, S) -> Option<S>, first: S, s: State<Op, S>, c: Choice<Op, S>, u: nat)
    requires Inv(next, first, s) && Enabled(s, c) && u < |s.threads| && u != c.t
    ensures Gentle(s, Apply(next, s, c), s.threads[u])
  {
    hide Fold, OpsOf, Do, Apart, ThreadFits;
    assert ThreadFits(next, s, s.threads[c.t]);
    assert Apart(s.threads[c.t], s.threads[u]);
    assert InHeap(s, s.threads[c.t]) && InHeap(s, s.threads[u]);
    assert ThreadFits(next, s, s.threads[u]);
    MoverIsGentle(next, s, c, s.threads[u]);
  }

  lemma MoverIsGentle<Op, S>(next: (Op, S) -> Option<S>, s: State<Op, S>, c: Choice<Op, S>, th: Thread)
    requires Sane(s) && Enabled(s, c) && InHeap(s, s.threads[c.t]) && InHeap(s, th)
    requires ThreadFits(next, s, s.threads[c.t]) && ThreadFits(next, s, th) && Apart(s.threads[c.t], th)
    ensures Gentle(s, Apply(next, s, c), th)
  {
    hide ThreadFits, Apart, HasOwn;
    MoverKeepsHeap(next, s, c, th);
    MoverKeepsLog(next, s, c, th);
  }

  lemma MoverKeepsHeap<Op, S>(next: (Op, S) -> Option<S>, s: State<Op, S>, c: Choice<Op, S>, th: Thread)
    requires Sane(s) && Enabled(s, c) && InHeap(s, s.threads[c.t]) && InHeap(s, th)
    requires ThreadFits(next, s, s.threads[c.t]) && Apart(s.threads[c.t], th)
    ensures var s' := Apply(next, s, c);
            && |s.heap| <= |s'.heap|
            && (forall p :: p in s.published && p < |s.heap| ==> s'.heap[p] == s.heap[p])
            && (forall p: nat :: HasOwn(th, p) && p < |s.heap| ==>
                  s'.heap[p] == s.heap[p] && (p in s'.published ==> p in s.published))
  {
    hide HasId;
  }

  lemma MoverKeepsLog<Op, S>(next: (Op, S) -> Option<S>, s: State<Op, S>, c: Choice<Op, S>, th: Thread)
    requires Sane(s) && Enabled(s, c) && InHeap(s, s.threads[c.t]) && InHeap(s, th)
    requires Apart(s.threads[c.t], th)
    ensures var s' := Apply(next, s, c);
            && (!th.Idle? ==> (th.id in s'.log <==> th.id in s.log))
            && (s'.pubs > s.pubs || (s'.pubs == s.pubs && s'.current == s.current))
  {
    hide ThreadFits, HasOwn;
    if !c.Call? {
      assert HasId(s.threads[c.t], s.threads[c.t].id);
    }
  }

  lemma OwnFits<Op, S>(next: (Op, S) -> Option<S>, first: S, s: State<Op, S>, c: Choice<Op, S>)
    requires Inv(next, first, s) && Enabled(s, c)
    ensures var s' := Apply(next, s, c); Sane(s') && ThreadFits(next, s', s'.threads[c.t])
  {
    hide Fold, OpsOf, Do;
    assert InHeap(s, s.threads[c.t]) && ThreadFits(next, s, s.threads[c.t]);
  }

  lemma StaysApart<Op, S>(next: (Op, S) -> Option<S>, first: S, s: State<Op, S>, c: Choice<Op, S>)
    requires Inv(next, first, s) && Enabled(s, c)
    ensures AllApart(Apply(next, s, c).threads)
  {
    hide Fold, OpsOf, Do, ThreadFits;
    var s' := Apply(next, s, c);
    var th := s'.threads[c.t];
    forall u | 0 <= u < |s.threads| && u != c.t
      ensures Apart(th, s.threads[u]) && Apart(s.threads[u], th)
    {
      assert Apart(s.threads[c.t], s.threads[u]);
      assert InHeap(s, s.threads[u]);
    }
  }

  lemma LogStaysFit<Op, S>(next: (Op, S) -> Option<S>, first: S, s: State<Op, S>, c: Choice<Op, S>)
    requires Inv(next, first, s) && Enabled(s, c)
    ensures LogFits(Apply(next, s, c))
  {
    hide Fold, OpsOf, Do, AllApart;
    var s' := Apply(next, s, c);
    var th := s.threads[c.t];
    assert InHeap(s, th) && ThreadFits(next, s, th);
    forall id: nat | id < |s'.calls|
      ensures InService(s'.threads, id) || id in s'.log
    {
      if id < |s.calls| && InService(s.threads, id) {
        var t :| 0 <= t < |s.threads| && HasId(s.threads[t], id);
        if t != c.t || !s'.threads[t].Idle? {
          assert HasId(s'.threads[t], id);
        }
      } else if id == |s.calls| {
        assert HasId(s'.threads[c.t], id);
      }
    }
  }

  lemma FoldFits<Op, S>(next: (Op, S) -> Option<S>, first: S, s: State<Op, S>, c: Choice<Op, S>)
    requires Inv(next, first, s) && Enabled(s, c) && LogFits(Apply(next, s, c))
    ensures var s' := Apply(next, s, c);
            s'.current < |s'.heap| && s'.heap[s'.current] == Fold(next, first, OpsOf(s'.calls, s'.log))
  {
    hide Fold, OpsOf, AllApart, NoDuplicates;
    var th := s.threads[c.t];
    assert InHeap(s, th) && ThreadFits(next, s, th);
    if c.Call? {
      OpsOfCall(s.calls, s.log, c.op);
    } else {
      OpsOfSnoc(s.calls, s.log, th.id);
      FoldSnoc(next, first, OpsOf(s.calls, s.log), s.calls[th.id]);
    }
  }

  lemma KeepsInv<Op, S>(next: (Op, S) -> Option<S>, first: S, s: State<Op, S>, c: Choice<Op, S>)
    requires Inv(next, first, s) && Enabled(s, c)
    ensures Inv(next, first, Apply(next, s, c))
  {
    var s' := Apply(next, s, c);
    OwnFits(next, first, s, c);
    StaysApart(next, first, s, c);
    LogStaysFit(next, first, s, c);
    FoldFits(next, first, s, c);
    PublishedFits(next, first, s, c);
    hide Apply, Fold, OpsOf, AllApart, LogFits, Apart, Gentle;
    forall u | 0 <= u < |s'.threads|
      ensures ThreadFits(next, s', s'.threads[u])
    {
      if u != c.t {
        StepIsGentle(next, first, s, c, u);
        OneThreadMoves(next, s, c, u);
        assert ThreadFits(next, s, s.threads[u]);
        OthersFit(next, s, s', s.threads[u]);
      }
    }
  }

  lemma OneThreadMoves<Op, S>(next: (Op, S) -> Option<S>, s: State<Op, S>, c: Choice<Op, S>, u: nat)
    requires Sane(s) && Enabled(s, c) && u < |s.threads|
    ensures |Apply(next, s, c).threads| == |s.threads|
    ensures u != c.t ==> Apply(next, s, c).threads[u] == s.threads[u]
  {
  }

  lemma PublishedFits<Op, S>(next: (Op, S) -> Option<S>, first: S, s: State<Op, S>, c: Choice<Op, S>)
    requires Inv(next, first, s) && Enabled(s, c)
    ensures var s' := Apply(next, s, c);
            s'.current in s'.published && forall p :: p in s'.published ==> p < |s'.heap|
  {
    hide Fold, OpsOf, Do, LogFits, AllApart;
    assert InHeap(s, s.threads[c.t]);
  }

  // ------------------------------------------------------------------------
  // Runs
  // ------------------------------------------------------------------------

  /** A published snapshot is never written again. */
  lemma PublishedIsImmutable<Op, S>(next: (Op, S) -> Option<S>, first: S, s: State<Op, S>, c: Choice<Op, S>)
    requires Inv(next, first, s) && Enabled(s, c)
    ensures var s' := Apply(next, s, c);
            && s.published <= s'.published && |s.heap| <= |s'.heap|
            && forall p :: p in s.published ==> s'.heap[p] == s.heap[p]
  {
    hide Fold, OpsOf, Do, LogFits, AllApart;
    assert InHeap(s, s.threads[c.t]) && ThreadFits(next, s, s.threads[c.t]);
  }

  /** A swap fails only when another operation was published since the load: some
      operation always gets through. */
  lemma FailedSwapMeansProgress<Op, S>(next: (Op, S) -> Option<S>, first: S, s: State<Op, S>, t: nat)
    requires Inv(next, first, s) && t < |s.threads| && s.threads[t].Ready?
    ensures Apply(next, s, Swap(t)).threads[t].Looping? ==> s.threads[t].at < s.pubs
    ensures Apply(next, s, Swap(t)).threads[t].Idle? ==>
              && Apply(next, s, Swap(t)).pubs == s.pubs + 1
              && Apply(next, s, Swap(t)).log == s.log + [s.threads[t].id]
  {
    hide Fold, OpsOf, Do, LogFits, AllApart;
    assert InHeap(s, s.threads[t]) && ThreadFits(next, s, s.threads[t]);
  }

  ghost predicate Reaches<Op, S>(next: (Op, S) -> Option<S>, s: State<Op, S>, run: seq<Choice<Op, S>>, s': State<Op, S>)
    requires Sane(s)
    decreases |run|
  {
    if run == [] then s' == s
    else
      && Enabled(s, run[0])
      && Sane(Apply(next, s, run[0]))
      && Reaches(next, Apply(next, s, run[0]), run[1..], s')
  }

  lemma {:induction false} RunKeepsInv<Op, S>(next: (Op, S) -> Option<S>, first: S, s: State<Op, S>,
                                              run: seq<Choice<Op, S>>, s': State<Op, S>)
    requires Inv(next, first, s) && Reaches(next, s, run, s')
    ensures Inv(next, first, s')
    ensures s.log <= s'.log && s.calls <= s'.calls && s.published <= s'.published && |s.heap| <= |s'.heap|
    ensures forall p :: p in s.published ==> s'.heap[p] == s.heap[p]
    decreases |run|
  {
    if run != [] {
      var mid := Apply(next, s, run[0]);
      KeepsInv(next, first, s, run[0]);
      PublishedIsImmutable(next, first, s, run[0]);
      LogGrows(next, s, run[0]);
      RunKeepsInv(next, first, mid, run[1..], s');
    }
  }

  lemma LogGrows<Op, S>(next: (Op, S) -> Option<S>, s: State<Op, S>, c: Choice<Op, S>)
    requires Sane(s) && Enabled(s, c)
    ensures s.log <= Apply(next, s, c).log && s.calls <= Apply(next, s, c).calls
  {
  }

  /** Over every interleaving: the current snapshot is the sequential result of
      the operations in the order they took effect, each once, none lost; a call
      that has returned is among them; and the snapshot a reader loaded stays as
      it is whatever happens next. */
  lemma NoUpdateIsLost<Op, S>(next: (Op, S) -> Option<S>, first: S, threads: nat,
                              run: seq<Choice<Op, S>>, s: State<Op, S>,
                              more: seq<Choice<Op, S>>, later: State<Op, S>)
    requires Reaches(next, Init(threads, first), run, s)
    requires Sane(s) && Reaches(next, s, more, later)
    ensures LogFits(s)
    ensures s.current < |s.heap| && s.heap[s.current] == Fold(next, first, OpsOf(s.calls, s.log))
    ensures s.log <= later.log && s.calls <= later.calls
    ensures s.current < |later.heap| && later.heap[s.current] == s.heap[s.current]
  {
    InitInv(next, threads, first);
    RunKeepsInv(next, first, Init(threads, first), run, s);
    RunKeepsInv(next, first, s, more, later);
  }
}
