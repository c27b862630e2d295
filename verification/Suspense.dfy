/** The suspense coordinator (suspense.go) as a transition system: one main
    thread that submits jobs and then closes, a worker per job, one writer, and
    a channel of capacity 8. There is no cancellation and no submit after the
    close; renders terminate. */
module Suspense {
  import opened Wrappers
  import opened Sequences
  import opened Escaping
  import opened OutOfBand

  const CAPACITY: nat := 8

  datatype Boundary = Recovered(bytes: string) | BoundaryFailed

  /** How a job's render ends. */
  datatype Outcome =
    | Rendered(bytes: string)
    | Errored
    | Panicked(boundary: Option<Boundary>)

  datatype Job = Job(id: string, outcome: Outcome)

  /** The bytes to deliver: a render that succeeded, or its boundary's output. */
  function Delivers(job: Job): Option<string> {
    match job.outcome
    case Rendered(bytes) => Some(bytes)
    case Errored => None
    case Panicked(None) => None
    case Panicked(Some(Recovered(bytes))) => Some(bytes)
    case Panicked(Some(BoundaryFailed)) => Some(PLACEHOLDER)
  }

  /** Whether the worker sends a payload; only a panic without boundary does not. */
  predicate Sends(job: Job) {
    !(job.outcome.Panicked? && job.outcome.boundary.None?)
  }

  /** What the buffer holds when the worker sends it. */
  function Content(job: Job): string {
    match Delivers(job) case Some(bytes) => bytes case None => ""
  }

  /** A whole out-of-band chunk; an errored payload has none. */
  function Chunk(job: Job): string {
    match Delivers(job)
    case Some(bytes) => OobChunk(job.id, bytes)
    case None => ""
  }

  // ------------------------------------------------------------------------
  // The system
  // ------------------------------------------------------------------------

  datatype Worker =
    | Unsubmitted
    | Spawned
    | Rendering(buf: nat)
    | Sending(buf: nat)
    | Finishing
    | Finished

  /** A payload names its job and the buffer it owns. */
  datatype Payload = Payload(w: nat, buf: nat)

  datatype Phase = Receiving | Waiting | Draining | Closing | Exited

  /** The writer is in a phase, possibly with a payload of which `done` pieces are out. */
  datatype Writer = Writer(phase: Phase, current: Option<Payload>, done: nat)

  /** `sent` is the history of sends, `written` how many of them are dealt with. */
  datatype State = State(
    next: nat,
    closed: bool,
    workers: seq<Worker>,
    chan: seq<Payload>,
    writer: Writer,
    bufs: map<nat, string>,
    pool: set<nat>,
    out: string,
    sent: seq<nat>,
    written: nat)

  datatype Choice =
    | Submit
    | Close
    | Acquire(w: nat, buf: nat)
    | Render(w: nat)
    | Send(w: nat)
    | Finish(w: nat)
    | Receive
    | WritePiece
    | ReleaseBuf
    | SeeDone
    | WaitOver
    | DrainOver
    | CloseChannel

  function Init(jobs: seq<Job>): State {
    State(0, false, seq(|jobs|, _ => Unsubmitted), [], Writer(Receiving, None, 0), map[], {}, "", [], 0)
  }

  /** Nobody but the pool has the buffer. */
  ghost predicate FreeBuf(s: State, b: nat) {
    && (forall w :: 0 <= w < |s.workers| ==> !HoldsBuf(s.workers[w], b))
    && (forall j :: 0 <= j < |s.chan| ==> s.chan[j].buf != b)
    && (s.writer.current.Some? ==> s.writer.current.value.buf != b)
  }

  predicate HoldsBuf(w: Worker, b: nat) {
    (w.Rendering? || w.Sending?) && w.buf == b
  }

  predicate AllFinished(s: State) {
    forall w :: 0 <= w < s.next && w < |s.workers| ==> s.workers[w].Finished?
  }

  /** What may happen next. */
  ghost predicate Enabled(jobs: seq<Job>, s: State, c: Choice)
    requires |s.workers| == |jobs|
  {
    match c
    case Submit => s.next < |jobs| && !s.closed
    case Close => s.next == |jobs| && !s.closed
    case Acquire(w, b) => w < |jobs| && s.workers[w].Spawned? && FreeBuf(s, b)
    case Render(w) => w < |jobs| && s.workers[w].Rendering?
    case Send(w) => w < |jobs| && s.workers[w].Sending? && |s.chan| < CAPACITY
    case Finish(w) => w < |jobs| && s.workers[w].Finishing?
    case Receive =>
      s.writer.current.None? && (s.writer.phase.Receiving? || s.writer.phase.Draining?) && s.chan != []
    case WritePiece =>
      && s.writer.current.Some? && s.writer.current.value.w < |jobs|
      && Delivers(jobs[s.writer.current.value.w]).Some? && s.writer.done < 5
    case ReleaseBuf =>
      && s.writer.current.Some? && s.writer.current.value.w < |jobs|
      && (Delivers(jobs[s.writer.current.value.w]).Some? ==> s.writer.done == 5)
    case SeeDone => s.writer.current.None? && s.writer.phase.Receiving? && s.closed
    case WaitOver => s.writer.phase.Waiting? && AllFinished(s)
    case DrainOver => s.writer.current.None? && s.writer.phase.Draining? && s.chan == []
    case CloseChannel => s.writer.phase.Closing?
  }

  function TextOf(bufs: map<nat, string>, b: nat): string {
    if b in bufs then bufs[b] else ""
  }

  ghost function Apply(jobs: seq<Job>, s: State, c: Choice): (s': State)
    requires |s.workers| == |jobs| && Enabled(jobs, s, c)
    ensures |s'.workers| == |jobs|
  {
    match c
    case Submit => s.(next := s.next + 1, workers := s.workers[s.next := Spawned])
    case Close => s.(closed := true)
    case Acquire(w, b) =>
      s.(workers := s.workers[w := Rendering(b)], pool := s.pool - {b}, bufs := s.bufs[b := ""])
    case Render(w) =>
      var b := s.workers[w].buf;
      if Sends(jobs[w]) then
        s.(workers := s.workers[w := Sending(b)], bufs := s.bufs[b := Content(jobs[w])])
      else
        s.(workers := s.workers[w := Finishing], bufs := s.bufs[b := ""], pool := s.pool + {b})
    case Send(w) =>
      s.(workers := s.workers[w := Finishing], chan := s.chan + [Payload(w, s.workers[w].buf)], sent := s.sent + [w])
    case Finish(w) => s.(workers := s.workers[w := Finished])
    case Receive =>
      s.(chan := s.chan[1..], writer := s.writer.(current := Some(s.chan[0]), done := 0))
    case WritePiece =>
      var p := s.writer.current.value;
      s.(out := s.out + OobPieces(jobs[p.w].id, TextOf(s.bufs, p.buf))[s.writer.done],
         writer := s.writer.(done := s.writer.done + 1))
    case ReleaseBuf =>
      var p := s.writer.current.value;
      s.(bufs := s.bufs[p.buf := ""], pool := s.pool + {p.buf},
         writer := s.writer.(current := None), written := s.written + 1)
    case SeeDone => s.(writer := s.writer.(phase := Waiting))
    case WaitOver => s.(writer := s.writer.(phase := Draining))
    case DrainOver => s.(writer := s.writer.(phase := Closing))
    case CloseChannel => s.(writer := s.writer.(phase := Exited))
  }

  // ------------------------------------------------------------------------
  // Invariants
  // ------------------------------------------------------------------------

  /** The thread states fit together; in particular nobody can send once the
      writer has stopped waiting. */
  ghost predicate PhasesFit(jobs: seq<Job>, s: State) {
    && |s.workers| == |jobs|
    && s.next <= |jobs|
    && (s.closed ==> s.next == |jobs|)
    && (forall w :: 0 <= w < |jobs| ==> (s.workers[w].Unsubmitted? <==> s.next <= w))
    && (!s.writer.phase.Receiving? ==> s.closed)
    && (s.writer.phase.Draining? || s.writer.phase.Closing? || s.writer.phase.Exited? ==> AllFinished(s))
    && (s.writer.phase.Waiting? || s.writer.phase.Closing? || s.writer.phase.Exited? ==> s.writer.current.None?)
    && (s.writer.phase.Closing? || s.writer.phase.Exited? ==> s.chan == [])
    && |s.chan| <= CAPACITY
    && (forall w :: 0 <= w < |jobs| && s.workers[w].Sending? ==> Sends(jobs[w]))
  }

  /** Payloads in the writer's hands and in the channel. */
  ghost function InFlight(s: State): seq<Payload> {
    (if s.writer.current.Some? then [s.writer.current.value] else []) + s.chan
  }

  ghost predicate HasSent(jobs: seq<Job>, s: State, w: nat)
    requires w < |jobs| == |s.workers|
  {
    Sends(jobs[w]) && (s.workers[w].Finishing? || s.workers[w].Finished?)
  }

  ghost predicate AreJobs(jobs: seq<Job>, ws: seq<nat>) {
    forall j :: 0 <= j < |ws| ==> ws[j] < |jobs|
  }

  /** Payloads are dealt with in the order of sending, each once. */
  ghost predicate SentFits(jobs: seq<Job>, s: State)
    requires |s.workers| == |jobs|
  {
    && NoDuplicates(s.sent)
    && AreJobs(jobs, s.sent)
    && SendersFit(jobs, s)
    && InOrder(InFlight(s), s.sent, s.written)
  }

  /** The history names exactly the workers that have sent. */
  ghost predicate SendersFit(jobs: seq<Job>, s: State)
    requires |s.workers| == |jobs|
  {
    forall w: nat :: w in s.sent <==> w < |jobs| && HasSent(jobs, s, w)
  }

  /** The payloads in flight are those sent but not yet dealt with. */
  ghost predicate InOrder(flight: seq<Payload>, sent: seq<nat>, written: nat) {
    && written + |flight| == |sent|
    && forall j :: 0 <= j < |flight| ==> flight[j].w == sent[written + j]
  }

  /** A buffer never has two owners among the workers, the payloads and the pool. */
  ghost predicate OneOwner(workers: seq<Worker>, flight: seq<Payload>, pool: set<nat>) {
    && (forall w, u, b :: 0 <= w < u < |workers| && HoldsBuf(workers[w], b) ==> !HoldsBuf(workers[u], b))
    && (forall w, j :: 0 <= w < |workers| && 0 <= j < |flight| ==> !HoldsBuf(workers[w], flight[j].buf))
    && (forall i, j :: 0 <= i < j < |flight| ==> flight[i].buf != flight[j].buf)
    && (forall w, b :: 0 <= w < |workers| && HoldsBuf(workers[w], b) ==> b !in pool)
    && (forall j :: 0 <= j < |flight| ==> flight[j].buf !in pool)
  }

  /** A payload's buffer holds what its worker rendered. */
  ghost predicate BufsFit(jobs: seq<Job>, workers: seq<Worker>, flight: seq<Payload>, bufs: map<nat, string>)
    requires |workers| == |jobs|
  {
    && (forall w :: 0 <= w < |jobs| && workers[w].Sending? ==> TextOf(bufs, workers[w].buf) == Content(jobs[w]))
    && (forall j :: 0 <= j < |flight| ==>
          flight[j].w < |jobs| && TextOf(bufs, flight[j].buf) == Content(jobs[flight[j].w]))
  }

  /** The chunks of the given jobs, in order. */
  ghost function Chunks(jobs: seq<Job>, ws: seq<nat>): string
    requires AreJobs(jobs, ws)
  {
    if ws == [] then "" else Chunks(jobs, ws[..|ws| - 1]) + Chunk(jobs[ws[|ws| - 1]])
  }

  /** The output is whole chunks, then the pieces of the current one. */
  ghost predicate OutFits(jobs: seq<Job>, s: State)
    requires |s.workers| == |jobs| && AreJobs(jobs, s.sent)
    requires s.written <= |s.sent|
  {
    && s.out == Chunks(jobs, s.sent[..s.written]) + CurrentText(jobs, s)
    && (s.writer.current.Some? && s.writer.current.value.w < |jobs| ==>
          s.writer.done <= if Delivers(jobs[s.writer.current.value.w]).Some? then 5 else 0)
  }

  ghost function CurrentText(jobs: seq<Job>, s: State): string {
    if s.writer.current.Some? && s.writer.current.value.w < |jobs| && s.writer.done <= 5 then
      var job := jobs[s.writer.current.value.w];
      Concat(OobPieces(job.id, Content(job))[..s.writer.done])
    else ""
  }

  ghost predicate Inv(jobs: seq<Job>, s: State) {
    && PhasesFit(jobs, s)
    && SentFits(jobs, s)
    && OneOwner(s.workers, InFlight(s), s.pool)
    && BufsFit(jobs, s.workers, InFlight(s), s.bufs)
    && OutFits(jobs, s)
  }

  lemma InitInv(jobs: seq<Job>)
    ensures Inv(jobs, Init(jobs))
  {
    assert Init(jobs).sent[..0] == [];
    assert "" + "" == "";
  }

  lemma KeepsPhases(jobs: seq<Job>, s: State, c: Choice)
    requires PhasesFit(jobs, s) && Enabled(jobs, s, c)
    ensures PhasesFit(jobs, Apply(jobs, s, c))
  {
    hide OobPieces, Content, TextOf, FreeBuf;
  }

  /** How a step changes the payloads in flight. */
  lemma FlightStep(jobs: seq<Job>, s: State, c: Choice)
    requires PhasesFit(jobs, s) && Enabled(jobs, s, c)
    ensures InFlight(Apply(jobs, s, c)) ==
            match c
            case Send(w) => InFlight(s) + [Payload(w, s.workers[w].buf)]
            case ReleaseBuf => InFlight(s)[1..]
            case _ => InFlight(s)
  {
    hide OobPieces, Content, TextOf, FreeBuf;
  }

  lemma KeepsSent(jobs: seq<Job>, s: State, c: Choice)
    requires PhasesFit(jobs, s) && SentFits(jobs, s) && Enabled(jobs, s, c)
    ensures SentFits(jobs, Apply(jobs, s, c))
  {
    SentersStep(jobs, s, c);
    OrderStep(jobs, s, c);
    hide Apply, Enabled, InFlight, InOrder, NoDuplicates, AreJobs, PhasesFit, SendersFit, HasSent;
  }

  /** The history stays in order, whatever the step does to it. */
  lemma OrderStep(jobs: seq<Job>, s: State, c: Choice)
    requires PhasesFit(jobs, s) && SentFits(jobs, s) && Enabled(jobs, s, c)
    ensures var s' := Apply(jobs, s, c);
            NoDuplicates(s'.sent) && InOrder(InFlight(s'), s'.sent, s'.written)
  {
    hide Apply, Enabled, PhasesFit, InFlight, InOrder, NoDuplicates, AreJobs, SendersFit, HasSent;
    FlightStep(jobs, s, c);
    HistoryStep(jobs, s, c);
    if c.Send? {
      NewSender(jobs, s, c);
      SendOrder(s.sent, s.written, InFlight(s), c.w, s.workers[c.w].buf);
    } else if c.ReleaseBuf? {
      ReleaseOrder(s.sent, s.written, InFlight(s));
    }
  }

  lemma NewSender(jobs: seq<Job>, s: State, c: Choice)
    requires PhasesFit(jobs, s) && SentFits(jobs, s) && Enabled(jobs, s, c)
    ensures c.Send? ==> c.w !in s.sent
  {
    SentersStep(jobs, s, c);
  }

  lemma HistoryStep(jobs: seq<Job>, s: State, c: Choice)
    requires PhasesFit(jobs, s) && Enabled(jobs, s, c)
    ensures var s' := Apply(jobs, s, c);
            && s'.sent == (if c.Send? then s.sent + [c.w] else s.sent)
            && s'.written == (if c.ReleaseBuf? then s.written + 1 else s.written)
    ensures c.Send? ==> c.w < |s.workers| && s.workers[c.w].Sending?
    ensures c.ReleaseBuf? ==> InFlight(s) != []
  {
    hide OobPieces, Content, TextOf, FreeBuf;
  }

  lemma SendOrder(sent: seq<nat>, written: nat, flight: seq<Payload>, w: nat, b: nat)
    requires NoDuplicates(sent) && w !in sent && InOrder(flight, sent, written)
    ensures NoDuplicates(sent + [w]) && InOrder(flight + [Payload(w, b)], sent + [w], written)
  {
  }

  lemma ReleaseOrder(sent: seq<nat>, written: nat, flight: seq<Payload>)
    requires flight != [] && InOrder(flight, sent, written)
    ensures InOrder(flight[1..], sent, written + 1)
  {
  }

  /** Who has sent, after a step. */
  lemma SentersStep(jobs: seq<Job>, s: State, c: Choice)
    requires PhasesFit(jobs, s) && SentFits(jobs, s) && Enabled(jobs, s, c)
    ensures var s' := Apply(jobs, s, c);
            && SendersFit(jobs, s')
            && AreJobs(jobs, s'.sent)
            && (c.Send? ==> c.w !in s.sent)
  {
    hide OobPieces, Content, TextOf, FreeBuf, InFlight, NoDuplicates;
    var s' := Apply(jobs, s, c);
    forall w: nat
      ensures w in s'.sent <==> w < |jobs| && HasSent(jobs, s', w)
    {
      assert w in s.sent <==> w < |jobs| && HasSent(jobs, s, w);
    }
  }

  lemma KeepsOwners(jobs: seq<Job>, s: State, c: Choice)
    requires PhasesFit(jobs, s) && OneOwner(s.workers, InFlight(s), s.pool) && Enabled(jobs, s, c)
    ensures var s' := Apply(jobs, s, c); OneOwner(s'.workers, InFlight(s'), s'.pool)
  {
    hide OneOwner, InFlight, OobPieces, Content, TextOf;
    FlightStep(jobs, s, c);
    var flight := InFlight(s);
    match c {
      case Acquire(w, b) => FreshBuf(s, b); AcquireOwners(s.workers, flight, s.pool, w, b);
      case Render(w) => RenderOwners(s.workers, flight, s.pool, w);
      case Send(w) => SendOwners(s.workers, flight, s.pool, w);
      case ReleaseBuf => FlightHead(s); ReleaseOwners(s.workers, flight, s.pool);
      case Submit => OtherOwners(s.workers, flight, s.pool, s.next, Spawned);
      case Finish(w) => OtherOwners(s.workers, flight, s.pool, w, Finished);
      case _ =>
    }
  }

  lemma FlightHead(s: State)
    requires s.writer.current.Some?
    ensures InFlight(s) != [] && InFlight(s)[0] == s.writer.current.value
  {
  }

  lemma FreshBuf(s: State, b: nat)
    requires FreeBuf(s, b)
    ensures forall j :: 0 <= j < |InFlight(s)| ==> InFlight(s)[j].buf != b
  {
  }

  lemma AcquireOwners(workers: seq<Worker>, flight: seq<Payload>, pool: set<nat>, w: nat, b: nat)
    requires OneOwner(workers, flight, pool) && w < |workers|
    requires forall u :: 0 <= u < |workers| ==> !HoldsBuf(workers[u], b)
    requires forall j :: 0 <= j < |flight| ==> flight[j].buf != b
    ensures OneOwner(workers[w := Rendering(b)], flight, pool - {b})
  {
  }

  lemma RenderOwners(workers: seq<Worker>, flight: seq<Payload>, pool: set<nat>, w: nat)
    requires OneOwner(workers, flight, pool) && w < |workers| && workers[w].Rendering?
    ensures OneOwner(workers[w := Sending(workers[w].buf)], flight, pool)
    ensures OneOwner(workers[w := Finishing], flight, pool + {workers[w].buf})
  {
    assert HoldsBuf(workers[w], workers[w].buf);
  }

  lemma SendOwners(workers: seq<Worker>, flight: seq<Payload>, pool: set<nat>, w: nat)
    requires OneOwner(workers, flight, pool) && w < |workers| && workers[w].Sending?
    ensures OneOwner(workers[w := Finishing], flight + [Payload(w, workers[w].buf)], pool)
  {
    assert HoldsBuf(workers[w], workers[w].buf);
  }

  lemma ReleaseOwners(workers: seq<Worker>, flight: seq<Payload>, pool: set<nat>)
    requires OneOwner(workers, flight, pool) && flight != []
    ensures OneOwner(workers, flight[1..], pool + {flight[0].buf})
  {
  }

  lemma OtherOwners(workers: seq<Worker>, flight: seq<Payload>, pool: set<nat>, w: nat, worker: Worker)
    requires OneOwner(workers, flight, pool) && w < |workers| && !worker.Rendering? && !worker.Sending?
    ensures OneOwner(workers[w := worker], flight, pool)
  {
  }

  ghost predicate HeldBy(workers: seq<Worker>, b: nat) {
    exists w :: 0 <= w < |workers| && HoldsBuf(workers[w], b)
  }

  ghost predicate Carried(flight: seq<Payload>, b: nat) {
    exists j :: 0 <= j < |flight| && flight[j].buf == b
  }

  /** No buffer is lost: a worker, a payload or the pool has it. */
  ghost predicate NoneLost(s: State) {
    forall b :: b in s.bufs ==> b in s.pool || HeldBy(s.workers, b) || Carried(InFlight(s), b)
  }

  lemma KeepsBuffers(jobs: seq<Job>, s: State, c: Choice)
    requires PhasesFit(jobs, s) && Enabled(jobs, s, c) && NoneLost(s)
    ensures NoneLost(Apply(jobs, s, c))
  {
    hide Apply, InFlight, Enabled, PhasesFit, HeldBy, Carried, HoldsBuf;
    FlightStep(jobs, s, c);
    BufferStep(jobs, s, c);
    var s' := Apply(jobs, s, c);
    forall b | b in s'.bufs
      ensures b in s'.pool || HeldBy(s'.workers, b) || Carried(InFlight(s'), b)
    {
      if HeldBy(s.workers, b) {
        HeldStays(jobs, s, c, b);
      } else if Carried(InFlight(s), b) {
        CarriedStays(InFlight(s), InFlight(s'), b);
      }
    }
  }

  lemma HeldStays(jobs: seq<Job>, s: State, c: Choice, b: nat)
    requires PhasesFit(jobs, s) && Enabled(jobs, s, c) && HeldBy(s.workers, b)
    ensures var s' := Apply(jobs, s, c);
            b in s'.pool || HeldBy(s'.workers, b) || Carried(InFlight(s'), b)
  {
    hide Apply, InFlight, Enabled, PhasesFit;
    FlightStep(jobs, s, c);
    BufferStep(jobs, s, c);
    var s' := Apply(jobs, s, c);
    var w :| 0 <= w < |s.workers| && HoldsBuf(s.workers[w], b);
    if c.Send? && c.w == w {
      assert InFlight(s')[|InFlight(s)|].buf == b;
    } else if !(c.Render? && c.w == w) {
      assert HoldsBuf(s'.workers[w], b);
    }
  }

  /** A payload stays in flight unless it is the one taken off the front. */
  lemma CarriedStays(flight: seq<Payload>, flight': seq<Payload>, b: nat)
    requires Carried(flight, b)
    requires flight <= flight' || (flight != [] && flight' == flight[1..])
    ensures flight <= flight' ==> Carried(flight', b)
    ensures Carried(flight', b) || flight[0].buf == b
  {
    var j :| 0 <= j < |flight| && flight[j].buf == b;
    if flight <= flight' {
      assert flight'[j].buf == b;
    } else if j > 0 {
      assert flight'[j - 1].buf == b;
    }
  }

  /** Worker `w` may give its buffer away. */
  predicate PassesOn(c: Choice, w: nat) {
    (c.Send? || c.Render?) && c.w == w
  }

  /** What a step does to the buffers and who holds them. */
  lemma BufferStep(jobs: seq<Job>, s: State, c: Choice)
    requires PhasesFit(jobs, s) && Enabled(jobs, s, c)
    ensures var s' := Apply(jobs, s, c);
            && |s'.workers| == |s.workers|
            && (forall b :: b in s'.bufs ==> b in s.bufs || HeldBy(s'.workers, b) || b in s'.pool)
            && (forall b :: b in s.pool ==> b in s'.pool || HeldBy(s'.workers, b))
            && (c.ReleaseBuf? ==> InFlight(s) != [] && InFlight(s)[0].buf in s'.pool)
            && (c.Send? ==> c.w < |s.workers| && s.workers[c.w].Sending?)
            && (c.Render? ==> c.w < |s.workers| && s.workers[c.w].Rendering?)
            && (c.Render? ==> s.workers[c.w].buf in s'.pool || HoldsBuf(s'.workers[c.w], s.workers[c.w].buf))
            && (forall w, b :: 0 <= w < |s.workers| && HoldsBuf(s.workers[w], b) && !PassesOn(c, w)
                               ==> HoldsBuf(s'.workers[w], b))
  {
    hide OobPieces, Content, TextOf, FreeBuf;
    var s' := Apply(jobs, s, c);
    match c {
      case Acquire(w, b) => assert HoldsBuf(s'.workers[w], b);
      case Render(w) =>
        if Sends(jobs[w]) {
          assert HoldsBuf(s'.workers[w], s.workers[w].buf);
        }
      case _ =>
    }
  }

  lemma KeepsBufs(jobs: seq<Job>, s: State, c: Choice)
    requires PhasesFit(jobs, s) && OneOwner(s.workers, InFlight(s), s.pool)
    requires BufsFit(jobs, s.workers, InFlight(s), s.bufs) && Enabled(jobs, s, c)
    ensures var s' := Apply(jobs, s, c); BufsFit(jobs, s'.workers, InFlight(s'), s'.bufs)
  {
    hide OneOwner, InFlight, OobPieces, Content, TextOf, BufsFit;
    FlightStep(jobs, s, c);
    var flight := InFlight(s);
    match c {
      case Acquire(w, b) => FreshBuf(s, b); AcquireBufs(jobs, s.workers, flight, s.bufs, w, b);
      case Render(w) => RenderBufs(jobs, s.workers, flight, s.pool, s.bufs, w);
      case Send(w) => SendBufs(jobs, s.workers, flight, s.bufs, w);
      case ReleaseBuf => FlightHead(s); ReleaseBufs(jobs, s.workers, flight, s.pool, s.bufs);
      case Submit => OtherBufs(jobs, s.workers, flight, s.bufs, s.next, Spawned);
      case Finish(w) => OtherBufs(jobs, s.workers, flight, s.bufs, w, Finished);
      case _ =>
    }
  }

  lemma AcquireBufs(jobs: seq<Job>, workers: seq<Worker>, flight: seq<Payload>, bufs: map<nat, string>, w: nat, b: nat)
    requires |workers| == |jobs| && BufsFit(jobs, workers, flight, bufs) && w < |jobs|
    requires forall u :: 0 <= u < |workers| ==> !HoldsBuf(workers[u], b)
    requires forall j :: 0 <= j < |flight| ==> flight[j].buf != b
    ensures BufsFit(jobs, workers[w := Rendering(b)], flight, bufs[b := ""])
  {
    hide Content;
    forall u | 0 <= u < |jobs| && workers[u].Sending?
      ensures workers[u].buf != b
    {
      assert !HoldsBuf(workers[u], b);
    }
  }

  lemma RenderBufs(jobs: seq<Job>, workers: seq<Worker>, flight: seq<Payload>, pool: set<nat>,
                   bufs: map<nat, string>, w: nat)
    requires |workers| == |jobs| && BufsFit(jobs, workers, flight, bufs) && w < |jobs|
    requires OneOwner(workers, flight, pool) && workers[w].Rendering?
    ensures BufsFit(jobs, workers[w := Sending(workers[w].buf)], flight, bufs[workers[w].buf := Content(jobs[w])])
    ensures BufsFit(jobs, workers[w := Finishing], flight, bufs[workers[w].buf := ""])
  {
    hide Content;
    var b := workers[w].buf;
    assert HoldsBuf(workers[w], b);
    forall u | 0 <= u < |jobs| && workers[u].Sending?
      ensures workers[u].buf != b
    {
      assert u != w;
      assert HoldsBuf(workers[u], workers[u].buf);
    }
  }

  lemma SendBufs(jobs: seq<Job>, workers: seq<Worker>, flight: seq<Payload>, bufs: map<nat, string>, w: nat)
    requires |workers| == |jobs| && BufsFit(jobs, workers, flight, bufs) && w < |jobs| && workers[w].Sending?
    ensures BufsFit(jobs, workers[w := Finishing], flight + [Payload(w, workers[w].buf)], bufs)
  {
    hide Content;
  }

  lemma ReleaseBufs(jobs: seq<Job>, workers: seq<Worker>, flight: seq<Payload>, pool: set<nat>, bufs: map<nat, string>)
    requires |workers| == |jobs| && BufsFit(jobs, workers, flight, bufs) && flight != []
    requires OneOwner(workers, flight, pool)
    ensures BufsFit(jobs, workers, flight[1..], bufs[flight[0].buf := ""])
  {
    hide Content;
    forall u | 0 <= u < |jobs| && workers[u].Sending?
      ensures workers[u].buf != flight[0].buf
    {
      assert !HoldsBuf(workers[u], flight[0].buf);
    }
  }

  lemma OtherBufs(jobs: seq<Job>, workers: seq<Worker>, flight: seq<Payload>,
                  bufs: map<nat, string>, w: nat, worker: Worker)
    requires |workers| == |jobs| && BufsFit(jobs, workers, flight, bufs) && w < |jobs| && !worker.Sending?
    ensures BufsFit(jobs, workers[w := worker], flight, bufs)
  {
    hide Content;
  }

  lemma ChunksSnoc(jobs: seq<Job>, ws: seq<nat>, w: nat)
    requires AreJobs(jobs, ws) && w < |jobs|
    ensures Chunks(jobs, ws + [w]) == Chunks(jobs, ws) + Chunk(jobs[w])
  {
    hide Chunk;
    assert (ws + [w])[..|ws|] == ws;
  }

  /** The writer's payload is the next one sent, and its buffer is intact. */
  lemma CurrentFits(jobs: seq<Job>, s: State)
    requires PhasesFit(jobs, s) && SentFits(jobs, s) && BufsFit(jobs, s.workers, InFlight(s), s.bufs)
    requires s.writer.current.Some?
    ensures var p := s.writer.current.value;
            && p.w < |jobs| && TextOf(s.bufs, p.buf) == Content(jobs[p.w])
            && s.written < |s.sent| && s.sent[s.written] == p.w
    ensures |s.workers| == |jobs| && AreJobs(jobs, s.sent)
  {
    FlightHead(s);
    assert InFlight(s)[0].w == s.sent[s.written + 0];
  }

  lemma NothingOut(jobs: seq<Job>, s: State)
    requires s.writer.done == 0
    ensures CurrentText(jobs, s) == ""
  {
    if s.writer.current.Some? && s.writer.current.value.w < |jobs| {
      var job := jobs[s.writer.current.value.w];
      assert OobPieces(job.id, Content(job))[..0] == [];
    }
  }

  lemma PieceOut(jobs: seq<Job>, s: State)
    requires Inv(jobs, s) && Enabled(jobs, s, WritePiece)
    ensures OutFits(jobs, Apply(jobs, s, WritePiece))
  {
    hide Concat, OneOwner, Chunks;
    CurrentFits(jobs, s);
    var p := s.writer.current.value;
    var parts := OobPieces(jobs[p.w].id, Content(jobs[p.w]));
    hide OobPieces;
    ConcatPrefix(parts, s.writer.done);
    Assoc(Chunks(jobs, s.sent[..s.written]), Concat(parts[..s.writer.done]), parts[s.writer.done]);
  }

  lemma ChunkOut(jobs: seq<Job>, s: State)
    requires Inv(jobs, s) && Enabled(jobs, s, ReleaseBuf)
    ensures OutFits(jobs, Apply(jobs, s, ReleaseBuf))
  {
    hide OneOwner, BufsFit, FreeBuf, PhasesFit, SentFits, Chunks, Chunk, Concat, OobPieces, Content, TextOf;
    CurrentFits(jobs, s);
    CurrentIsChunk(jobs, s);
    WrittenSnoc(jobs, s.sent, s.written);
    NothingCurrent(jobs, Apply(jobs, s, ReleaseBuf));
  }

  lemma NothingCurrent(jobs: seq<Job>, s: State)
    requires s.writer.current.None?
    ensures s.out + CurrentText(jobs, s) == s.out
  {
  }

  lemma WrittenSnoc(jobs: seq<Job>, sent: seq<nat>, written: nat)
    requires AreJobs(jobs, sent) && written < |sent|
    ensures Chunks(jobs, sent[..written + 1]) == Chunks(jobs, sent[..written]) + Chunk(jobs[sent[written]])
  {
    hide Chunks, Chunk;
    ChunksSnoc(jobs, sent[..written], sent[written]);
    assert sent[..written + 1] == sent[..written] + [sent[written]];
  }

  lemma CurrentIsChunk(jobs: seq<Job>, s: State)
    requires s.writer.current.Some? && s.writer.current.value.w < |jobs|
    requires s.writer.done == if Delivers(jobs[s.writer.current.value.w]).Some? then 5 else 0
    ensures CurrentText(jobs, s) == Chunk(jobs[s.writer.current.value.w])
  {
    var job := jobs[s.writer.current.value.w];
    var parts := OobPieces(job.id, Content(job));
    assert parts[..5] == parts;
    assert parts[..0] == [];
  }

  lemma KeepsOut(jobs: seq<Job>, s: State, c: Choice)
    requires Inv(jobs, s) && Enabled(jobs, s, c)
    requires SentFits(jobs, Apply(jobs, s, c))
    ensures OutFits(jobs, Apply(jobs, s, c))
  {
    hide OobPieces, Content, Concat, OneOwner, BufsFit, FreeBuf, TextOf, Chunks, Chunk, SendersFit;
    var s' := Apply(jobs, s, c);
    match c {
      case Send(w) =>
        assert s'.sent[..s.written] == s.sent[..s.written];
      case Receive =>
        NothingOut(jobs, s');
      case WritePiece => PieceOut(jobs, s);
      case ReleaseBuf => ChunkOut(jobs, s);
      case _ =>
    }
  }

  lemma KeepsInv(jobs: seq<Job>, s: State, c: Choice)
    requires Inv(jobs, s) && Enabled(jobs, s, c)
    ensures Inv(jobs, Apply(jobs, s, c))
  {
    hide PhasesFit, SentFits, OneOwner, BufsFit, OutFits, Enabled, Apply;
    KeepsPhases(jobs, s, c);
    KeepsSent(jobs, s, c);
    KeepsOwners(jobs, s, c);
    KeepsBufs(jobs, s, c);
    KeepsOut(jobs, s, c);
  }

  // ------------------------------------------------------------------------
  // Runs
  // ------------------------------------------------------------------------

  /** `s` can be reached by the given choices. */
  ghost predicate Reaches(jobs: seq<Job>, from: State, run: seq<Choice>, s: State)
    requires |from.workers| == |jobs|
    decreases |run|
  {
    if run == [] then s == from
    else Enabled(jobs, from, run[0]) && Reaches(jobs, Apply(jobs, from, run[0]), run[1..], s)
  }

  lemma {:induction false} RunKeepsInv(jobs: seq<Job>, from: State, run: seq<Choice>, s: State)
    requires |from.workers| == |jobs| && Inv(jobs, from) && Reaches(jobs, from, run, s)
    ensures |s.workers| == |jobs| && Inv(jobs, s)
    decreases |run|
  {
    hide Inv, Enabled, Apply;
    if run != [] {
      KeepsInv(jobs, from, run[0]);
      RunKeepsInv(jobs, Apply(jobs, from, run[0]), run[1..], s);
    }
  }

  lemma {:induction false} RunKeepsBuffers(jobs: seq<Job>, from: State, run: seq<Choice>, s: State)
    requires |from.workers| == |jobs| && Inv(jobs, from) && NoneLost(from) && Reaches(jobs, from, run, s)
    ensures NoneLost(s)
    decreases |run|
  {
    hide SentFits, OneOwner, BufsFit, OutFits, Enabled, Apply, NoneLost;
    if run != [] {
      KeepsInv(jobs, from, run[0]);
      KeepsBuffers(jobs, from, run[0]);
      RunKeepsBuffers(jobs, Apply(jobs, from, run[0]), run[1..], s);
    }
  }

  /** Safety, in every reachable state: once the channel is closed no worker can
      send; every buffer has exactly one owner; and the output is whole chunks of
      distinct jobs in the order they were sent, then a part of the one being
      written. */
  lemma ReachableIsSafe(jobs: seq<Job>, run: seq<Choice>, s: State)
    requires Reaches(jobs, Init(jobs), run, s)
    ensures |s.workers| == |jobs|
    ensures s.writer.phase.Exited? ==> forall w :: 0 <= w < |jobs| ==> s.workers[w].Finished?
    ensures OneOwner(s.workers, InFlight(s), s.pool) && NoneLost(s)
    ensures NoDuplicates(s.sent) && AreJobs(jobs, s.sent) && s.written <= |s.sent|
    ensures s.out == Chunks(jobs, s.sent[..s.written]) + CurrentText(jobs, s)
  {
    InitInv(jobs);
    RunKeepsInv(jobs, Init(jobs), run, s);
    RunKeepsBuffers(jobs, Init(jobs), run, s);
  }

  lemma ExitedOut(jobs: seq<Job>, s: State)
    requires Inv(jobs, s) && s.writer.phase.Exited?
    ensures AreJobs(jobs, s.sent)
    ensures s.out == Chunks(jobs, s.sent)
  {
    hide Chunks, OneOwner, BufsFit, SendersFit, AllFinished, Sends, NoDuplicates;
    assert s.sent[..s.written] == s.sent;
    NothingCurrent(jobs, s);
  }

  lemma ExitedSent(jobs: seq<Job>, s: State)
    requires Inv(jobs, s) && s.writer.phase.Exited?
    ensures NoDuplicates(s.sent) && AreJobs(jobs, s.sent)
    ensures forall w: nat :: w in s.sent <==> w < |jobs| && Sends(jobs[w])
  {
    hide OneOwner, BufsFit, OutFits, Sends, InOrder, NoDuplicates;
    forall w: nat
      ensures w in s.sent <==> w < |jobs| && Sends(jobs[w])
    {
      assert w in s.sent <==> w < |jobs| && HasSent(jobs, s, w);
    }
  }

  /** Delivery: when the writer exits, the output is exactly one whole chunk for
      each job that rendered or whose boundary did, in some order, and nothing else. */
  lemma ExitDelivers(jobs: seq<Job>, run: seq<Choice>, s: State)
    requires Reaches(jobs, Init(jobs), run, s) && s.writer.phase.Exited?
    ensures NoDuplicates(s.sent) && AreJobs(jobs, s.sent)
    ensures forall w: nat :: w in s.sent <==> w < |jobs| && Sends(jobs[w])
    ensures s.out == Chunks(jobs, s.sent)
  {
    hide Inv, Chunks, Reaches;
    InitInv(jobs);
    RunKeepsInv(jobs, Init(jobs), run, s);
    ExitedSent(jobs, s);
    ExitedOut(jobs, s);
  }

  /** What a job's outcome comes to: its bytes, or its boundary's, or the placeholder of
      a failed boundary, wrapped for its target; nothing after an error or a panic
      without boundary. */
  lemma ChunkByOutcome(job: Job)
    ensures var open, close := "<div id=\"" + Escape(job.id) + "\" hx-swap-oob=\"true\">", "</div>";
            match job.outcome
            case Rendered(bytes) => Chunk(job) == open + bytes + close
            case Errored => Chunk(job) == ""
            case Panicked(None) => Chunk(job) == ""
            case Panicked(Some(Recovered(bytes))) => Chunk(job) == open + bytes + close
            case Panicked(Some(BoundaryFailed)) => Chunk(job) == open + "<!-- error boundary failed -->" + close
  {
    hide OobChunk, Escape;
    if Delivers(job).Some? {
      ChunkText(job.id, Delivers(job).value);
    }
  }

  /** When the writer exits, every job but those that panicked without boundary has its
      chunk in the output, after the chunks of the jobs sent before it. */
  lemma ExitOutcomes(jobs: seq<Job>, run: seq<Choice>, s: State, w: nat) returns (before: string, after: string)
    requires Reaches(jobs, Init(jobs), run, s) && s.writer.phase.Exited? && w < |jobs|
    ensures if jobs[w].outcome == Panicked(None) then w !in s.sent
            else w in s.sent && s.out == before + Chunk(jobs[w]) + after
  {
    hide Chunk, Reaches, Chunks;
    ExitDelivers(jobs, run, s);
    before, after := "", "";
    if w in s.sent {
      var j :| 0 <= j < |s.sent| && s.sent[j] == w;
      before, after := ChunkAt(jobs, s.sent, j);
    }
  }

  /** One job's chunk within those of many. */
  lemma {:induction false} ChunkAt(jobs: seq<Job>, ws: seq<nat>, j: nat) returns (before: string, after: string)
    requires AreJobs(jobs, ws) && j < |ws|
    ensures before == Chunks(jobs, ws[..j]) && Chunks(jobs, ws) == before + Chunk(jobs[ws[j]]) + after
    decreases |ws|
  {
    hide Chunk;
    var init, last := ws[..|ws| - 1], ws[|ws| - 1];
    if j == |init| {
      before, after := Chunks(jobs, init), "";
      assert Chunks(jobs, ws) + "" == Chunks(jobs, ws);
    } else {
      var a;
      before, a := ChunkAt(jobs, init, j);
      after := a + Chunk(jobs[last]);
      assert init[..j] == ws[..j];
      Assoc(before + Chunk(jobs[ws[j]]), a, Chunk(jobs[last]));
    }
  }
}
