/**
The standard-input spool of one interactive job: a producer that works under the
Manager's lock, and a worker that dequeues without the lock, reads the spool
under it, writes to the process without it, and commits under it again.

Each lock-held block is one step, except that the producer is split at the
point where it has found the queue not full and is about to put: the worker can
dequeue in between, because taking from the queue needs no lock.
*/
module StdinSpool {
  import opened Prelude

  type Bytes = seq<bv8>

  const MAX_CHUNK := 16384
  const QUEUE_SIZE := 16

  /** A queued piece of input: its offset in the stream, its length, and the end-of-file mark. */
  datatype Segment = Segment(start: nat, count: nat, eof: bool)

  /** `Stop` is the sentinel the collector leaves for the worker. */
  datatype Item = Data(segment: Segment) | Stop

  /** Where the worker is.  `rowBase` is the base it read in its first lock section. */
  datatype Worker =
    | Waiting
    | Holding(segment: Segment)
    | Loaded(segment: Segment, rowBase: nat, data: Bytes)
    | Written(segment: Segment, rowBase: nat)
    | Closing
    | Gone(dropped: Option<Segment>)

  datatype Lock = Free | Accepting(data: Bytes, eof: bool)

  datatype State = State(
    present: bool,          // the job row and its spool file exist
    finished: bool,
    stdinClosed: bool,
    inputBase: nat,
    inputEnd: nat,
    file: Bytes,
    registered: bool,       // the queue is still in the table of writers
    queue: seq<Item>,
    worker: Worker,
    lock: Lock,
    delivered: Bytes,       // what reached the process
    shut: bool,             // the process's stdin was closed
    accepted: Bytes)        // every byte a producer was told is accepted

  const INITIAL := State(true, false, false, 0, 0, [], true, [], Waiting, Free, [], false, [])

  datatype Refusal = NoJob | StdinClosed | TooLarge | Unavailable | QueueFull

  datatype Step =
    | Offer(data: Bytes, eof: bool)   // the producer's checks, up to the full() test
    | Put                             // its append, row update and put_nowait
    | Get                             // worker: dequeue
    | Load                            // worker: first lock section
    | Write                           // worker: write and flush
    | Break(sent: nat)                // worker: the pipe breaks after `sent` bytes
    | Commit                          // worker: second lock section
    | Close                           // worker: close the process's stdin
    | Finish                          // collector: the job has ended
    | Retire                          // collector: drop the queue, leaving a sentinel
    | Prune                           // the row and the spool file are removed

  function Admission(s: State, data: Bytes): Option<Refusal> {
    if !s.present then Some(NoJob)
    else if s.finished || s.stdinClosed then Some(StdinClosed)
    else if |data| > MAX_CHUNK then Some(TooLarge)
    else if !s.registered then Some(Unavailable)
    else if |s.queue| >= QUEUE_SIZE then Some(QueueFull)
    else None
  }

  /** Reading `count` bytes at `offset`; past the end of the file there is less or nothing. */
  function ReadAt(file: Bytes, offset: nat, count: nat): Bytes {
    if offset >= |file| then [] else if offset + count <= |file| then file[offset..offset + count] else file[offset..]
  }

  ghost predicate Enabled(s: State, step: Step) {
    match step
    case Offer(_, _) => s.lock.Free?
    case Put => s.lock.Accepting?
    case Get => s.worker.Waiting? && s.queue != []
    case Load => s.lock.Free? && s.worker.Holding?
    case Write => s.worker.Loaded?
    case Break(sent) => s.worker.Loaded? && sent <= |s.worker.data|
    case Commit => s.lock.Free? && s.worker.Written?
    case Close => s.worker.Closing?
    case Finish => s.lock.Free?
    case Retire => s.lock.Free? && s.finished
    case Prune => s.lock.Free? && s.finished
  }

  function DoOffer(s: State, data: Bytes, eof: bool): State {
    if Admission(s, data).Some? then s else s.(lock := Accepting(data, eof))
  }

  /** `put_nowait` raises on a full queue; then nothing is queued although the bytes are spooled. */
  function DoPut(s: State): State
    requires s.lock.Accepting?
  {
    var segment := Segment(s.inputEnd, |s.lock.data|, s.lock.eof);
    s.(file := s.file + s.lock.data, inputEnd := s.inputEnd + |s.lock.data|, stdinClosed := s.lock.eof,
       queue := if |s.queue| < QUEUE_SIZE then s.queue + [Data(segment)] else s.queue,
       accepted := s.accepted + s.lock.data, lock := Free)
  }

  function DoGet(s: State): State
    requires s.queue != []
  {
    s.(queue := s.queue[1..],
       worker := match s.queue[0] case Stop => Gone(None) case Data(segment) => Holding(segment))
  }

  /** A negative seek or a short read raises and ends the worker. */
  function DoLoad(s: State): State
    requires s.worker.Holding?
  {
    var segment := s.worker.segment;
    if !s.present || segment.start < s.inputBase then s.(worker := Gone(Some(segment)))
    else
      var data := ReadAt(s.file, segment.start - s.inputBase, segment.count);
      if |data| != segment.count then s.(worker := Gone(Some(segment)))
      else s.(worker := Loaded(segment, s.inputBase, data))
  }

  function DoWrite(s: State): State
    requires s.worker.Loaded?
  {
    s.(delivered := s.delivered + s.worker.data, worker := Written(s.worker.segment, s.worker.rowBase))
  }

  function DoBreak(s: State, sent: nat): State
    requires s.worker.Loaded? && sent <= |s.worker.data|
  {
    s.(delivered := s.delivered + s.worker.data[..sent], worker := Gone(Some(s.worker.segment)))
  }

  /** The trim uses the base read before the write; a removed file raises and ends the worker. */
  function DoCommit(s: State): State
    requires s.worker.Written?
  {
    var Written(segment, rowBase) := s.worker;
    if !s.present || segment.start + segment.count < rowBase then s.(worker := Gone(Some(segment)))
    else s.(file := ReadFrom(s.file, segment.start - rowBase + segment.count),
            inputBase := segment.start + segment.count,
            worker := if segment.eof then Closing else Waiting)
  }

  function DoRetire(s: State): State {
    if !s.registered then s
    else s.(registered := false, queue := if |s.queue| < QUEUE_SIZE then s.queue + [Stop] else s.queue)
  }

  ghost function Next(s: State, step: Step): State
    requires Enabled(s, step)
  {
    match step
    case Offer(data, eof) => DoOffer(s, data, eof)
    case Put => DoPut(s)
    case Get => DoGet(s)
    case Load => DoLoad(s)
    case Write => DoWrite(s)
    case Break(sent) => DoBreak(s, sent)
    case Commit => DoCommit(s)
    case Close => s.(worker := Gone(None), shut := true)
    case Finish => s.(finished := true)
    case Retire => DoRetire(s)
    case Prune => s.(present := false, file := [])
  }

  /** The state after a run of steps, if every one of them could be taken. */
  ghost function Run(steps: seq<Step>): Option<State> {
    if steps == [] then Some(INITIAL)
    else match Run(steps[..|steps| - 1])
      case None => None
      case Some(s) => if Enabled(s, steps[|steps| - 1]) then Some(Next(s, steps[|steps| - 1])) else None
  }

  // ---------------------------------------------------------------- invariant

  /** The segment taken from the queue and not committed, also when the worker gave up on it. */
  function InHand(w: Worker): seq<Segment> {
    match w
    case Waiting => []
    case Holding(segment) => [segment]
    case Loaded(segment, _, _) => [segment]
    case Written(segment, _) => [segment]
    case Closing => []
    case Gone(dropped) => if dropped.Some? then [dropped.value] else []
  }

  function Segments(queue: seq<Item>): seq<Segment> {
    if queue == [] then []
    else match queue[|queue| - 1]
      case Data(segment) => Segments(queue[..|queue| - 1]) + [segment]
      case Stop => Segments(queue[..|queue| - 1])
  }

  /** The segments tile the stream from `lo` to `hi`. */
  ghost predicate Tiles(segments: seq<Segment>, lo: nat, hi: nat) {
    if segments == [] then lo == hi
    else
      var last := segments[|segments| - 1];
      last.start + last.count == hi && last.count <= MAX_CHUNK && Tiles(segments[..|segments| - 1], lo, last.start)
  }

  ghost function Outstanding(s: State): seq<Segment> {
    InHand(s.worker) + Segments(s.queue)
  }

  /** How far the process has been fed, seen from the worker's position. */
  ghost predicate Fed(s: State) {
    s.inputBase <= |s.accepted| &&
    match s.worker
    case Loaded(segment, rowBase, data) =>
      && s.delivered == s.accepted[..s.inputBase] && rowBase == s.inputBase
      && s.inputBase + segment.count <= |s.accepted|
      && data == s.accepted[s.inputBase..s.inputBase + segment.count]
    case Written(segment, rowBase) =>
      && rowBase == s.inputBase && s.inputBase + segment.count <= |s.accepted|
      && s.delivered == s.accepted[..s.inputBase + segment.count]
    case Gone(_) => s.inputBase <= |s.delivered| && s.delivered <= s.accepted
    case _ => s.delivered == s.accepted[..s.inputBase]
  }

  ghost predicate QueueOk(s: State) {
    && |s.queue| <= QUEUE_SIZE
    && (forall i :: 0 <= i < |s.queue| && s.queue[i].Stop? ==> !s.registered && i == |s.queue| - 1)
    && (s.lock.Accepting? ==>
          && |s.queue| < QUEUE_SIZE && |s.lock.data| <= MAX_CHUNK
          && s.present && !s.finished && !s.stdinClosed && s.registered)
  }

  /** The end-of-file segment is the last one, and closing comes after everything was delivered. */
  ghost predicate EofLast(s: State) {
    var segments := Outstanding(s);
    && (forall i :: 0 <= i < |segments| && segments[i].eof ==> s.stdinClosed && i == |segments| - 1)
    && (s.worker.Closing? ==> s.stdinClosed && segments == [])
    && (s.shut ==> s.worker.Gone? && s.stdinClosed && s.delivered == s.accepted)
  }

  /** Once stdin is closed to producers, the end-of-file segment is on its way, until the worker closes or gives up. */
  ghost predicate EofComes(s: State) {
    var segments := Outstanding(s);
    s.stdinClosed && !s.worker.Closing? && !s.worker.Gone? ==> segments != [] && segments[|segments| - 1].eof
  }

  /** The spool file is the accepted input from the base on. */
  ghost predicate Spooled(s: State) {
    && s.inputBase <= s.inputEnd == |s.accepted|
    && s.file == if s.present then s.accepted[s.inputBase..] else []
  }

  ghost predicate Inv(s: State) {
    && Spooled(s) && Tiles(Outstanding(s), s.inputBase, s.inputEnd)
    && Fed(s) && QueueOk(s) && EofLast(s) && EofComes(s)
  }

  // ---------------------------------------------------------------- tilings and queues

  lemma {:induction false} SegmentsHead(queue: seq<Item>)
    requires queue != []
    ensures queue[0].Data? ==> Segments(queue) == [queue[0].segment] + Segments(queue[1..])
    ensures queue[0].Stop? ==> Segments(queue) == Segments(queue[1..])
  {
    var before := queue[..|queue| - 1];
    if |queue| > 1 {
      SegmentsHead(before);
      assert before[1..] == queue[1..][..|queue| - 2];
    }
  }

  lemma SegmentsPut(queue: seq<Item>, item: Item)
    ensures item.Data? ==> Segments(queue + [item]) == Segments(queue) + [item.segment]
    ensures item.Stop? ==> Segments(queue + [item]) == Segments(queue)
  {
    assert (queue + [item])[..|queue|] == queue;
  }

  lemma {:induction false} SegmentsFew(queue: seq<Item>)
    ensures |Segments(queue)| <= |queue|
  {
    if queue != [] { SegmentsFew(queue[..|queue| - 1]); }
  }

  lemma TilesPut(segments: seq<Segment>, lo: nat, hi: nat, last: Segment)
    requires Tiles(segments, lo, hi) && last.start == hi && last.count <= MAX_CHUNK
    ensures Tiles(segments + [last], lo, hi + last.count)
  {
    assert (segments + [last])[..|segments|] == segments;
  }

  lemma {:induction false} TilesHead(segments: seq<Segment>, lo: nat, hi: nat)
    requires Tiles(segments, lo, hi) && segments != []
    ensures segments[0].start == lo && lo + segments[0].count <= hi
    ensures Tiles(segments[1..], lo + segments[0].count, hi)
  {
    var before := segments[..|segments| - 1];
    if |segments| > 1 {
      TilesHead(before, lo, segments[|segments| - 1].start);
      assert segments[1..][..|segments| - 2] == before[1..];
    }
  }

  lemma {:induction false} TilesBound(segments: seq<Segment>, lo: nat, hi: nat)
    requires Tiles(segments, lo, hi)
    ensures lo <= hi <= lo + |segments| * MAX_CHUNK
  {
    if segments != [] {
      TilesBound(segments[..|segments| - 1], lo, segments[|segments| - 1].start);
    }
  }

  // ---------------------------------------------------------------- every step keeps the invariant

  /** Appending accepted bytes does not change what was fed. */
  lemma FedExtends(s: State, t: State)
    requires Fed(s) && s.accepted <= t.accepted
    requires t.worker == s.worker && t.inputBase == s.inputBase && t.delivered == s.delivered
    ensures Fed(t)
  {
    forall n: nat | n <= |s.accepted| ensures t.accepted[..n] == s.accepted[..n] {}
    match s.worker
    case Loaded(w, _, _) =>
      assert t.accepted[s.inputBase..s.inputBase + w.count] == s.accepted[s.inputBase..s.inputBase + w.count];
    case _ =>
  }

  lemma PutKeeps(s: State)
    requires Inv(s) && s.lock.Accepting?
    ensures Inv(DoPut(s))
  {
    var t := DoPut(s);
    var segment := Segment(s.inputEnd, |s.lock.data|, s.lock.eof);
    assert Outstanding(t) == Outstanding(s) + [segment] by { SegmentsPut(s.queue, Data(segment)); }
    assert Tiles(Outstanding(t), t.inputBase, t.inputEnd) by {
      TilesPut(Outstanding(s), s.inputBase, s.inputEnd, segment);
    }
    assert Spooled(t) by { assert t.accepted[t.inputBase..] == s.accepted[s.inputBase..] + s.lock.data; }
    assert Fed(t) by { FedExtends(s, t); }
    assert EofLast(t) by { EofLastAfterPut(s, t, segment); }
    assert EofComes(t);
  }

  lemma EofLastAfterPut(s: State, t: State, segment: Segment)
    requires EofLast(s) && !s.stdinClosed && Outstanding(t) == Outstanding(s) + [segment]
    requires t.worker == s.worker && t.shut == s.shut && t.stdinClosed == segment.eof
    ensures EofLast(t)
  {
    var before, after := Outstanding(s), Outstanding(t);
    assert forall i :: 0 <= i < |before| ==> after[i] == before[i] && !before[i].eof;
  }

  lemma GetKeeps(s: State)
    requires Inv(s) && s.worker.Waiting? && s.queue != []
    ensures Inv(DoGet(s))
  {
    SegmentsHead(s.queue);
    assert Outstanding(DoGet(s)) == Outstanding(s);
  }

  /** The segment in hand starts at the base: the worker alone moves the base. */
  lemma HandAtBase(s: State)
    requires Tiles(Outstanding(s), s.inputBase, s.inputEnd) && InHand(s.worker) != []
    ensures var segment := InHand(s.worker)[0];
      && segment.start == s.inputBase && s.inputBase + segment.count <= s.inputEnd
      && Tiles(Segments(s.queue), s.inputBase + segment.count, s.inputEnd)
  {
    TilesHead(Outstanding(s), s.inputBase, s.inputEnd);
    assert Outstanding(s)[1..] == Segments(s.queue);
  }

  lemma LoadFinds(s: State)
    requires Spooled(s) && s.present && s.worker.Holding? && s.worker.segment.start == s.inputBase
    requires s.inputBase + s.worker.segment.count <= s.inputEnd
    ensures DoLoad(s) == s.(worker := Loaded(s.worker.segment, s.inputBase,
                                             s.accepted[s.inputBase..s.inputBase + s.worker.segment.count]))
  {
    assert s.file[0..s.worker.segment.count] == s.accepted[s.inputBase..s.inputBase + s.worker.segment.count];
  }

  lemma LoadKeeps(s: State)
    requires Inv(s) && s.lock.Free? && s.worker.Holding?
    ensures Inv(DoLoad(s))
  {
    HandAtBase(s);
    if s.present {
      LoadFinds(s);
      HoldsLoaded(s);
    } else {
      GivesUp(s);
    }
  }

  lemma HoldsLoaded(s: State)
    requires Inv(s) && s.worker.Holding? && s.inputBase + s.worker.segment.count <= s.inputEnd
    ensures Inv(s.(worker := Loaded(s.worker.segment, s.inputBase,
                                    s.accepted[s.inputBase..s.inputBase + s.worker.segment.count])))
  {
    var segment := s.worker.segment;
    WorkerMoves(s, Loaded(segment, s.inputBase, s.accepted[s.inputBase..s.inputBase + segment.count]));
  }

  /** A worker that gives up on its segment leaves what was fed a prefix of the input. */
  lemma GivesUp(s: State)
    requires Inv(s) && (s.worker.Holding? || s.worker.Written?)
    ensures Inv(s.(worker := Gone(Some(s.worker.segment))))
  {
    assert Fed(s.(worker := Gone(Some(s.worker.segment))));
    WorkerMoves(s, Gone(Some(s.worker.segment)));
  }

  /** A worker that changes its state but not what it holds keeps the invariant, if what was fed still fits. */
  lemma WorkerMoves(s: State, w: Worker)
    requires Inv(s) && !s.shut && InHand(w) == InHand(s.worker) && !w.Closing? && Fed(s.(worker := w))
    requires !s.worker.Closing? && !s.worker.Gone?
    ensures Inv(s.(worker := w))
  {
    assert Outstanding(s.(worker := w)) == Outstanding(s);
  }

  lemma WriteKeeps(s: State)
    requires Inv(s) && s.worker.Loaded?
    ensures Inv(DoWrite(s))
  {
    var segment := s.worker.segment;
    assert Outstanding(DoWrite(s)) == Outstanding(s);
    assert s.accepted[..s.inputBase] + s.accepted[s.inputBase..s.inputBase + segment.count]
           == s.accepted[..s.inputBase + segment.count];
  }

  lemma BreakKeeps(s: State, sent: nat)
    requires Inv(s) && s.worker.Loaded? && sent <= |s.worker.data|
    ensures Inv(DoBreak(s, sent))
  {
    assert Outstanding(DoBreak(s, sent)) == Outstanding(s);
    assert s.accepted[..s.inputBase] + s.worker.data[..sent] == s.accepted[..s.inputBase + sent];
  }

  lemma EofLastAfterCommit(s: State)
    requires EofLast(s) && EofComes(s) && s.worker.Written? && s.present && s.worker.rowBase <= s.worker.segment.start
    ensures EofLast(DoCommit(s)) && EofComes(DoCommit(s))
  {
    var before, after := Outstanding(s), Outstanding(DoCommit(s));
    assert before == [s.worker.segment] + after;
    assert forall i :: 0 <= i < |after| ==> after[i] == before[i + 1];
    assert before[0] == s.worker.segment;
  }

  lemma CommitTrims(s: State)
    requires Spooled(s) && s.present && s.worker.Written? && s.worker.rowBase == s.inputBase
    requires s.worker.segment.start == s.inputBase && s.inputBase + s.worker.segment.count <= s.inputEnd
    ensures Spooled(DoCommit(s))
  {
    var n := s.inputBase + s.worker.segment.count;
    assert s.accepted[s.inputBase..][s.worker.segment.count..] == s.accepted[n..];
  }

  lemma CommitFeeds(s: State)
    requires Fed(s) && s.present && s.worker.Written? && s.worker.segment.start == s.inputBase
    ensures Fed(DoCommit(s))
  {}

  lemma CommitReleases(s: State)
    requires s.present && s.worker.Written? && s.worker.rowBase <= s.worker.segment.start
    ensures Outstanding(DoCommit(s)) == Segments(s.queue)
    ensures QueueOk(s) ==> QueueOk(DoCommit(s))
  {
    assert InHand(DoCommit(s).worker) == [];
  }

  lemma CommitKeeps(s: State)
    requires Inv(s) && s.lock.Free? && s.worker.Written?
    ensures Inv(DoCommit(s))
  {
    if s.present {
      WrittenAtBase(s);
      CommitPresent(s, DoCommit(s));
    } else {
      GivesUp(s);
    }
  }

  lemma WrittenAtBase(s: State)
    requires Inv(s) && s.worker.Written?
    ensures s.worker.segment.start == s.inputBase == s.worker.rowBase
    ensures s.inputBase + s.worker.segment.count <= s.inputEnd
    ensures Tiles(Segments(s.queue), s.inputBase + s.worker.segment.count, s.inputEnd)
  {
    HandAtBase(s);
  }

  lemma CommitPresent(s: State, t: State)
    requires s.present && s.worker.Written? && s.worker.segment.start == s.inputBase == s.worker.rowBase
    requires s.inputBase + s.worker.segment.count <= s.inputEnd && t == DoCommit(s)
    requires Spooled(s) && Fed(s) && QueueOk(s) && EofLast(s) && EofComes(s)
    requires Tiles(Segments(s.queue), s.inputBase + s.worker.segment.count, s.inputEnd)
    ensures Inv(t)
  {
    assert Spooled(t) by { CommitTrims(s); }
    assert EofLast(t) && EofComes(t) by { EofLastAfterCommit(s); }
    assert Fed(t) by { CommitFeeds(s); }
    assert Outstanding(t) == Segments(s.queue) && QueueOk(t) by { CommitReleases(s); }
    assert t.inputBase == s.inputBase + s.worker.segment.count && t.inputEnd == s.inputEnd;
  }

  lemma RetireKeeps(s: State)
    requires Inv(s) && s.lock.Free? && s.finished
    ensures Inv(DoRetire(s))
  {
    if s.registered {
      var t := DoRetire(s);
      SegmentsPut(s.queue, Stop);
      assert Segments(t.queue) == Segments(s.queue);
      QuietStep(s, t);
    }
  }

  /** A step that leaves the worker, the segments and all counters alone keeps everything but the queue's shape. */
  lemma QuietStep(s: State, t: State)
    requires Inv(s) && QueueOk(t) && t == s.(registered := t.registered, queue := t.queue)
    requires Segments(t.queue) == Segments(s.queue)
    ensures Inv(t)
  {
    assert Outstanding(t) == Outstanding(s);
  }

  lemma CloseKeeps(s: State)
    requires Inv(s) && s.worker.Closing?
    ensures Inv(Next(s, Close))
  {
    assert Outstanding(Next(s, Close)) == Outstanding(s);
    assert s.accepted[..s.inputBase] == s.accepted;
  }

  /** Under every interleaving, one step of any thread keeps the invariant. */
  lemma NextKeeps(s: State, step: Step)
    requires Inv(s) && Enabled(s, step)
    ensures Inv(Next(s, step))
  {
    match step
    case Put => PutKeeps(s);
    case Get => GetKeeps(s);
    case Load => LoadKeeps(s);
    case Write => WriteKeeps(s);
    case Break(sent) => BreakKeeps(s, sent);
    case Commit => CommitKeeps(s);
    case Close => CloseKeeps(s);
    case Retire => RetireKeeps(s);
    case Offer(data, eof) => OfferKeeps(s, data, eof);
    case Finish => FinishKeeps(s);
    case Prune => PruneKeeps(s);
  }

  lemma OfferKeeps(s: State, data: Bytes, eof: bool)
    requires Inv(s) && s.lock.Free?
    ensures Inv(DoOffer(s, data, eof))
  {
    assert Outstanding(DoOffer(s, data, eof)) == Outstanding(s);
  }

  lemma FinishKeeps(s: State)
    requires Inv(s) && s.lock.Free?
    ensures Inv(s.(finished := true))
  {
    assert Outstanding(s.(finished := true)) == Outstanding(s);
  }

  lemma PruneKeeps(s: State)
    requires Inv(s) && s.lock.Free?
    ensures Inv(s.(present := false, file := []))
  {
    assert Outstanding(s.(present := false, file := [])) == Outstanding(s);
  }

  lemma {:induction false} RunKeeps(steps: seq<Step>)
    requires Run(steps).Some?
    ensures Inv(Run(steps).value)
  {
    if steps != [] {
      RunKeeps(steps[..|steps| - 1]);
      NextKeeps(Run(steps[..|steps| - 1]).value, steps[|steps| - 1]);
    }
  }

  // ---------------------------------------------------------------- theorems

  /** In every run: nothing is lost, repeated or reordered, and stdin closes only after the last byte. */
  lemma DeliveredInOrder(steps: seq<Step>)
    requires Run(steps).Some?
    ensures var s := Run(steps).value;
      && s.delivered <= s.accepted
      && s.inputBase <= s.inputEnd == |s.accepted|
      && (s.present ==> s.file == s.accepted[s.inputBase..])
      && (s.shut ==> s.delivered == s.accepted && s.stdinClosed)
  {
    RunKeeps(steps);
  }

  /** In every run: the spool never holds more than the queue's sixteen chunks and the one in hand. */
  lemma SpoolBounded(steps: seq<Step>)
    requires Run(steps).Some?
    ensures |Run(steps).value.file| <= 17 * 16384
  {
    RunKeeps(steps);
    var s := Run(steps).value;
    SegmentsFew(s.queue);
    TilesBound(Outstanding(s), s.inputBase, s.inputEnd);
    assert |Outstanding(s)| <= QUEUE_SIZE + 1;
  }

  /** In every run: a producer that saw room can put, whatever the worker did since. */
  lemma PutNeverFails(steps: seq<Step>)
    requires Run(steps).Some? && Run(steps).value.lock.Accepting?
    ensures var s := Run(steps).value;
      DoPut(s).queue == s.queue + [Data(Segment(s.inputEnd, |s.lock.data|, s.lock.eof))]
  {
    RunKeeps(steps);
  }

  /** In every run: while the job exists, the worker always finds its segment complete in the spool. */
  lemma LoadNeverFails(steps: seq<Step>)
    requires Run(steps).Some? && Enabled(Run(steps).value, Load) && Run(steps).value.present
    ensures var s := Run(steps).value; var t := DoLoad(s);
      && t.worker.Loaded? && s.worker.segment.start == s.inputBase
      && s.inputBase + s.worker.segment.count <= |s.accepted|
      && t.worker.data == s.accepted[s.inputBase..s.inputBase + s.worker.segment.count]
  {
    RunKeeps(steps);
    HandAtBase(Run(steps).value);
    LoadFinds(Run(steps).value);
  }

  /**
  In every run: once a producer has closed stdin, the worker is closing it or has
  ended, or the end-of-file segment is still outstanding; so a worker that has
  committed that segment has only the closing left.
  */
  lemma EofReachesWorker(steps: seq<Step>)
    requires Run(steps).Some? && Run(steps).value.stdinClosed
    ensures var s := Run(steps).value; var segments := Outstanding(s);
      s.worker.Closing? || s.worker.Gone? || (segments != [] && segments[|segments| - 1].eof)
  {
    RunKeeps(steps);
  }

  /** A worker's own step. */
  predicate OfWorker(step: Step) {
    step.Get? || step.Load? || step.Write? || step.Commit? || step.Close?
  }

  /** How many steps the worker still has to take. */
  ghost function Work(s: State): nat {
    5 * |Segments(s.queue)| +
    match s.worker
    case Waiting => 0
    case Holding(_) => 4
    case Loaded(_, _, _) => 3
    case Written(_, _) => 2
    case Closing => 1
    case Gone(_) => 0
  }

  /** The next step of a worker that has something to do and is let do it. */
  lemma WorkerStep(s: State) returns (step: Step)
    requires Inv(s) && s.present && s.lock.Free? && Work(s) > 0 && !s.worker.Gone?
    ensures OfWorker(step) && Enabled(s, step)
    ensures var t := Next(s, step);
      && Work(t) < Work(s) && t.present && t.lock.Free? && t.accepted == s.accepted && t.stdinClosed == s.stdinClosed
      && (t.worker.Gone? ==> t.shut)
  {
    match s.worker
    case Waiting =>
      GetWorks(s);
      step := Get;
    case Holding(_) =>
      LoadWorks(s);
      step := Load;
    case Loaded(_, _, _) => step := Write;
    case Written(_, _) =>
      CommitWorks(s);
      step := Commit;
    case Closing => step := Close;
  }

  lemma GetWorks(s: State)
    requires QueueOk(s) && s.worker.Waiting? && Segments(s.queue) != []
    ensures s.queue != [] && s.queue[0].Data? && Work(DoGet(s)) < Work(s) && DoGet(s).worker.Holding?
  {
    SegmentsHead(s.queue);
  }

  lemma LoadWorks(s: State)
    requires Inv(s) && s.present && s.worker.Holding?
    ensures DoLoad(s).worker.Loaded? && DoLoad(s) == s.(worker := DoLoad(s).worker)
  {
    HandAtBase(s);
    LoadFinds(s);
  }

  lemma CommitWorks(s: State)
    requires Inv(s) && s.present && s.worker.Written?
    ensures var t := DoCommit(s); t == s.(file := t.file, inputBase := t.inputBase, worker := t.worker)
    ensures DoCommit(s).worker.Closing? || DoCommit(s).worker.Waiting?
  {
    WrittenAtBase(s);
  }

  /**
  Nothing is left behind: from every reachable state in which the job exists, its
  stdin lock is free and its worker has not ended, the worker's own steps lead to a
  state in which the process received everything that was accepted, and in which its
  stdin is closed if a producer closed it.
  */
  lemma {:induction false} WorkerDrains(steps: seq<Step>) returns (more: seq<Step>)
    requires Run(steps).Some? && Run(steps).value.present && Run(steps).value.lock.Free?
    requires !Run(steps).value.worker.Gone? || Run(steps).value.shut
    ensures (forall i :: 0 <= i < |more| ==> OfWorker(more[i])) && Run(steps + more).Some?
    ensures var s, t := Run(steps).value, Run(steps + more).value;
      t.accepted == s.accepted && t.delivered == s.accepted && (s.stdinClosed ==> t.shut)
  {
    RunKeeps(steps);
    var t;
    more, t := Drains(Run(steps).value);
    RunAppend(steps, Run(steps).value, more);
  }

  /** The state after some more steps, if every one of them could be taken. */
  ghost function RunFrom(s: State, more: seq<Step>): Option<State>
    decreases |more|
  {
    if more == [] then Some(s) else if Enabled(s, more[0]) then RunFrom(Next(s, more[0]), more[1..]) else None
  }

  lemma {:induction false} RunAppend(steps: seq<Step>, s: State, more: seq<Step>)
    requires Run(steps) == Some(s) && RunFrom(s, more).Some?
    ensures Run(steps + more) == RunFrom(s, more)
    decreases |more|
  {
    if more == [] {
      assert steps + more == steps;
    } else {
      assert (steps + [more[0]])[..|steps|] == steps;
      RunAppend(steps + [more[0]], Next(s, more[0]), more[1..]);
      assert steps + more == steps + [more[0]] + more[1..];
    }
  }

  lemma {:induction false} Drains(s: State) returns (more: seq<Step>, t: State)
    requires Inv(s) && s.present && s.lock.Free? && (!s.worker.Gone? || s.shut)
    ensures (forall i :: 0 <= i < |more| ==> OfWorker(more[i])) && RunFrom(s, more) == Some(t)
    ensures t.accepted == s.accepted && t.delivered == s.accepted && (s.stdinClosed ==> t.shut)
    decreases Work(s)
  {
    if s.worker.Gone? {
      more, t := [], s;
    } else if Work(s) == 0 {
      DrainedAll(s);
      more, t := [], s;
    } else {
      var step := WorkerStep(s);
      NextKeeps(s, step);
      var rest;
      rest, t := Drains(Next(s, step));
      more := [step] + rest;
      assert more[1..] == rest;
    }
  }

  lemma DrainedAll(s: State)
    requires Inv(s) && s.worker.Waiting? && Segments(s.queue) == []
    ensures s.delivered == s.accepted && !s.stdinClosed
  {
    assert Outstanding(s) == [];
    assert s.accepted[..s.inputBase] == s.accepted;
  }

  /** A chunk is accepted exactly for a running job with open stdin, of at most 16384 bytes, with fewer than 16 queued. */
  lemma AcceptedExactly(s: State, data: Bytes)
    ensures Admission(s, data).None? <==>
      s.present && !s.finished && !s.stdinClosed && |data| <= 16384 && s.registered && |s.queue| < 16
  {}

  /** In every run: what is queued or in hand tiles the spooled input, with end-of-file last. */
  lemma QueueIsContiguous(steps: seq<Step>)
    requires Run(steps).Some?
    ensures var s := Run(steps).value; var segments := Outstanding(s);
      && Tiles(segments, s.inputBase, s.inputEnd)
      && forall i :: 0 <= i < |segments| && segments[i].eof ==> i == |segments| - 1
  {
    RunKeeps(steps);
  }

  // ---------------------------------------------------------------- the lock-held blocks, statement by statement

  /**
  One job's row, spool file and queue, with the worker's position between its
  lock sections.  Each of the worker's methods performs one step of the model, and
  a producer's request, which holds the lock throughout, performs its two.
  */
  class InputSpool {
    var present: bool
    var finished: bool
    var stdinClosed: bool
    var inputBase: nat
    var inputEnd: nat
    var file: Bytes
    var registered: bool
    var queue: seq<Item>
    var worker: Worker
    var delivered: Bytes
    var shut: bool
    ghost var accepted: Bytes

    ghost function View(): State
      reads this
    {
      State(present, finished, stdinClosed, inputBase, inputEnd, file, registered, queue, worker, Free,
            delivered, shut, accepted)
    }

    constructor ()
      ensures View() == INITIAL
    {
      present, finished, stdinClosed, registered, shut := true, false, false, true, false;
      inputBase, inputEnd, file, queue, worker, delivered, accepted := 0, 0, [], [], Waiting, [], [];
    }

    /** The stdin request of a client. */
    method TaskStdin(data: Bytes, eof: bool) returns (refusal: Option<Refusal>)
      modifies this
      ensures refusal == Admission(old(View()), data)
      ensures View() == if refusal.Some? then old(View()) else DoPut(DoOffer(old(View()), data, eof))
    {
      refusal := None;
      if !present { return Some(NoJob); }
      if finished || stdinClosed { return Some(StdinClosed); }
      if |data| > MAX_CHUNK { return Some(TooLarge); }
      if !registered { return Some(Unavailable); }
      if |queue| >= QUEUE_SIZE { return Some(QueueFull); }
      var end := inputEnd;
      file := file + data;
      inputEnd, stdinClosed := end + |data|, eof;
      accepted := accepted + data;
      queue := queue + [Data(Segment(end, |data|, eof))];
    }

    /** The worker takes the next item from the queue. */
    method WorkerGet()
      requires worker.Waiting? && queue != []
      modifies this`queue, this`worker
      ensures View() == DoGet(old(View()))
    {
      var item := queue[0];
      queue := queue[1..];
      worker := match item case Stop => Gone(None) case Data(segment) => Holding(segment);
    }

    /** The worker writes to the process; `sent` is how much gets through before the pipe breaks, if it does. */
    method WorkerWrite(sent: Option<nat>)
      requires worker.Loaded? && (sent.Some? ==> sent.value <= |worker.data|)
      modifies this`delivered, this`worker
      ensures View() == if sent.Some? then DoBreak(old(View()), sent.value) else DoWrite(old(View()))
    {
      var Loaded(segment, rowBase, data) := worker;
      if sent.Some? {
        delivered := delivered + data[..sent.value];
        worker := Gone(Some(segment));
      } else {
        delivered := delivered + data;
        worker := Written(segment, rowBase);
      }
    }

    /** After the end-of-file segment the worker closes the process's stdin and returns. */
    method WorkerClose()
      requires worker.Closing?
      modifies this`shut, this`worker
      ensures View() == Next(old(View()), Close)
    {
      shut := true;
      worker := Gone(None);
    }

    /** The worker's first lock section. */
    method WorkerLoad()
      requires worker.Holding?
      modifies this`worker
      ensures View() == DoLoad(old(View()))
    {
      var segment := worker.segment;
      if !present || segment.start < inputBase { worker := Gone(Some(segment)); return; }
      var data := ReadAt(file, segment.start - inputBase, segment.count);
      if |data| != segment.count { worker := Gone(Some(segment)); return; }
      worker := Loaded(segment, inputBase, data);
    }

    /** The worker's second lock section. */
    method WorkerCommit()
      requires worker.Written?
      modifies this`file, this`inputBase, this`worker
      ensures View() == DoCommit(old(View()))
    {
      var Written(segment, rowBase) := worker;
      if !present || segment.start + segment.count < rowBase { worker := Gone(Some(segment)); return; }
      file := ReadFrom(file, segment.start - rowBase + segment.count);
      inputBase := segment.start + segment.count;
      worker := if segment.eof then Closing else Waiting;
    }
  }
}
