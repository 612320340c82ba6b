/**
The output spool of one job: a file that holds a sliding window of an append-only
stream.  The collector appends, and truncates the front when the window exceeds
its limit; readers page through it, and a read at an advanced offset lets the
Manager trim what it acknowledges.
*/
module OutputSpool {
  import opened Prelude

  type Bytes = seq<bv8>

  const MAX_OUTPUT := 67108864
  const TRIM_SIZE := 1048576
  const PAGE_SIZE := 65536

  /** `rewritten` counts the bytes that reads have copied to trim the file. */
  datatype State = State(
    base: nat,
    end: nat,
    truncated: bool,
    collected: bool,
    file: Bytes,
    stream: Bytes,
    rewritten: nat)

  const INITIAL := State(0, 0, false, false, [], [], 0)

  datatype Page = Page(output: Bytes, size: nat, nextOffset: nat, base: nat, gap: bool)

  function DoAppend(s: State, data: Bytes): State {
    if data == [] then s
    else
      var t := s.(file := s.file + data, end := s.end + |data|, stream := s.stream + data);
      var discard := t.end - t.base - MAX_OUTPUT;
      if discard > 0 then t.(file := ReadFrom(t.file, discard), base := t.base + discard, truncated := true) else t
  }

  /** The offset a read really starts at. */
  function Clamp(s: State, offset: nat): nat {
    if offset < s.base || s.end < s.base then s.base else if offset > s.end then s.end else offset
  }

  predicate Trims(s: State, offset: nat) {
    offset > s.base && (Clamp(s, offset) == s.end || Clamp(s, offset) - s.base >= TRIM_SIZE)
  }

  function PageAt(s: State, offset: nat): Page {
    var actual := Clamp(s, offset);
    var rest := ReadFrom(s.file, actual - s.base);
    var data := if |rest| <= PAGE_SIZE then rest else rest[..PAGE_SIZE];
    Page(data, s.end, actual + |data|, if Trims(s, offset) then actual else s.base, offset < s.base)
  }

  function DoRead(s: State, offset: nat, finished: bool): State {
    var actual := Clamp(s, offset);
    var rest := ReadFrom(s.file, actual - s.base);
    var t := if Trims(s, offset) then s.(file := rest, base := actual, rewritten := s.rewritten + |rest|) else s;
    if finished && PageAt(s, offset).nextOffset == s.end then t.(collected := true) else t
  }

  /** The file is exactly the window of the stream, the window is bounded, and trimming has paid for itself. */
  ghost predicate Inv(s: State) {
    && s.base <= s.end == |s.stream|
    && s.file == s.stream[s.base..]
    && s.end - s.base <= MAX_OUTPUT
    && s.rewritten <= 63 * s.base
  }

  lemma AppendKeeps(s: State, data: Bytes)
    requires Inv(s)
    ensures Inv(DoAppend(s, data))
    ensures DoAppend(s, data).stream == s.stream + data
    ensures DoAppend(s, data).truncated <==> s.truncated || s.end + |data| - s.base > MAX_OUTPUT
  {
    var file := s.file + data;
    assert file == (s.stream + data)[s.base..];
    var discard := s.end + |data| - s.base - MAX_OUTPUT;
    if 0 < discard {
      assert file[discard..] == (s.stream + data)[s.base + discard..];
    }
  }

  lemma ReadKeeps(s: State, offset: nat, finished: bool)
    requires Inv(s)
    ensures Inv(DoRead(s, offset, finished))
    ensures var t := DoRead(s, offset, finished);
      t.stream == s.stream && t.end == s.end && t.truncated == s.truncated && s.base <= t.base <= Clamp(s, offset)
  {
    var actual := Clamp(s, offset);
    assert ReadFrom(s.file, actual - s.base) == s.stream[actual..];
  }

  /** A page is exactly the stream from the clamped offset on, and reports a gap exactly when bytes were lost to the reader. */
  lemma PageIsStreamSlice(s: State, offset: nat)
    requires Inv(s)
    ensures var page := PageAt(s, offset); var actual := Clamp(s, offset);
      && s.base <= actual <= page.nextOffset <= s.end
      && page.output == s.stream[actual..page.nextOffset]
      && (page.nextOffset < s.end ==> |page.output| == 65536)
      && (page.gap <==> offset < s.base)
      && (!page.gap && offset <= s.end ==> actual == offset)
      && page.size == |s.stream|
      && page.base == DoRead(s, offset, false).base
  {
    var actual := Clamp(s, offset);
    assert ReadFrom(s.file, actual - s.base) == s.stream[actual..];
  }

  // ---------------------------------------------------------------- any number of readers

  datatype Event = Append(data: Bytes) | Read(offset: nat, finished: bool)

  function Apply(s: State, e: Event): State {
    match e
    case Append(data) => DoAppend(s, data)
    case Read(offset, finished) => DoRead(s, offset, finished)
  }

  function Run(es: seq<Event>): State {
    if es == [] then INITIAL else Apply(Run(es[..|es| - 1]), es[|es| - 1])
  }

  function Appended(es: seq<Event>): Bytes {
    if es == [] then []
    else
      var before := Appended(es[..|es| - 1]);
      if es[|es| - 1].Append? then before + es[|es| - 1].data else before
  }

  /** For every interleaving: the stream is what was appended, and the file is its window. */
  lemma {:induction false} RunKeeps(es: seq<Event>)
    ensures Inv(Run(es)) && Run(es).stream == Appended(es) && |Run(es).file| <= 67108864
  {
    if es != [] {
      var s, e := Run(es[..|es| - 1]), es[|es| - 1];
      RunKeeps(es[..|es| - 1]);
      match e
      case Append(data) => AppendKeeps(s, data);
      case Read(offset, finished) => ReadKeeps(s, offset, finished);
    }
  }

  /** Trimming is linear: all reads together copy at most 63 bytes per byte of output. */
  lemma LinearTrimming(es: seq<Event>)
    ensures Run(es).rewritten <= 63 * Run(es).base <= 63 * |Appended(es)|
  {
    RunKeeps(es);
  }

  /** Event `i` of the run read a finished job up to the end of its output. */
  ghost predicate ReadsToEnd(es: seq<Event>, i: nat) {
    && i < |es| && es[i].Read? && es[i].finished
    && PageAt(Run(es[..i]), es[i].offset).nextOffset == |Appended(es[..i])|
  }

  /** A job counts as collected exactly when some read of it, once finished, reached the end of its output. */
  lemma {:induction false} CollectedExactly(es: seq<Event>)
    ensures Run(es).collected <==> exists i: nat :: ReadsToEnd(es, i)
  {
    if Run(es).collected { var i := CollectedByRead(es); }
    if i: nat :| ReadsToEnd(es, i) { ReadCollects(es, i); }
  }

  lemma {:induction false} CollectedByRead(es: seq<Event>) returns (i: nat)
    requires Run(es).collected
    ensures ReadsToEnd(es, i)
  {
    LastReads(es);
    if ReadsToEnd(es, |es| - 1) {
      i := |es| - 1;
    } else {
      i := CollectedByRead(es[..|es| - 1]);
      ReadsEarlier(es, i);
    }
  }

  lemma {:induction false} ReadCollects(es: seq<Event>, i: nat)
    requires ReadsToEnd(es, i)
    ensures Run(es).collected
  {
    LastReads(es);
    if i < |es| - 1 {
      ReadsEarlier(es, i);
      ReadCollects(es[..|es| - 1], i);
    }
  }

  lemma {:induction false} ReadsEarlier(es: seq<Event>, i: nat)
    requires i < |es| - 1
    ensures ReadsToEnd(es, i) <==> ReadsToEnd(es[..|es| - 1], i)
  {
    assert es[..|es| - 1][..i] == es[..i];
  }

  /** The last event leaves the job collected if it was, or if it reads a finished job to the end. */
  lemma {:induction false} LastReads(es: seq<Event>)
    requires es != []
    ensures Run(es).collected <==> Run(es[..|es| - 1]).collected || ReadsToEnd(es, |es| - 1)
  {
    RunKeeps(es[..|es| - 1]);
  }

  /** A read gives back the space of what its offset acknowledges: at the end, or by the mebibyte. */
  lemma ReadAcknowledges(s: State, offset: nat, finished: bool)
    requires Inv(s)
    ensures var t := DoRead(s, offset, finished);
      && (offset > s.base && offset >= s.end ==> t.base == s.end)
      && (offset - s.base >= 1048576 && offset <= s.end ==> t.base == offset)
      && (offset - s.base < 1048576 && offset < s.end ==> t.base == s.base)
  {}

  // ---------------------------------------------------------------- a sole reader

  datatype Turn = Produce(data: Bytes) | Poll(finished: bool)

  /** The spool together with a reader that always asks for the last `nextOffset`. */
  datatype Follower = Follower(spool: State, position: nat, received: Bytes, sawGap: bool)

  function Follow(f: Follower, turn: Turn): Follower {
    match turn
    case Produce(data) => f.(spool := DoAppend(f.spool, data))
    case Poll(finished) =>
      var page := PageAt(f.spool, f.position);
      Follower(DoRead(f.spool, f.position, finished), page.nextOffset, f.received + page.output, f.sawGap || page.gap)
  }

  function FollowAll(turns: seq<Turn>): Follower {
    if turns == [] then Follower(INITIAL, 0, [], false)
    else Follow(FollowAll(turns[..|turns| - 1]), turns[|turns| - 1])
  }

  ghost predicate FollowerInv(f: Follower) {
    && Inv(f.spool) && f.position <= f.spool.end
    && (!f.spool.truncated ==> f.spool.base <= f.position)
    && (f.sawGap ==> f.spool.truncated)
    && (!f.sawGap ==> f.received == f.spool.stream[..f.position])
  }

  lemma ProduceKeeps(f: Follower, data: Bytes)
    requires FollowerInv(f)
    ensures FollowerInv(Follow(f, Produce(data)))
  {
    AppendKeeps(f.spool, data);
    assert (f.spool.stream + data)[..f.position] == f.spool.stream[..f.position];
  }

  lemma Contiguous(stream: Bytes, i: nat, j: nat)
    requires i <= j <= |stream|
    ensures stream[..i] + stream[i..j] == stream[..j]
  {}

  lemma PollKeeps(f: Follower, finished: bool)
    requires FollowerInv(f)
    ensures FollowerInv(Follow(f, Poll(finished)))
  {
    var s, page := f.spool, PageAt(f.spool, f.position);
    var t := DoRead(s, f.position, finished);
    ReadKeeps(s, f.position, finished);
    PageIsStreamSlice(s, f.position);
    var n := Follow(f, Poll(finished));
    assert n == Follower(t, page.nextOffset, f.received + page.output, f.sawGap || page.gap);
    if !n.sawGap { Contiguous(s.stream, f.position, page.nextOffset); }
  }

  /**
  A sole reader that follows `nextOffset` from 0 receives the stream without a
  hole until a gap is reported, and a gap is reported only if an append has
  truncated the spool.
  */
  lemma {:induction false} FollowerSeesStream(turns: seq<Turn>)
    ensures FollowerInv(FollowAll(turns))
    ensures var f := FollowAll(turns);
      && (f.sawGap ==> f.spool.truncated)
      && (!f.sawGap ==> f.position <= |f.spool.stream| && f.received == f.spool.stream[..f.position])
  {
    if turns != [] {
      FollowerSeesStream(turns[..|turns| - 1]);
      var f := FollowAll(turns[..|turns| - 1]);
      match turns[|turns| - 1]
      case Produce(data) => ProduceKeeps(f, data);
      case Poll(finished) => PollKeeps(f, finished);
    }
  }

  // ---------------------------------------------------------------- the methods, statement by statement

  datatype Failure = InvalidOffset

  class Spool {
    var base: nat
    var end: nat
    var truncated: bool
    var collected: bool
    var file: Bytes
    ghost var stream: Bytes
    ghost var rewritten: nat

    ghost function View(): State
      reads this
    {
      State(base, end, truncated, collected, file, stream, rewritten)
    }

    constructor ()
      ensures View() == INITIAL
    {
      base, end, truncated, collected, file := 0, 0, false, false, [];
      stream, rewritten := [], 0;
    }

    method AppendOutput(data: Bytes)
      modifies this
      ensures View() == DoAppend(old(View()), data)
    {
      if data == [] { return; }
      file := file + data;
      stream := stream + data;
      end := end + |data|;
      if end - base > MAX_OUTPUT {
        var discard := end - base - MAX_OUTPUT;
        file := ReadFrom(file, discard);
        base := base + discard;
        truncated := true;
      }
    }

    method ReadOutput(offset: int, finished: bool) returns (r: Result<Page, Failure>)
      modifies this
      ensures offset < 0 ==> r == Err(InvalidOffset) && View() == old(View())
      ensures offset >= 0 ==> r == Ok(PageAt(old(View()), offset)) && View() == DoRead(old(View()), offset, finished)
    {
      if offset < 0 { return Err(InvalidOffset); }
      var before, size := base, end;
      var actual := offset;
      if actual > size { actual := size; }
      if actual < before { actual := before; }
      assert actual == Clamp(View(), offset);
      var rest := ReadFrom(file, actual - before);
      var data := if |rest| <= PAGE_SIZE then rest else rest[..PAGE_SIZE];
      var trims := offset > before && (actual == size || actual - before >= TRIM_SIZE);
      assert trims == Trims(View(), offset);
      r := Ok(Page(data, size, actual + |data|, if trims then actual else before, offset < before));
      assert r == Ok(PageAt(View(), offset));
      if trims {
        file := rest;
        rewritten := rewritten + |rest|;
        base := actual;
      }
      if finished && actual + |data| == size { collected := true; }
    }
  }
}
