/** The paced copy of an image archive: chunks of at most 64 KiB, each held back by the time its predecessor earned. */
module PacedCopy {
  import opened Outcomes
  import opened Wire

  const CHUNK_BYTES := 64 * 0x400

  /** One write at the receiver: when it began and what was taken. */
  datatype Written = Written(time: real, bytes: Bytes)

  function Taken(writes: seq<Written>): Bytes {
    if writes == [] then [] else Taken(writes[..|writes| - 1]) + writes[|writes| - 1].bytes
  }

  /** Every write took something. */
  predicate AllTook(writes: seq<Written>) { forall w :: w in writes ==> w.bytes != [] }

  lemma {:induction false} AllTookAppend(a: seq<Written>, b: seq<Written>)
    requires AllTook(a) && AllTook(b)
    ensures AllTook(a + b)
  {}

  /** A chunk, the write that began it, and when that was. */
  datatype Start = Start(time: real, bytes: Bytes, first: nat)

  function Sent(starts: seq<Start>): Bytes {
    if starts == [] then [] else Sent(starts[..|starts| - 1]) + starts[|starts| - 1].bytes
  }

  /** Each chunk begins at its own write, when exactly the chunks before it had been taken. */
  ghost predicate Begun(starts: seq<Start>, writes: seq<Written>) {
    forall i :: 0 <= i < |starts| ==> starts[i].first < |writes| && starts[i].time == writes[starts[i].first].time &&
                                      Taken(writes[..starts[i].first]) == Sent(starts[..i])
  }

  /** What the rate allows in a span of time. */
  function Allowed(rate: real, span: real): real { rate * span }

  /** The time that a number of bytes takes at the rate. */
  function Span(size: nat, rate: real): real
    requires rate > 0.0
  {
    size as real / rate
  }

  /** A chunk begins no sooner than its predecessor's size allows. */
  predicate Paced(starts: seq<Start>, rate: real) {
    && (forall i :: 0 <= i < |starts| ==> |starts[i].bytes| <= CHUNK_BYTES)
    && (forall i :: 0 < i < |starts| ==> starts[i - 1].time <= starts[i].time &&
                                         |starts[i - 1].bytes| as real <= Allowed(rate, starts[i].time - starts[i - 1].time))
  }

  /** The bytes of the chunks begun in a window of time. */
  function Window(starts: seq<Start>, from: real, to: real): nat {
    if starts == [] then 0
    else
      var last := starts[|starts| - 1];
      Window(starts[..|starts| - 1], from, to) + if from <= last.time <= to then |last.bytes| else 0
  }

  lemma {:induction false} PacedPrefix(starts: seq<Start>, rate: real, n: nat)
    requires Paced(starts, rate) && n <= |starts|
    ensures Paced(starts[..n], rate)
  {
    hide Allowed;
    forall i | 0 < i < n ensures starts[..n][i - 1].time <= starts[..n][i].time &&
                                 |starts[..n][i - 1].bytes| as real <= Allowed(rate, starts[..n][i].time - starts[..n][i - 1].time) {}
  }

  lemma {:induction false} NoneYet(starts: seq<Start>, rate: real, from: real, to: real)
    requires Paced(starts, rate) && (starts != [] ==> starts[|starts| - 1].time < from)
    ensures Window(starts, from, to) == 0
    decreases |starts|
  {
    hide Allowed;
    if starts != [] {
      PacedPrefix(starts, rate, |starts| - 1);
      NoneYet(starts[..|starts| - 1], rate, from, to);
    }
  }

  lemma {:induction false} Spans(rate: real, a: real, b: real, c: real)
    ensures Allowed(rate, b - a) + Allowed(rate, c - b) == Allowed(rate, c - a)
  {}

  lemma {:induction false} Earned(rate: real, a: real, b: real)
    requires rate > 0.0 && a <= b
    ensures Allowed(rate, b - a) >= 0.0
  {}

  /** Everything begun in the window before its last chunk was earned by then. */
  lemma {:induction false} UpToLast(starts: seq<Start>, rate: real, from: real, to: real)
    requires Paced(starts, rate) && rate > 0.0 && starts != [] && from <= starts[|starts| - 1].time <= to
    ensures var last := starts[|starts| - 1];
      Window(starts, from, to) as real <= Allowed(rate, last.time - from) + |last.bytes| as real
    decreases |starts|
  {
    hide Allowed;
    var last, earlier := starts[|starts| - 1], starts[..|starts| - 1];
    PacedPrefix(starts, rate, |starts| - 1);
    if earlier != [] && from <= earlier[|earlier| - 1].time {
      var previous := earlier[|earlier| - 1];
      assert previous == starts[|starts| - 1 - 1];
      UpToLast(earlier, rate, from, to);
      Spans(rate, from, previous.time, last.time);
    } else {
      NoneYet(earlier, rate, from, to);
      Earned(rate, from, last.time);
    }
  }

  /** In any window of time at most what the rate allows for its length is begun, and one chunk more. */
  lemma {:induction false} AnyWindow(starts: seq<Start>, rate: real, from: real, to: real)
    requires Paced(starts, rate) && rate > 0.0 && from <= to
    ensures Window(starts, from, to) as real <= Allowed(rate, to - from) + CHUNK_BYTES as real
    decreases |starts|
  {
    hide Allowed;
    Earned(rate, from, to);
    if starts != [] {
      var last := starts[|starts| - 1];
      if last.time < from {
        NoneYet(starts, rate, from, to);
      } else if last.time > to {
        PacedPrefix(starts, rate, |starts| - 1);
        AnyWindow(starts[..|starts| - 1], rate, from, to);
        assert Window(starts, from, to) == Window(starts[..|starts| - 1], from, to);
      } else {
        UpToLast(starts, rate, from, to);
        Spans(rate, from, last.time, to);
        Earned(rate, last.time, to);
        assert |last.bytes| <= CHUNK_BYTES && |last.bytes| as real <= CHUNK_BYTES as real;
      }
    }
  }

  /** The bound is met: chunks at exactly the permitted moments fill a window up to it. */
  lemma {:induction false} WindowIsTight(rate: real, starts: seq<Start>, n: nat)
    requires rate > 0.0 && |starts| == n + 1
    requires forall i :: 0 <= i <= n ==> |starts[i].bytes| == CHUNK_BYTES && starts[i].time * rate == (i * CHUNK_BYTES) as real
    ensures Window(starts, 0.0, starts[n].time) as real == Allowed(rate, starts[n].time) + CHUNK_BYTES as real
  {
    forall i | 0 <= i <= n ensures 0.0 <= starts[i].time <= starts[n].time {
      Ordered(rate, starts[i].time, (i * CHUNK_BYTES) as real, starts[n].time, (n * CHUNK_BYTES) as real);
      Ordered(rate, 0.0, 0.0, starts[i].time, (i * CHUNK_BYTES) as real);
    }
    AllInside(starts, 0.0, starts[n].time);
  }

  lemma {:induction false} Ordered(rate: real, a: real, x: real, b: real, y: real)
    requires rate > 0.0 && a * rate == x && b * rate == y && x <= y
    ensures a <= b
  {
    assert (b - a) * rate == y - x;
  }

  lemma {:induction false} AllInside(starts: seq<Start>, from: real, to: real)
    requires forall i :: 0 <= i < |starts| ==> |starts[i].bytes| == CHUNK_BYTES && from <= starts[i].time <= to
    ensures Window(starts, from, to) == |starts| * CHUNK_BYTES
    decreases |starts|
  {
    if starts != [] { AllInside(starts[..|starts| - 1], from, to); }
  }

  type Pause = span: real | span >= 0.0

  /** A clock that never goes back; every look at it and everything awaited takes some time. */
  class Clock {
    const drift: nat -> Pause
    var time: real
    var looks: nat

    constructor (drift: nat -> Pause)
      ensures this.drift == drift && time == 0.0
    {
      this.drift, time, looks := drift, 0.0, 0;
    }

    method Now() returns (now: real)
      modifies this
      ensures now == time >= old(time)
    {
      time, looks := time + drift(looks), looks + 1;
      now := time;
    }

    /** Sleeps at least as long as asked. */
    method Sleep(delay: real)
      requires delay > 0.0
      modifies this
      ensures time >= old(time) + delay
    {
      time, looks := time + delay + drift(looks), looks + 1;
    }
  }

  /** The other end, which may take any part of what it is given, or stop. */
  class Receiver {
    const clock: Clock
    const accepts: nat -> nat
    var calls: nat
    ghost var writes: seq<Written>

    constructor (clock: Clock, accepts: nat -> nat)
      ensures this.clock == clock && this.accepts == accepts && writes == []
    {
      this.clock, this.accepts, calls, writes := clock, accepts, 0, [];
    }

    method Write(bytes: Bytes) returns (taken: nat)
      requires bytes != []
      modifies this, clock
      ensures taken == (if accepts(old(calls)) < |bytes| then accepts(old(calls)) else |bytes|) && calls == old(calls) + 1
      ensures writes == old(writes) + [Written(old(clock.time), bytes[..taken])] && clock.time >= old(clock.time)
    {
      taken := if accepts(calls) < |bytes| then accepts(calls) else |bytes|;
      calls := calls + 1;
      writes := writes + [Written(clock.time, bytes[..taken])];
      var done := clock.Now();
    }
  }

  lemma {:induction false} TakenAppend(a: seq<Written>, b: seq<Written>)
    ensures Taken(a + b) == Taken(a) + Taken(b)
    decreases |b|
  {
    if b == [] {
      assert a + b == a;
    } else {
      assert (a + b)[..|a + b| - 1] == a + b[..|b| - 1];
      TakenAppend(a, b[..|b| - 1]);
    }
  }

  /** Writes one chunk, however little is taken at a time. */
  method WriteChunk(chunk: Bytes, destination: Receiver) returns (ok: bool, ghost made: seq<Written>)
    requires chunk != []
    modifies destination, destination.clock
    ensures destination.writes == old(destination.writes) + made && made != [] && made[0].time == old(destination.clock.time)
    ensures destination.clock.time >= old(destination.clock.time)
    ensures Taken(made) <= chunk
    ensures if ok then Taken(made) == chunk && AllTook(made)
            else made[|made| - 1].bytes == [] && Taken(made) < chunk
  {
    made := [];
    var offset := 0;
    while offset < |chunk|
      invariant 0 <= offset <= |chunk| && Taken(made) == chunk[..offset]
      invariant destination.writes == old(destination.writes) + made && destination.clock.time >= old(destination.clock.time)
      invariant AllTook(made)
      invariant if made == [] then offset == 0 && destination.clock.time == old(destination.clock.time)
                else made[0].time == old(destination.clock.time)
    {
      ghost var begun := destination.clock.time;
      var written := destination.Write(chunk[offset..]);
      ghost var write := Written(begun, chunk[offset..][..written]);
      assert chunk[..offset] + write.bytes == chunk[..offset + written];
      assert (made + [write])[..|made|] == made;
      made := made + [write];
      if written == 0 {
        return false, made;
      }
      offset := offset + written;
    }
    ok := true;
  }

  lemma {:induction false} BegunMore(starts: seq<Start>, writes: seq<Written>, more: seq<Written>)
    requires Begun(starts, writes)
    ensures Begun(starts, writes + more)
  {
    forall i | 0 <= i < |starts| ensures Taken((writes + more)[..starts[i].first]) == Sent(starts[..i]) {
      assert (writes + more)[..starts[i].first] == writes[..starts[i].first];
    }
  }

  /** A new chunk begins at the next write. */
  lemma {:induction false} BegunNext(starts: seq<Start>, writes: seq<Written>, made: seq<Written>, chunk: Bytes)
    requires Begun(starts, writes) && Taken(writes) == Sent(starts) && made != []
    ensures Begun(starts + [Start(made[0].time, chunk, |writes|)], writes + made)
  {
    var next := starts + [Start(made[0].time, chunk, |writes|)];
    BegunMore(starts, writes, made);
    forall i | 0 <= i < |next| ensures next[i].first < |writes + made| && next[i].time == (writes + made)[next[i].first].time &&
                                       Taken((writes + made)[..next[i].first]) == Sent(next[..i]) {
      if i == |starts| {
        assert next[..i] == starts && (writes + made)[..|writes|] == writes;
      } else {
        assert next[..i] == starts[..i];
      }
    }
  }

  lemma {:induction false} PacedNext(starts: seq<Start>, rate: real, next: Start)
    requires Paced(starts, rate) && |next.bytes| <= CHUNK_BYTES
    requires starts != [] ==> var last := starts[|starts| - 1];
               last.time <= next.time && |last.bytes| as real <= Allowed(rate, next.time - last.time)
    ensures Paced(starts + [next], rate)
  {
    hide Allowed;
    var all := starts + [next];
    forall i | 0 < i < |all| ensures all[i - 1].time <= all[i].time &&
                                     |all[i - 1].bytes| as real <= Allowed(rate, all[i].time - all[i - 1].time) {
      if i < |starts| { assert all[i] == starts[i] && all[i - 1] == starts[i - 1]; }
    }
  }

  /** A chunk that begins no sooner than the next write was due is paced. */
  lemma {:induction false} Due(rate: real, size: nat, ended: real, begun: real, next: real)
    requires rate > 0.0 && begun <= ended && next >= ended + Span(size, rate)
    ensures begun <= next && size as real <= Allowed(rate, next - begun)
  {
    var earned := Span(size, rate);
    assert earned * rate == size as real;
    Earned(rate, earned, next - begun);
    Spans(rate, 0.0, earned, next - begun);
  }

  /** The chunks sent so far, the writes that took them, and when the next one is due. */
  ghost predicate Progress(starts: seq<Start>, made: seq<Written>, rate: real, due: real)
    requires rate > 0.0
  {
    && Begun(starts, made) && Paced(starts, rate) && Taken(made) == Sent(starts)
    && (starts != [] ==> starts[|starts| - 1].time + Span(|starts[|starts| - 1].bytes|, rate) <= due)
  }

  lemma {:induction false} ProgressNext(starts: seq<Start>, made: seq<Written>, rate: real, due: real, chunk: Bytes, written: seq<Written>)
    requires rate > 0.0 && Progress(starts, made, rate, due) && |chunk| <= CHUNK_BYTES && Taken(written) <= chunk
    requires written != [] && due <= written[0].time
    ensures var next := starts + [Start(written[0].time, chunk, |made|)];
      && Begun(next, made + written) && Paced(next, rate) && Sent(next) == Sent(starts) + chunk
      && Taken(made + written) == Sent(starts) + Taken(written)
  {
    hide Begun, Paced, Allowed, Span;
    var start := Start(written[0].time, chunk, |made|);
    TakenAppend(made, written);
    BegunNext(starts, made, written, chunk);
    if starts != [] {
      var last := starts[|starts| - 1];
      Due(rate, |last.bytes|, last.time, last.time, start.time);
    }
    PacedNext(starts, rate, start);
    assert (starts + [start])[..|starts|] == starts;
  }

  /** The writes since some moment. */
  predicate Since(base: seq<Written>, writes: seq<Written>, made: seq<Written>) { writes == base + made }

  lemma {:induction false} SinceNext(base: seq<Written>, writes: seq<Written>, made: seq<Written>, more: seq<Written>)
    requires Since(base, writes, made)
    ensures Since(base, writes + more, made + more)
  {
    assert (base + made) + more == base + (made + more);
  }

  /** One chunk more was begun. */
  ghost predicate Extended(starts: seq<Start>, chunk: Bytes, next: seq<Start>) { Sent(next) == Sent(starts) + chunk }

  /** The receiver took nothing in the last write, and less than was sent altogether. */
  ghost predicate Stopped(starts: seq<Start>, made: seq<Written>, rate: real) {
    && Begun(starts, made) && Paced(starts, rate)
    && made != [] && made[|made| - 1].bytes == [] && Taken(made) < Sent(starts)
  }

  /** What a chunk's writes make of the progress. */
  lemma {:induction false} ChunkWritten(base: seq<Written>, writes: seq<Written>, starts: seq<Start>, made: seq<Written>, rate: real,
                                        due: real, chunk: Bytes, written: seq<Written>, ok: bool, ended: real)
    requires rate > 0.0 && Progress(starts, made, rate, due) && |chunk| <= CHUNK_BYTES
    requires written != [] && due <= written[0].time <= ended && Since(base, writes, made) && AllTook(made)
    requires if ok then Taken(written) == chunk && AllTook(written)
             else written[|written| - 1].bytes == [] && Taken(written) < chunk
    ensures var next, all := starts + [Start(written[0].time, chunk, |made|)], made + written;
      && Extended(starts, chunk, next) && Since(base, writes + written, all)
      && (if ok then Progress(next, all, rate, ended + Span(|chunk|, rate)) && AllTook(all) else Stopped(next, all, rate))
  {
    hide Begun, Paced, Span;
    ProgressNext(starts, made, rate, due, chunk, written);
    SinceNext(base, writes, made, written);
    if ok { AllTookAppend(made, written); }
  }

  /** Waits until the next write is due, and sends one chunk. */
  method SendChunk(chunk: Bytes, destination: Receiver, rate: int, due: real,
                   ghost base: seq<Written>, ghost starts: seq<Start>, ghost made: seq<Written>)
    returns (ok: bool, nextWrite: real, ghost next: seq<Start>, ghost all: seq<Written>)
    requires rate > 0 && 0 < |chunk| <= CHUNK_BYTES && Progress(starts, made, rate as real, due)
    requires Since(base, destination.writes, made) && AllTook(made)
    modifies destination, destination.clock
    ensures Since(base, destination.writes, all) && Extended(starts, chunk, next)
    ensures if ok then Progress(next, all, rate as real, nextWrite) && AllTook(all) else Stopped(next, all, rate as real)
  {
    hide Progress, AllTook, Since, Extended, Stopped, Span, Taken;
    var now := destination.clock.Now();
    var delay := due - now;
    if delay > 0.0 {
      destination.clock.Sleep(delay);
    }
    ghost var writes := destination.writes;
    ghost var written;
    ok, written := WriteChunk(chunk, destination);
    var ended := destination.clock.Now();
    nextWrite := ended + Span(|chunk|, rate as real);
    ChunkWritten(base, writes, starts, made, rate as real, due, chunk, written, ok, ended);
    next, all := starts + [Start(written[0].time, chunk, |made|)], made + written;
  }

  /**
   Every byte of the source was taken, or the receiver took nothing any more and what it took before is a proper
   part; each chunk began at its own write, and they are paced.
   */
  ghost predicate Copied(source: seq<Bytes>, rate: int, total: Option<nat>, starts: seq<Start>, made: seq<Written>) {
    && (if total.Some? then
          total.value == |Content(source)| && Taken(made) == Content(source) == Sent(starts) && AllTook(made)
        else made != [] && made[|made| - 1].bytes == [] && Taken(made) < Content(source))
    && Begun(starts, made) && Paced(starts, rate as real)
  }

  lemma {:induction false} ContentAt(source: seq<Bytes>, i: nat)
    requires i <= |source|
    ensures if i < |source| && source[i] != [] then Content(source[i..]) == source[i] + Content(source[i + 1..]) else Content(source[i..]) == []
  {
    if i < |source| { assert source[i..][0] == source[i] && source[i..][1..] == source[i + 1..]; }
  }

  /** The chunks sent are the source up to here. */
  ghost predicate Upto(source: seq<Bytes>, i: nat, starts: seq<Start>, size: nat) {
    i <= |source| && Sent(starts) + Content(source[i..]) == Content(source) && size == |Sent(starts)|
  }

  lemma {:induction false} UptoNext(source: seq<Bytes>, i: nat, starts: seq<Start>, size: nat, next: seq<Start>)
    requires Upto(source, i, starts, size) && i < |source| && source[i] != [] && Extended(starts, source[i], next)
    ensures Upto(source, i + 1, next, size + |source[i]|)
  {
    ContentAt(source, i);
    var rest := Content(source[i + 1..]);
    assert Sent(starts) + (source[i] + rest) == (Sent(starts) + source[i]) + rest;
  }

  lemma {:induction false} NothingSent(source: seq<Bytes>, rate: real, due: real, base: seq<Written>)
    ensures Since(base, base, []) && (rate > 0.0 ==> Progress([], [], rate, due)) && Upto(source, 0, [], 0) && AllTook([])
  {
    assert source[0..] == source;
  }

  lemma {:induction false} AllSent(source: seq<Bytes>, i: nat, rate: int, due: real, starts: seq<Start>, made: seq<Written>, size: nat)
    requires Upto(source, i, starts, size) && (i < |source| ==> source[i] == []) && rate > 0
    requires Progress(starts, made, rate as real, due) && AllTook(made)
    ensures Copied(source, rate, Some(size), starts, made)
  {
    ContentAt(source, i);
    assert Sent(starts) + [] == Sent(starts);
  }

  lemma {:induction false} StoppedShort(source: seq<Bytes>, i: nat, rate: int, starts: seq<Start>, made: seq<Written>, size: nat)
    requires Upto(source, i, starts, size) && Stopped(starts, made, rate as real)
    ensures Copied(source, rate, None, starts, made)
  {}

  /** No read gives more than one chunk. */
  predicate Chunked(source: seq<Bytes>) { forall i :: 0 <= i < |source| ==> |source[i]| <= CHUNK_BYTES }

  lemma {:induction false} ChunkFits(source: seq<Bytes>, i: nat)
    requires Chunked(source) && i < |source|
    ensures |source[i]| <= CHUNK_BYTES
  {}

  /** Copies a source to a receiver at no more than the rate, however slow the receiver was before. */
  method CopyPaced(source: seq<Bytes>, destination: Receiver, rate: int)
    returns (total: Option<nat>, ghost starts: seq<Start>, ghost made: seq<Written>)
    requires Chunked(source)
    modifies destination, destination.clock
    ensures Since(old(destination.writes), destination.writes, made)
    ensures if rate <= 0 then total.None? && made == [] else Copied(source, rate, total, starts, made)
  {
    hide Chunked, Since, Extended, Stopped, Upto, Progress, Begun, Paced, Sent, Taken, AllTook, Copied, Span, Content;
    starts, made := [], [];
    ghost var base := destination.writes;
    if rate <= 0 {
      NothingSent(source, 1.0, 0.0, base);
      return None, starts, made;
    }
    var nextWrite := destination.clock.Now();
    NothingSent(source, rate as real, nextWrite, base);
    var i, size := 0, 0;
    while i < |source| && source[i] != []
      invariant 0 <= i <= |source| && 0 <= size && Since(base, destination.writes, made) && Upto(source, i, starts, size)
      invariant Progress(starts, made, rate as real, nextWrite) && AllTook(made)
    {
      ghost var before := starts;
      ChunkFits(source, i);
      var ok;
      ok, nextWrite, starts, made := SendChunk(source[i], destination, rate, nextWrite, base, starts, made);
      UptoNext(source, i, before, size, starts);
      size := size + |source[i]|;
      i := i + 1;
      if !ok {
        StoppedShort(source, i, rate, starts, made, size);
        return None, starts, made;
      }
    }
    AllSent(source, i, rate, nextWrite, starts, made, size);
    total := Some(size);
  }
}
