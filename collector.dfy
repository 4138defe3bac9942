/**
 * The stream collector (collector/collector.py, `collect_and_flush`): every
 * decoded message is appended to an in-memory buffer; after each append, if
 * at least `flushInterval` seconds have passed since the window started and
 * the buffer is non-empty, the whole buffer is put as one raw segment at a path
 * derived from the current time, and the window restarts. When the connection
 * loop ends, by an exception or by the stream closing, the buffer is abandoned
 * and the next connection starts with an empty one.
 */
module Collector {
  import opened CivilTime
  import opened ObjectPaths
  import opened ObjectStorage

  /** `flush_interval_sec` when the module is run as a script. */
  const DefaultFlushInterval := 10

  /** A frame from the feed: `json.loads` either yields a message or raises. */
  datatype Frame<M> = Decoded(msg: M) | Malformed

  /** One flush: when it happened and the messages it holds in arrival order. */
  datatype RawSegment<M> = RawSegment(at: Instant, events: seq<M>) {
    /** Where the segment is put in the raw bucket. */
    function Path(): string { SegmentPath(at) }
  }

  /** The messages of a run of segments, segment after segment. */
  function Concat<M>(segs: seq<RawSegment<M>>): seq<M> {
    if segs == [] then [] else Concat(segs[..|segs| - 1]) + segs[|segs| - 1].events
  }

  ghost predicate WellFormed<M>(s: RawSegment<M>) {
    s.events != []
  }

  /** The segments from index `from` on were flushed at strictly increasing times. */
  ghost predicate StrictlyLater<M>(segs: seq<RawSegment<M>>, from: nat) {
    forall i, j | from <= i < j < |segs| :: EpochSeconds(segs[i].at) < EpochSeconds(segs[j].at)
  }

  /** Segments flushed at strictly increasing times are stored at pairwise distinct paths. */
  lemma DistinctPaths<M>(segs: seq<RawSegment<M>>, from: nat)
    requires StrictlyLater(segs, from)
    ensures forall i, j | from <= i < j < |segs| :: segs[i].Path() != segs[j].Path()
  {
    forall i, j | from <= i < j < |segs|
      ensures segs[i].Path() != segs[j].Path()
    {
      if segs[i].Path() == segs[j].Path() {
        SegmentPathInjective(segs[i].at, segs[j].at);
      }
    }
  }

  /**
   * The collector's invariant over its state: `written[from..]` are the
   * segments of the current connection, and
   *  - they, followed by the buffer, are exactly the messages received on it;
   *  - outside a connection there is no buffer and nothing pending;
   *  - no segment is empty (the flush guard `and buffer`);
   *  - with a positive interval, the connection's flushes are strictly
   *    increasing in time and none is later than the window start `lastFlush`.
   */
  ghost predicate Coherent<M>(connected: bool, written: seq<RawSegment<M>>, from: nat,
                              buffer: seq<M>, received: seq<M>, lastFlush: Instant, flushInterval: int)
  {
    from <= |written|
    && Concat(written[from..]) + buffer == received
    && (!connected ==> buffer == [] && received == [] && from == |written|)
    && (forall i | 0 <= i < |written| :: WellFormed(written[i]))
    && (flushInterval > 0 ==>
          StrictlyLater(written, from)
          && forall i | from <= i < |written| :: EpochSeconds(written[i].at) <= EpochSeconds(lastFlush))
  }

  /** Appending a message to the buffer keeps the invariant, with the message received last. */
  lemma AppendKeepsCoherent<M>(written: seq<RawSegment<M>>, from: nat, buffer: seq<M>, received: seq<M>,
                               lastFlush: Instant, flushInterval: int, msg: M)
    requires Coherent(true, written, from, buffer, received, lastFlush, flushInterval)
    ensures Coherent(true, written, from, buffer + [msg], received + [msg], lastFlush, flushInterval)
  {
    assert Concat(written[from..]) + (buffer + [msg]) == (Concat(written[from..]) + buffer) + [msg];
  }

  /**
   * A flush keeps the invariant: the whole non-empty buffer moves, in order,
   * to a new last segment at `now`, and the window restarts at `now`. With a
   * positive interval the elapsed-time guard makes `now` later than every
   * earlier flush of the connection.
   */
  lemma {:induction false} FlushKeepsCoherent<M>(written: seq<RawSegment<M>>, from: nat, buffer: seq<M>, received: seq<M>,
                                                 lastFlush: Instant, flushInterval: int, now: Instant)
    requires Coherent(true, written, from, buffer, received, lastFlush, flushInterval)
    requires buffer != [] && ElapsedSeconds(lastFlush, now) >= flushInterval
    ensures Coherent(true, written + [RawSegment(now, buffer)], from, [], received, now, flushInterval)
  {
    var seg := RawSegment(now, buffer);
    var w := written + [seg];
    assert w[from..] == written[from..] + [seg];
    assert w[from..][..|w[from..]| - 1] == written[from..];
    assert Concat(w[from..]) == Concat(written[from..]) + buffer;
    if flushInterval > 0 {
      forall i, j | from <= i < j < |w|
        ensures EpochSeconds(w[i].at) < EpochSeconds(w[j].at)
      {
        if j == |written| {
          assert EpochSeconds(w[i].at) <= EpochSeconds(lastFlush);
        }
      }
    }
  }

  class StreamCollector<M> {
    const flushInterval: int
    const store: ObjectStore<seq<M>>
    /** Whether a connection is open (inside `async with websockets.connect(...)`). */
    var connected: bool
    var buffer: seq<M>
    var lastFlush: Instant
    /** Every segment put into the raw bucket, in the order of the puts. */
    var written: seq<RawSegment<M>>
    /** The messages decoded since the current connection opened. */
    ghost var received: seq<M>
    /** Where in `written` the current connection's segments begin. */
    ghost var sessionStart: nat

    ghost predicate Valid()
      reads this, store
    {
      RawBucket in store.buckets
      && Coherent(connected, written, sessionStart, buffer, received, lastFlush, flushInterval)
    }

    /** Start-up: `get_minio_client()` and `ensure_bucket(client, RAW_BUCKET)`. */
    constructor (flushInterval: int, store: ObjectStore<seq<M>>)
      modifies store
      ensures Valid() && !connected && written == []
      ensures this.flushInterval == flushInterval && this.store == store
      ensures store.buckets == WithBucket(old(store.buckets), RawBucket)
      ensures store.objects == old(store.objects)
    {
      this.flushInterval := flushInterval;
      this.store := store;
      connected := false;
      buffer := [];
      lastFlush := UnixEpoch;
      written := [];
      received := [];
      sessionStart := 0;
      new;
      var _ := store.EnsureBucket(RawBucket);
    }

    /** A connection opens at `now`: a fresh empty buffer and a window starting at `now`. */
    method Connect(now: Instant)
      requires Valid() && !connected
      modifies this
      ensures Valid() && connected
      ensures buffer == [] && lastFlush == now && received == []
      ensures written == old(written) && sessionStart == |written|
    {
      connected := true;
      buffer := [];
      lastFlush := now;
    }

    /**
     * The connection loop ends: an exception (a frame that is not JSON, a
     * dropped connection, a failed put) or the stream closing, which ends
     * `async for`. The unflushed buffer is lost; the raw bucket is untouched.
     */
    method Disconnect()
      requires Valid()
      modifies this
      ensures Valid() && !connected
      ensures buffer == [] && received == []
      ensures written == old(written) && lastFlush == old(lastFlush) && sessionStart == |written|
    {
      connected := false;
      buffer := [];
      received := [];
      sessionStart := |written|;
    }

    /**
     * One frame arrives; `now` is the clock reading taken after the append.
     * `flushed` tells whether this step put a segment.
     */
    method Receive(frame: Frame<M>, now: Instant) returns (flushed: bool)
      requires Valid() && connected
      modifies this, store
      ensures Valid()
      ensures store.buckets == old(store.buckets)
      ensures frame.Malformed? ==>
        !flushed && !connected && buffer == [] && received == [] && lastFlush == old(lastFlush)
        && written == old(written) && store.objects == old(store.objects)
      ensures frame.Decoded? ==>
        connected && sessionStart == old(sessionStart)
        && received == old(received) + [frame.msg]
        && (flushed <==> ElapsedSeconds(old(lastFlush), now) >= flushInterval)
      ensures frame.Decoded? && flushed ==>
        var seg := RawSegment(now, old(buffer) + [frame.msg]);
        written == old(written) + [seg] && buffer == [] && lastFlush == now
        && store.objects == old(store.objects)[(RawBucket, seg.Path()) := seg.events]
      ensures frame.Decoded? && !flushed ==>
        written == old(written) && buffer == old(buffer) + [frame.msg] && lastFlush == old(lastFlush)
        && store.objects == old(store.objects)
    {
      match frame
      case Malformed =>
        Disconnect();
        flushed := false;
      case Decoded(msg) =>
        flushed := Append(msg, now);
    }

    /** A decoded message: append it, then flush the buffer if the window has elapsed. */
    method Append(msg: M, now: Instant) returns (flushed: bool)
      requires Valid() && connected
      modifies this, store
      ensures Valid() && connected && sessionStart == old(sessionStart)
      ensures received == old(received) + [msg]
      // the append precedes the check, so the buffer is never empty there
      ensures flushed <==> ElapsedSeconds(old(lastFlush), now) >= flushInterval
      ensures flushed ==>
        var seg := RawSegment(now, old(buffer) + [msg]);
        written == old(written) + [seg] && buffer == [] && lastFlush == now
        && store.objects == old(store.objects)[(RawBucket, seg.Path()) := seg.events]
      ensures !flushed ==>
        written == old(written) && buffer == old(buffer) + [msg] && lastFlush == old(lastFlush)
        && store.objects == old(store.objects)
      ensures store.buckets == old(store.buckets)
    {
      AppendKeepsCoherent(written, sessionStart, buffer, received, lastFlush, flushInterval, msg);
      buffer := buffer + [msg];
      received := received + [msg];
      var delta := ElapsedSeconds(lastFlush, now);
      if delta >= flushInterval && |buffer| > 0 {
        Flush(now);
        flushed := true;
      } else {
        flushed := false;
      }
    }

    /** The flush block: put the whole buffer as one segment at the path of `now`, then restart the window. */
    method Flush(now: Instant)
      requires Valid() && connected && buffer != []
      requires ElapsedSeconds(lastFlush, now) >= flushInterval
      modifies this, store
      ensures Valid() && connected && sessionStart == old(sessionStart) && received == old(received)
      ensures written == old(written) + [RawSegment(now, old(buffer))]
      ensures buffer == [] && lastFlush == now
      ensures store.objects == old(store.objects)[(RawBucket, SegmentPath(now)) := old(buffer)]
      ensures store.buckets == old(store.buckets)
    {
      FlushKeepsCoherent(written, sessionStart, buffer, received, lastFlush, flushInterval, now);
      var seg := RawSegment(now, buffer);
      store.Put(RawBucket, seg.Path(), buffer);
      written := written + [seg];
      buffer := [];
      lastFlush := now;
    }

    /** Within one connection the raw bucket never receives two segments at the same path. */
    lemma SessionPathsDistinct()
      requires Valid() && flushInterval > 0
      ensures forall i, j | sessionStart <= i < j < |written| :: written[i].Path() != written[j].Path()
    {
      DistinctPaths(written, sessionStart);
    }
  }
}
