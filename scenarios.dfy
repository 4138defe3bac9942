/**
 * End-to-end cases. The collector, with the default ten-second window,
 * receives three messages and flushes them as one segment at the third; a
 * dropped connection loses what was not flushed. A raw segment of three
 * trades, one of them worth 80000, is listed by the extraction run later that
 * day, which writes exactly that whale.
 */
module Scenarios {
  import opened Wrappers
  import opened CivilTime
  import opened ObjectPaths
  import opened WhaleFilter
  import opened WhaleEtl
  import opened ObjectStorage
  import opened Collector

  /**
   * Connect at `t0` and receive messages at `t1`, `t2` and `t3`, of which only
   * the third is ten seconds or more after `t0`: it alone flushes, and the one
   * segment it puts holds all three messages in order.
   */
  method FlushScenario(t0: Instant, t1: Instant, t2: Instant, t3: Instant)
    returns (flushed: seq<bool>, written: seq<RawSegment<int>>, stored: map<(string, string), seq<int>>)
    requires ElapsedSeconds(t0, t1) < 10 && ElapsedSeconds(t0, t2) < 10 && ElapsedSeconds(t0, t3) >= 10
    ensures flushed == [false, false, true]
    ensures written == [RawSegment(t3, [1, 2, 3])]
    ensures stored == map[(RawBucket, SegmentPath(t3)) := [1, 2, 3]]
  {
    var store := new ObjectStore<seq<int>>({});
    var c := new StreamCollector<int>(DefaultFlushInterval, store);
    c.Connect(t0);
    var f1 := c.Receive(Decoded(1), t1);
    assert !f1 && c.written == [] && c.buffer == [1] && c.lastFlush == t0 && store.objects == map[];
    var f2 := c.Receive(Decoded(2), t2);
    assert !f2 && c.written == [] && c.buffer == [1, 2] && c.lastFlush == t0 && store.objects == map[];
    var f3 := c.Receive(Decoded(3), t3);
    assert [1, 2] + [3] == [1, 2, 3];
    assert f3 && c.written == [RawSegment(t3, [1, 2, 3])];
    flushed, written, stored := [f1, f2, f3], c.written, store.objects;
  }

  /**
   * A message is buffered, then a malformed frame ends the connection; after
   * reconnecting at `t2`, the flush at `t3` holds only the later message.
   */
  method ReconnectScenario(t0: Instant, t1: Instant, t2: Instant, t3: Instant)
    returns (flushed: seq<bool>, written: seq<RawSegment<int>>)
    requires ElapsedSeconds(t0, t1) < 10 && ElapsedSeconds(t2, t3) >= 10
    ensures flushed == [false, false, true]
    ensures written == [RawSegment(t3, [2])]
  {
    var store := new ObjectStore<seq<int>>({});
    var c := new StreamCollector<int>(DefaultFlushInterval, store);
    c.Connect(t0);
    var f1 := c.Receive(Decoded(1), t1);
    var f2 := c.Receive(Malformed, t1);
    c.Connect(t2);
    var f3 := c.Receive(Decoded(2), t3);
    assert [] + [2] == [2];
    flushed, written := [f1, f2, f3], c.written;
  }

  const Small1 := Record(Some(100.0), Some(1.0), Some(true), Some(1764842401000), None)
  const Big := Record(Some(40000.0), Some(2.0), Some(false), Some(1764842405000), None)
  const Small2 := Record(Some(20000.0), Some(0.5), None, Some(1764842410000), Some("BTCUSDT"))
  const Found := WhaleTrade("BTCUSDT", 40000.0, 2.0, 80000.0, "BUY", 1764842405000)

  /** Of the three trades only the one worth 80000 is a whale, a BUY since its maker flag is false. */
  lemma SegmentWhales()
    ensures RecordsWhales([Small1, Big, Small2]) == Some([Found])
  {
    var rs := [Small1, Big, Small2];
    assert Classify(Small1) == BelowThreshold && Classify(Small2) == BelowThreshold;
    assert Classify(Big) == Whale(Found);
    assert [Small1][..0] == [];
    assert RecordsWhales([Small1]) == Some([]);
    assert [Small1, Big][..1] == [Small1] && [Small1, Big][1] == Big;
    assert [] + [Found] == [Found];
    assert RecordsWhales([Small1, Big]) == Some([Found]);
    assert rs[..2] == [Small1, Big] && rs[2] == Small2;
  }

  /** The run on the flush's day lists the segment and writes exactly that one whale. */
  lemma ExtractionScenario(flushAt: Instant, run: Instant)
    requires SameDate(flushAt, run)
    ensures ScanPrefix(run) <= SegmentPath(flushAt)
    ensures Outcome(run, [Listed(SegmentPath(flushAt), Trades([Small1, Big, Small2]))]) == Wrote(CleanKey(run), [Found])
  {
    ScanPrefixSelectsDay(run, flushAt);
    SegmentWhales();
    var listing := [Listed(SegmentPath(flushAt), Trades([Small1, Big, Small2]))];
    assert listing[..0] == [];
    assert ExtractAll(listing) == Ok([] + [Found]);
  }
}
