/**
 * The extraction job (whale_etl.py, `process_recent_files`): list the raw
 * segments under the current day's prefix, decode each, run every record
 * through the whale filter, and, when at least one whale was found, write
 * the batch to the clean bucket and insert one row per whale into the
 * `whale_trades` table.
 */
module WhaleEtl {
  import opened Wrappers
  import opened CivilTime
  import opened ObjectPaths
  import opened ObjectStorage
  import opened WhaleFilter


  /** A raw object's bytes as `json.loads(raw_bytes.decode("utf-8"))` leaves them. */
  datatype RawObject =
    | InvalidUtf8                  // UnicodeDecodeError: not caught, the run fails
    | InvalidJson                  // JSONDecodeError: the object is skipped
    | NotIterable                  // a number, boolean or null: `for trade in trades` raises
    | Trades(records: seq<Record>) // anything iterable, element by element

  /** One listed object and its content. */
  datatype Listed = Listed(name: string, content: RawObject)

  /** The exception that ends a run, with the object being read. */
  datatype Failure = UndecodableBytes(name: string) | NotAList(name: string) | MissingTradeTime(name: string)

  /** What one run did. Only `Wrote` writes anything. */
  datatype RunOutcome =
    | NoObjects
    | NoWhales
    | Failed(failure: Failure)
    | Wrote(cleanKey: string, whales: seq<WhaleTrade>)

  predicate Fatal(o: RawObject) { o.InvalidUtf8? || o.NotIterable? }

  // ---------------------------------------------------------------------------
  // The scan, as the loops perform it (element by element, stopping at the first exception)

  /** The whales of one object's records, or None if a whale lacks its time. */
  function RecordsWhales(rs: seq<Record>): (r: Option<seq<WhaleTrade>>)
    ensures r.Some? ==> |r.value| <= |rs|
    ensures r.Some? ==> forall i | 0 <= i < |r.value| :: r.value[i].valueUsd >= Threshold
  {
    if rs == [] then Some([])
    else match RecordsWhales(rs[..|rs| - 1])
      case None => None
      case Some(ws) =>
        match Classify(rs[|rs| - 1])
        case Whale(w) => Some(ws + [w])
        case MissingTime => None
        case _ => Some(ws)
  }

  /** The whales of the listed objects, in listing order, or the first failure. */
  function ExtractAll(objs: seq<Listed>): (r: Result<seq<WhaleTrade>, Failure>)
    ensures r.Ok? ==> forall i | 0 <= i < |r.value| :: r.value[i].valueUsd >= Threshold
    // a failure names one of the listed objects
    ensures r.Err? ==> exists k | 0 <= k < |objs| :: objs[k].name == r.error.name
  {
    if objs == [] then Ok([])
    else match ExtractAll(objs[..|objs| - 1])
      case Err(f) => Err(f)
      case Ok(ws) =>
        var o := objs[|objs| - 1];
        match o.content
        case InvalidUtf8 => Err(UndecodableBytes(o.name))
        case InvalidJson => Ok(ws)
        case NotIterable => Err(NotAList(o.name))
        case Trades(rs) =>
          match RecordsWhales(rs)
          case None => Err(MissingTradeTime(o.name))
          case Some(more) => Ok(ws + more)
  }

  /** The outcome of a run at `now` over the objects listed under that day's prefix. */
  function Outcome(now: Instant, listed: seq<Listed>): (r: RunOutcome)
    ensures r.NoObjects? <==> listed == []
    ensures r.Wrote? ==> r.cleanKey == CleanKey(now) && r.whales != []
    ensures r.Wrote? ==> forall i | 0 <= i < |r.whales| :: r.whales[i].valueUsd >= Threshold
  {
    if listed == [] then NoObjects
    else match ExtractAll(listed)
      case Err(f) => Failed(f)
      case Ok(ws) => if ws == [] then NoWhales else Wrote(CleanKey(now), ws)
  }

  // ---------------------------------------------------------------------------
  // Reference definitions: the filter over all records, independent of the loops

  /** Every record of every decodable object, in listing order. */
  function AllRecords(objs: seq<Listed>): seq<Record> {
    if objs == [] then []
    else (if objs[0].content.Trades? then objs[0].content.records else []) + AllRecords(objs[1..])
  }

  /** The whales among `rs`, in order: a filter-map with the whale filter. */
  function KeptWhales(rs: seq<Record>): seq<WhaleTrade> {
    if rs == [] then []
    else (if Classify(rs[0]).Whale? then [Classify(rs[0]).trade] else []) + KeptWhales(rs[1..])
  }

  lemma {:induction false} KeptWhalesAppend(a: seq<Record>, b: seq<Record>)
    ensures KeptWhales(a + b) == KeptWhales(a) + KeptWhales(b)
    decreases |a|
  {
    if a != [] {
      assert (a + b)[1..] == a[1..] + b;
      KeptWhalesAppend(a[1..], b);
    } else {
      assert a + b == b;
    }
  }

  lemma {:induction false} AllRecordsAppend(a: seq<Listed>, b: seq<Listed>)
    ensures AllRecords(a + b) == AllRecords(a) + AllRecords(b)
    decreases |a|
  {
    if a != [] {
      assert (a + b)[1..] == a[1..] + b;
      AllRecordsAppend(a[1..], b);
    } else {
      assert a + b == b;
    }
  }

  /**
   * Per object: the scan fails exactly when some record is a whale without a
   * time, and otherwise yields exactly the filtered records, in order.
   */
  lemma {:induction false} RecordsWhalesIsFilter(rs: seq<Record>)
    ensures RecordsWhales(rs).None? <==> AnyTimeless(rs)
    ensures RecordsWhales(rs).Some? ==> RecordsWhales(rs).value == KeptWhales(rs)
    decreases |rs|
  {
    if rs != [] {
      var init, last := rs[..|rs| - 1], rs[|rs| - 1];
      assert rs == init + [last];
      RecordsWhalesIsFilter(init);
      KeptWhalesAppend(init, [last]);
      TimelessSplit(init, [last]);
    }
  }

  /**
   * The whole scan fails exactly when some listed object cannot be decoded as
   * text or is not iterable, or some record is a whale without a time; otherwise
   * it yields the filtered records of all decodable objects, listing order first,
   * record order second.
   */
  lemma {:induction false} ExtractAllIsFilter(objs: seq<Listed>)
    ensures ExtractAll(objs).Err? <==> AnyFatal(objs) || AnyTimeless(AllRecords(objs))
    ensures ExtractAll(objs).Ok? ==> ExtractAll(objs).value == KeptWhales(AllRecords(objs))
    decreases |objs|
  {
    if objs != [] {
      var init, o := objs[..|objs| - 1], objs[|objs| - 1];
      assert objs == init + [o];
      ExtractAllIsFilter(init);
      AllRecordsAppend(init, [o]);
      var tail := if o.content.Trades? then o.content.records else [];
      assert AllRecords([o]) == tail + AllRecords([]);
      var all := AllRecords(objs);
      assert all == AllRecords(init) + tail;
      KeptWhalesAppend(AllRecords(init), tail);
      RecordsWhalesIsFilter(tail);
      FatalSplit(init, o);
      TimelessSplit(AllRecords(init), tail);
    }
  }

  predicate AnyFatal(objs: seq<Listed>) {
    exists i :: 0 <= i < |objs| && Fatal(objs[i].content)
  }

  predicate AnyTimeless(rs: seq<Record>) {
    exists k :: 0 <= k < |rs| && Classify(rs[k]).MissingTime?
  }

  lemma FatalSplit(init: seq<Listed>, o: Listed)
    ensures AnyFatal(init + [o]) <==> AnyFatal(init) || Fatal(o.content)
  {
    var objs := init + [o];
    if AnyFatal(objs) {
      var i :| 0 <= i < |objs| && Fatal(objs[i].content);
      if i < |init| { assert init[i] == objs[i]; }
    }
    if AnyFatal(init) {
      var i :| 0 <= i < |init| && Fatal(init[i].content);
      assert objs[i] == init[i];
    }
    if Fatal(o.content) { assert objs[|init|] == o; }
  }

  lemma TimelessSplit(a: seq<Record>, b: seq<Record>)
    ensures AnyTimeless(a + b) <==> AnyTimeless(a) || AnyTimeless(b)
  {
    var all := a + b;
    if AnyTimeless(all) {
      var k :| 0 <= k < |all| && Classify(all[k]).MissingTime?;
      if k < |a| { assert a[k] == all[k]; } else { assert b[k - |a|] == all[k]; }
    }
    if AnyTimeless(a) {
      var k :| 0 <= k < |a| && Classify(a[k]).MissingTime?;
      assert all[k] == a[k];
    }
    if AnyTimeless(b) {
      var k :| 0 <= k < |b| && Classify(b[k]).MissingTime?;
      assert all[|a| + k] == b[k];
    }
  }

  /** A run writes exactly when something was listed, nothing failed, and at least one record is a whale. */
  lemma WritesOnlyWhales(now: Instant, objs: seq<Listed>)
    ensures Outcome(now, objs).Wrote? <==>
      objs != [] && ExtractAll(objs).Ok? && KeptWhales(AllRecords(objs)) != []
    ensures Outcome(now, objs).Wrote? ==>
      Outcome(now, objs).cleanKey == CleanKey(now) && Outcome(now, objs).whales == KeptWhales(AllRecords(objs))
    ensures objs == [] ==> Outcome(now, objs) == NoObjects
  {
    ExtractAllIsFilter(objs);
  }

  /** An object that is not valid JSON is skipped: the objects after it are processed as if it were absent. */
  lemma {:induction false} SkipsInvalidJson(a: seq<Listed>, o: Listed, b: seq<Listed>)
    requires o.content.InvalidJson?
    ensures ExtractAll(a + [o] + b) == ExtractAll(a + b)
    decreases |b|
  {
    if b == [] {
      assert (a + [o] + b)[..|a|] == a;
      assert a + b == a;
    } else {
      var b' := b[..|b| - 1];
      assert (a + [o] + b)[..|a + [o] + b| - 1] == a + [o] + b';
      assert (a + b)[..|a + b| - 1] == a + b';
      assert (a + [o] + b)[|a + [o] + b| - 1] == (a + b)[|a + b| - 1];
      SkipsInvalidJson(a, o, b');
    }
  }

  /** A record with unusable price or quantity, or below the threshold, is skipped: later records are processed as if it were absent. */
  lemma {:induction false} SkipsNonWhale(a: seq<Record>, r: Record, b: seq<Record>)
    requires Classify(r).Unparsable? || Classify(r).BelowThreshold?
    ensures RecordsWhales(a + [r] + b) == RecordsWhales(a + b)
    decreases |b|
  {
    if b == [] {
      assert (a + [r] + b)[..|a|] == a;
      assert a + b == a;
    } else {
      var b' := b[..|b| - 1];
      assert (a + [r] + b)[..|a + [r] + b| - 1] == a + [r] + b';
      assert (a + b)[..|a + b| - 1] == a + b';
      assert (a + [r] + b)[|a + [r] + b| - 1] == (a + b)[|a + b| - 1];
      SkipsNonWhale(a, r, b');
    }
  }

  /** Once a prefix of the records raises, the whole object does (the exception leaves both loops). */
  lemma {:induction false} RecordsStopAt(rs: seq<Record>, k: nat)
    requires k <= |rs| && RecordsWhales(rs[..k]).None?
    ensures RecordsWhales(rs).None?
    decreases |rs| - k
  {
    if k < |rs| {
      assert rs[..k + 1][..k] == rs[..k];
      RecordsStopAt(rs, k + 1);
    } else {
      assert rs[..k] == rs;
    }
  }

  /** Once a prefix of the listing raises, the whole run fails with that exception. */
  lemma {:induction false} ObjectsStopAt(objs: seq<Listed>, k: nat)
    requires k <= |objs| && ExtractAll(objs[..k]).Err?
    ensures ExtractAll(objs) == ExtractAll(objs[..k])
    decreases |objs| - k
  {
    if k < |objs| {
      assert objs[..k + 1][..k] == objs[..k];
      ObjectsStopAt(objs, k + 1);
    } else {
      assert objs[..k] == objs;
    }
  }

  /** A record whose price does not parse does not stop the scan: the whale after it in the same object is still found. */
  lemma MalformedRecordScenario(whale: Record, name: string)
    requires Classify(whale).Whale?
    ensures ExtractAll([Listed(name, Trades([Record(None, Some(1.0), None, None, None), whale]))])
      == Ok([Classify(whale).trade])
  {
    var bad := Record(None, Some(1.0), None, None, None);
    var one := [Listed(name, Trades([bad, whale]))];
    assert [bad, whale][..1] == [bad];
    assert [bad][..0] == [];
    assert RecordsWhales([bad]) == Some([]);
    var rs := [bad, whale];
    assert rs[..|rs| - 1] == [bad] && rs[|rs| - 1] == whale;
    assert [] + [Classify(whale).trade] == [Classify(whale).trade];
    assert RecordsWhales([bad, whale]) == Some([Classify(whale).trade]);
    assert one[..0] == [];
  }

  // ---------------------------------------------------------------------------
  // The job

  /**
   * The inner loop of the scan over one segment's records: skip what does not
   * parse or is below the threshold, keep the whales, and stop at a whale
   * without a time (`trade["time"]` raises).
   */
  method ScanRecords(trades: seq<Record>) returns (found: Option<seq<WhaleTrade>>)
    ensures found == RecordsWhales(trades)
  {
    var whales: seq<WhaleTrade> := [];
    for j := 0 to |trades|
      invariant RecordsWhales(trades[..j]) == Some(whales)
    {
      assert trades[..j + 1][..j] == trades[..j];
      match Classify(trades[j]) {
        case Whale(w) =>
          whales := whales + [w];
        case MissingTime =>
          RecordsStopAt(trades, j + 1);
          return None;
        case _ =>
      }
    }
    assert trades[..|trades|] == trades;
    return Some(whales);
  }

  /**
   * The scan and filter of `process_recent_files` (everything before the
   * writes): the nested loop that appends to `whale_trades`.
   * `listObjects` is the storage listing of the raw bucket under a prefix,
   * each object already read.
   */
  method CollectWhales(now: Instant, listObjects: string -> seq<Listed>) returns (outcome: RunOutcome)
    ensures outcome == Outcome(now, listObjects(ScanPrefix(now)))
  {
    var prefix := ScanPrefix(now);
    var objects := listObjects(prefix);
    if |objects| == 0 {
      return NoObjects;
    }
    var whaleTrades: seq<WhaleTrade> := [];
    for i := 0 to |objects|
      invariant ExtractAll(objects[..i]) == Ok(whaleTrades)
    {
      var obj := objects[i];
      assert objects[..i + 1][..i] == objects[..i];
      match obj.content {
        case InvalidUtf8 =>
          ObjectsStopAt(objects, i + 1);
          return Failed(UndecodableBytes(obj.name));
        case InvalidJson =>
        case NotIterable =>
          ObjectsStopAt(objects, i + 1);
          return Failed(NotAList(obj.name));
        case Trades(trades) =>
          var found := ScanRecords(trades);
          match found {
            case None =>
              ObjectsStopAt(objects, i + 1);
              return Failed(MissingTradeTime(obj.name));
            case Some(more) =>
              whaleTrades := whaleTrades + more;
          }
      }
    }
    assert objects[..|objects|] == objects;
    if |whaleTrades| == 0 {
      return NoWhales;
    }
    return Wrote(CleanKey(now), whaleTrades);
  }

  // ---------------------------------------------------------------------------
  // The relational sink

  /** A `whale_trades` row; `id` is the SERIAL primary key. */
  datatype Row = Row(id: nat, symbol: string, price: real, quantity: real, valueUsd: real, side: string, tradeTimeMs: int)

  function RowOf(id: nat, w: WhaleTrade): Row {
    Row(id, w.symbol, w.price, w.quantity, w.valueUsd, w.side, w.tradeTimeMs)
  }

  /** The rows the insert loop adds for `ws`, numbered from `firstId`: one per whale, in order. */
  function RowsFrom(firstId: nat, ws: seq<WhaleTrade>): (rows: seq<Row>)
    ensures |rows| == |ws|
    ensures forall i | 0 <= i < |ws| :: rows[i] == RowOf(firstId + i, ws[i])
  {
    if ws == [] then [] else RowsFrom(firstId, ws[..|ws| - 1]) + [RowOf(firstId + |ws| - 1, ws[|ws| - 1])]
  }

  class WhaleTable {
    var created: bool
    var rows: seq<Row>
    /** The next value of the SERIAL sequence. */
    var nextId: nat

    /** Rows carry the serial ids 1, 2, ... in insertion order; a table not yet created has none. */
    ghost predicate Valid()
      reads this
    {
      nextId == |rows| + 1
      && (forall i | 0 <= i < |rows| :: rows[i].id == i + 1)
      && (!created ==> rows == [])
    }

    constructor ()
      ensures Valid() && !created && rows == [] && nextId == 1
    {
      created := false;
      rows := [];
      nextId := 1;
    }

    /** `CREATE TABLE IF NOT EXISTS whale_trades (...)` */
    method CreateIfAbsent()
      requires Valid()
      modifies this
      ensures Valid() && created && rows == old(rows) && nextId == old(nextId)
    {
      created := true;
    }

    /** `INSERT INTO whale_trades (...) VALUES (...)` */
    method Insert(w: WhaleTrade)
      requires Valid() && created
      modifies this
      ensures Valid() && created && rows == old(rows) + [RowOf(old(nextId), w)] && nextId == old(nextId) + 1
    {
      rows := rows + [RowOf(nextId, w)];
      nextId := nextId + 1;
    }

    /** The insert loop: `for wt in whale_trades: cur.execute(INSERT ...)`. */
    method InsertAll(whales: seq<WhaleTrade>)
      requires Valid() && created
      modifies this
      ensures Valid() && created
      ensures rows == old(rows) + RowsFrom(old(nextId), whales)
      ensures nextId == old(nextId) + |whales|
    {
      for i := 0 to |whales|
        invariant Valid() && created
        invariant rows == old(rows) + RowsFrom(old(nextId), whales[..i])
        invariant nextId == old(nextId) + i
      {
        assert whales[..i + 1][..i] == whales[..i];
        Insert(whales[i]);
      }
      assert whales[..|whales|] == whales;
    }
  }

  /**
   * `process_recent_files` as a whole: scan and filter, then, only when there
   * are whales, put the batch under the clean key (creating the clean bucket
   * if absent) and insert one row per whale, in order.
   */
  method ProcessRecentFiles(now: Instant, listObjects: string -> seq<Listed>,
                            store: ObjectStore<seq<WhaleTrade>>, table: WhaleTable)
    returns (outcome: RunOutcome)
    requires table.Valid()
    modifies store, table
    ensures table.Valid()
    ensures outcome == Outcome(now, listObjects(ScanPrefix(now)))
    ensures outcome.Wrote? ==>
      store.buckets == WithBucket(old(store.buckets), CleanBucket)
      && store.objects == old(store.objects)[(CleanBucket, outcome.cleanKey) := outcome.whales]
      && table.created
      && table.rows == old(table.rows) + RowsFrom(old(table.nextId), outcome.whales)
      && table.nextId == old(table.nextId) + |outcome.whales|
    ensures !outcome.Wrote? ==>
      store.buckets == old(store.buckets) && store.objects == old(store.objects)
      && table.created == old(table.created) && table.rows == old(table.rows)
      && table.nextId == old(table.nextId)
  {
    outcome := CollectWhales(now, listObjects);
    if outcome.Wrote? {
      var whales := outcome.whales;
      var _ := store.EnsureBucket(CleanBucket);
      store.Put(CleanBucket, outcome.cleanKey, whales);
      table.CreateIfAbsent();
      table.InsertAll(whales);
    }
  }
}
