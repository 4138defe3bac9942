# Bitcoin trade collector and whale ETL: a Dafny model

This project models the two moving parts of the bitcoin trade pipeline.

**The collector** (`collector/collector.py`) holds a websocket session to the BTCUSDT trade
stream and keeps every decoded message in an in-memory buffer. After each append it compares
the clock with the last flush. Once the flush interval (10 seconds by default, inclusive) has
elapsed, it writes the whole buffer as one JSON segment to the `crypto-raw` bucket, under
`bitcoin/trades/YYYY/MM/DD/HH/trades_YYYY-MM-DDTHH-MM-SS.json`. It then empties the buffer and
restarts the window. An exception, or the stream closing, ends the connection and discards
the unflushed buffer. The collector then reconnects with a fresh buffer.

**The whale ETL** (`whale_etl.py`) lists the current UTC day's segments under
`bitcoin/trades/YYYY/MM/DD/`. It reads them in listing order and skips a segment that is not
valid JSON. Within a segment it skips a record whose `price` or `qty` does not parse. It keeps
as a *whale* every record whose `price * qty` is at least 50000, recording its symbol (default
`BTCUSDT`) and its side (`SELL` when `isBuyerMaker` is true, otherwise `BUY`). If there are
whales, it puts the batch to the `crypto-clean` bucket under
`bitcoin/whales/YYYY/MM/DD/HH/whales_<unix seconds>.json`, creating the bucket when missing. It
then creates the `whale_trades` table if absent and inserts one row per whale, in order.

Modules:

- `Decimal`: zero-padded decimal rendering and its round trip.
- `CivilTime`: UTC calendar instants and POSIX seconds.
- `ObjectPaths`: the object keys and the day prefix, with injectivity and prefix lemmas.
- `ObjectStorage`: the object store as a class over a bucket set and a key map.
- `Collector`: the collector as a class. Its invariant says that every message received in
  the current connection is either in a written segment or still in the buffer, in order.
  With a positive flush interval, it also says that the connection's flushes are strictly
  increasing in time. The lemma `SessionPathsDistinct` derives from this that segment paths
  are distinct within a connection. With an interval of zero or less, two flushes in the same
  second go to the same path, and the later one overwrites the earlier.
- `WhaleFilter`: the per-record decision.
- `WhaleEtl`: the scan as two loop methods, proved equal to a specification function. One
  loops over the listed objects, and the other over one segment's records, which is the
  source's inner loop. That function is in turn proved to be a filter over all records. The module also
  holds the relational sink as a class.
- `Scenarios`: worked end-to-end cases.

Behaviour of the code worth knowing:

- Only `json.JSONDecodeError` is caught, at `whale_etl.py:59-63`. A segment whose bytes are not
  valid UTF-8 raises `UnicodeDecodeError` from `decode`, and that aborts the whole run.
  `ExtractAll` models this as `Err(UndecodableBytes)`.
- A top-level JSON value that cannot be iterated (a number, `null`) aborts the run.
  This is `Err(NotAList)`.
- A whale without a `time` field aborts the run at `whale_etl.py:83`. `trade["time"]` is read
  outside the `try` block. This is `Err(MissingTradeTime)`, and nothing is written to the
  clean bucket or the table.
- The threshold test at `whale_etl.py:74` is `>=`, so a trade worth exactly 50000 is a whale.

## Model

| member | source | states |
|---|---|---|
| Collector.StreamCollector.constructor | collector/collector.py:32-34 | The collector starts disconnected with no segments, and `crypto-raw` is added to the store's buckets. No object changes. |
| ObjectStorage.ObjectStore.EnsureBucket | collector/collector.py:27-29 | `created` holds exactly when the bucket was missing. Afterwards the bucket exists, no other bucket is added, and no object changes. |
| ObjectStorage.WithBucket | collector/collector.py:27-29 | The result contains the name and every earlier bucket, and nothing else is added. It is the identity when the bucket already exists. |
| ObjectStorage.WithBucketIdempotent | collector/collector.py:27-29 | Ensuring a bucket twice is the same as ensuring it once. |
| ObjectStorage.ObjectStore.Put | collector/collector.py:62-67 | The object at (bucket, key) becomes the payload, overwriting any earlier one. Every other object and the bucket set are unchanged. |
| Collector.StreamCollector.Connect | collector/collector.py:38-41 | A new connection starts with an empty buffer, `last_flush` at the connect time and no messages received. Earlier segments stay. |
| Collector.StreamCollector.Disconnect | collector/collector.py:43-79 | Leaving the connection loop discards the unflushed buffer. The segments, `last_flush` and the store are untouched, and the invariant still holds. |
| Collector.StreamCollector.Receive | collector/collector.py:43-79 | A malformed frame drops the connection and changes nothing else. A decoded one is appended, and a flush follows exactly when the elapsed time reaches the interval. The new buffer, window start, segment log and store objects are stated in each case. The bucket set never changes. The invariant, with conservation of messages, is preserved. |
| Collector.StreamCollector.Append | collector/collector.py:44-50 | The message is appended before the check, so the buffer is non-empty there. A flush happens exactly when `now - last_flush >= flush_interval`. Otherwise nothing is written and `last_flush` is unchanged. |
| Collector.StreamCollector.Flush | collector/collector.py:50-75 | The entire buffer becomes one segment at the path for `now`, put in `crypto-raw`, and no bucket is created. The buffer empties and `last_flush` becomes `now`. |
| Collector.AppendKeepsCoherent | collector/collector.py:44-45 | Appending a message keeps the invariant, with the message as the last one received. |
| Collector.FlushKeepsCoherent | collector/collector.py:50-75 | A flush guarded by elapsed time and a non-empty buffer keeps the invariant. The buffer moves whole and in order into a new last segment, no segment is empty, and with a positive interval the connection's flush times stay strictly increasing. |
| Collector.DistinctPaths | collector/collector.py:51-54 | Segments at strictly increasing times have pairwise different object paths, so no flush overwrites another. |
| Collector.StreamCollector.SessionPathsDistinct | collector/collector.py:50-54 | With a positive interval, no two segments of one connection share an object path. |
| Decimal.DigitsRoundTrip | whale_etl.py:92 | The decimal digits of n read back as n. |
| Decimal.DigitsFit | collector/collector.py:51-54 | A number below 10^w has at most w digits. |
| Decimal.PadRoundTrip | collector/collector.py:51-54 | Zero-padding a number below 10^w gives exactly w digits that read back as the number, as `%m`, `%d`, `%H` and `{:02d}` do. |
| Decimal.IntToStringInjective | whale_etl.py:92 | Distinct integers have distinct renderings, including the sign. |
| CivilTime.DaysInMonth | collector/collector.py:47-48 | Month lengths fit the cumulative table used for day ordinals. For m < 12, the days before month m plus its length give the days before month m + 1. For December they give 365, or 366 in a leap year. |
| CivilTime.ElapsedSeconds | collector/collector.py:47-48 | On one UTC date, `(now - last_flush).total_seconds()` comes from the hour, minute and second alone. |
| CivilTime.EpochDayAndTime | whale_etl.py:92 | `int(now.timestamp())` divided by 86400 is the number of days since 1970-01-01. The remainder is the time of day in seconds. |
| CivilTime.UnixEpochIsZero | whale_etl.py:92 | 1970-01-01T00:00:00Z is second 0 and proleptic ordinal 719163. |
| ObjectPaths.FieldWidths | collector/collector.py:51-54 | Year, month, day, hour, minute and second render in their fixed widths. The year reads back as itself. |
| ObjectPaths.DayDir | whale_etl.py:40 | `YYYY/MM/DD/` is always 11 characters. |
| ObjectPaths.Stamp | collector/collector.py:51 | `ts_str` is always 19 characters. |
| ObjectPaths.ScanPrefix | whale_etl.py:40 | The day prefix is 26 characters and lies under `bitcoin/trades/`. |
| ObjectPaths.SegmentPath | collector/collector.py:52-54 | A segment path is 60 characters and begins with the day prefix of its own date. |
| ObjectPaths.CleanKey | whale_etl.py:92 | The clean key lies under `bitcoin/whales/` followed by the run's day directory. |
| ObjectPaths.DayDirInjective | whale_etl.py:40 | Equal day directories mean the same calendar date. |
| ObjectPaths.StampInjective | collector/collector.py:51 | Equal timestamps mean the same instant. |
| ObjectPaths.SegmentPathInjective | collector/collector.py:51-54 | Equal segment paths mean the same instant. |
| ObjectPaths.ScanPrefixSelectsDay | whale_etl.py:40-42 | The run's day prefix is a prefix of a segment's path exactly when the segment was flushed on the run's UTC date. |
| ObjectPaths.CleanKeyInjective | whale_etl.py:92 | Equal clean keys mean the same date, hour and Unix second. |
| WhaleFilter.SideOf | whale_etl.py:75 | The side is `SELL` or `BUY`. It is `SELL` exactly when `isBuyerMaker` is true. |
| WhaleFilter.SymbolOf | whale_etl.py:78 | An absent symbol becomes `BTCUSDT`. A present one is kept. |
| WhaleFilter.Classify | whale_etl.py:67-83 | An emitted whale's `value_usd` is its price times its quantity and at least 50000, and its side is `BUY` or `SELL`. |
| WhaleFilter.WhaleIff | whale_etl.py:67-83 | A record is a whale exactly when price and qty parse, their product is at least 50000 and it has a time. It is a fatal missing-time case exactly when the same holds without a time. It is skipped as unparsable exactly when price or qty is missing. |
| WhaleFilter.WhaleFields | whale_etl.py:68-85 | An emitted whale carries the parsed price and quantity and their product (at least 50000). Its side is `SELL` exactly when `isBuyerMaker` is true. Its symbol is the record's or `BTCUSDT`. Its time is the record's. |
| WhaleFilter.ThresholdExamples | whale_etl.py:74-75 | 30000 x 2 is a `BUY` or `SELL` whale by the maker flag. Exactly 50000 qualifies, and 100 x 1 does not. |
| WhaleEtl.RecordsWhales | whale_etl.py:65-85 | When one segment's records scan without failure, they yield at most one whale per record, each worth at least 50000. |
| WhaleEtl.ExtractAll | whale_etl.py:50-85 | A successful scan yields only whales worth at least 50000. A failure names one of the listed objects. |
| WhaleEtl.Outcome | whale_etl.py:44-89 | A run reports no objects exactly when the listing is empty. A write goes under the clean key of `now` and carries a non-empty batch of whales, each worth at least 50000. |
| WhaleEtl.KeptWhalesAppend | whale_etl.py:65-85 | The whale filter distributes over concatenation of record lists. |
| WhaleEtl.AllRecordsAppend | whale_etl.py:50-65 | Collecting records distributes over concatenation of listings. |
| WhaleEtl.FatalSplit | whale_etl.py:59-60 | A listing holds a fatal object exactly when its prefix or its last object does. |
| WhaleEtl.TimelessSplit | whale_etl.py:74-83 | A concatenation holds a whale without a time exactly when one of its parts does. |
| WhaleEtl.RecordsWhalesIsFilter | whale_etl.py:65-85 | Scanning one segment fails exactly when some whale lacks a time. Otherwise it yields precisely the whales, in order. |
| WhaleEtl.ExtractAllIsFilter | whale_etl.py:50-85 | The scan fails exactly when some object is undecodable or not a list, or some whale lacks a time. Otherwise it yields the whale filter applied to all records of all decodable objects, in listing order. |
| WhaleEtl.WritesOnlyWhales | whale_etl.py:44-46 | A run writes exactly when the listing is non-empty, nothing fails and some record is a whale. It then writes under the clean key of `now` precisely the filtered whales. An empty listing is reported as such. |
| WhaleEtl.SkipsInvalidJson | whale_etl.py:59-63 | An object that is not valid JSON changes nothing: the result equals that of the listing without it. |
| WhaleEtl.SkipsNonWhale | whale_etl.py:67-74 | A record with an unparsable price or quantity, or one below the threshold, changes nothing. |
| WhaleEtl.RecordsStopAt | whale_etl.py:83 | Once a segment scan has failed on a prefix, it fails on the whole segment. |
| WhaleEtl.ObjectsStopAt | whale_etl.py:50-85 | Once the scan has failed on a prefix of the listing, the run fails with that same failure. |
| WhaleEtl.MalformedRecordScenario | whale_etl.py:67-72 | A record lacking `price` ahead of a whale is skipped, and the whale is still emitted. |
| WhaleEtl.ScanRecords | whale_etl.py:65-85 | The loop over one segment's records computes exactly that segment's specified whales, or the failure at a whale without a time. |
| WhaleEtl.CollectWhales | whale_etl.py:37-89 | The loops over the listing under today's prefix compute exactly the specified outcome: no objects, no whales, the first failure, or the whales and the clean key. |
| WhaleEtl.RowsFrom | whale_etl.py:125-139 | One row per whale, in order, with consecutive ids from the first free one. |
| WhaleEtl.WhaleTable.constructor | whale_etl.py:111-123 | The table starts absent and empty, with the serial at 1, and satisfies the table invariant. The invariant says row ids are 1, 2, ... in order, the serial is the next one, and an absent table has no rows. |
| WhaleEtl.WhaleTable.CreateIfAbsent | whale_etl.py:111-123 | The table exists afterwards, and existing rows and the serial are kept. The invariant makes a newly created table empty. |
| WhaleEtl.WhaleTable.Insert | whale_etl.py:126-139 | One row with the next serial id and the whale's fields is appended, the serial advances, and the invariant holds. |
| WhaleEtl.WhaleTable.InsertAll | whale_etl.py:125-139 | The rows grow by exactly the whales' rows, in order, and the serial advances by their number. |
| WhaleEtl.ProcessRecentFiles | whale_etl.py:34-142 | The run's outcome is the specified one. When it writes, the clean bucket exists, the batch is put under the clean key, and the table exists and gains exactly the whales' rows. Otherwise neither the store nor the table changes. |
| Scenarios.FlushScenario | collector/collector.py:40-75 | With the 10-second default, messages at under 10 s do not flush, and the one at 10 s or later flushes all three as one segment. Exactly that object is stored. |
| Scenarios.ReconnectScenario | collector/collector.py:36-79 | The receive before the window closes does not flush, and neither does the malformed frame. The receive at 10 s or more after reconnecting does flush. The message buffered before the malformed frame is lost, and the only segment holds the later message. |
| Scenarios.SegmentWhales | whale_etl.py:65-85 | Of 100 x 1, 40000 x 2 (buyer not maker) and 20000 x 0.5, only the middle trade is a whale, as a `BUY` with the default symbol. |
| Scenarios.ExtractionScenario | whale_etl.py:40-92 | A segment flushed earlier on the run's date is found by the day prefix. The run writes exactly its one whale under the clean key of the run time. |

## Left out

- Network I/O: the websocket itself, reconnection back-off (`asyncio.sleep(5)`) and its logging are not modelled. Frames arrive as `Frame` values, and the retry loop is the caller's sequence of `Connect`, `Receive` and `Disconnect`.
- Clock: the clock readings (`datetime.now(timezone.utc)`) are parameters. Nothing is assumed about their monotonicity, so paths are proved distinct only within one connection. `SessionPathsDistinct` also requires a positive interval, because with an interval of 0 two flushes in the same second share a path even with a monotonic clock.
- Sub-second precision: instants are whole seconds. `total_seconds()` on a fractional difference and the fraction dropped by `int(now.timestamp())` are not modelled.
- Collector.StreamCollector.Flush: the temporary file under `/tmp` and the JSON encoding of the buffer are abstracted. The stored payload is the message sequence itself.
- Collector.StreamCollector.Receive: a failing `fput_object` raises into the `except` handler. That is equivalent to `Disconnect` in place of this `Receive`, and the model has no separate branch for it.
- Collector.StreamCollector.Connect: it requires a disconnected collector, and `Receive` requires a connected one. The source's loop structure guarantees both.
- Collector.StreamCollector.Disconnect: the five-second sleep after an exception, which a clean close of the stream skips, is not modelled.
- JSON and number parsing: the bytes of a segment are represented by `RawObject`. Each record's fields are already parsed, with `None` for a field that is absent or does not parse as a float. IEEE double rounding is modelled as exact `real` arithmetic.
- WhaleFilter.Classify: non-finite floats are not modelled. A price or quantity of `Infinity` or `"1e309"` parses as `inf` in Python. A positive product is then `inf`, which is emitted as a whale with an infinite `value_usd`, and an `inf * 0` product is NaN, which is skipped.
- WhaleFilter.Classify: `float()` of an integer above about 1.8e308 raises `OverflowError`, which `except (KeyError, ValueError, TypeError)` does not catch. That aborts the run. The model has no such record.
- WhaleFilter.SymbolOf: a `"symbol": null` present in the record gives a NULL symbol, not `BTCUSDT`. The model's symbol is either absent or a string.
- Maker flag: `isBuyerMaker` is the truthiness of the JSON value when the key is present, so `1` or a non-empty string counts as true and gives `SELL`. The JSON value itself is not modelled.
- Trade time: `trade_time` is kept as the raw millisecond integer. The conversion to an ISO-8601 string (`fromtimestamp(...).isoformat()`) is not modelled. A numeric `time` outside the range `datetime` can represent makes `fromtimestamp` raise and abort the run, but the model emits the whale. The bounds are platform-dependent. A `time` that is null or not a number makes `trade["time"] / 1000.0` raise first, which also aborts the run. The model covers that case as a missing time, `Err(MissingTradeTime)`.
- Object listing and reads: `list_objects` and `get_object` are a function `listObjects` from prefix to listed objects. The listing order is whatever the store returns. Connection release and retries of the store client are not modelled.
- ObjectPaths.FieldWidths: years are zero-padded to four digits for years below 1000. Python's `strftime("%Y")` output for such years depends on the platform.
- Relational sink: PostgreSQL is a `WhaleTable` class with a creation flag, a row sequence and a serial counter. The connection, cursor, column types and timestamp parsing are not modelled.
- Re-scanning: re-scanning the same day on a later run emits the same whales again. The model states each run on its own and proves nothing about runs over overlapping listings.
- Scheduling: the Airflow DAG (schedule, retries, start date), `_connect_postgres` credentials and the `print` logging are not modelled.
- Configuration: environment-variable overrides of the endpoint, keys and raw bucket name are not modelled. The bucket is the default `crypto-raw`.
