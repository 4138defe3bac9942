/**
 * Object names in the two buckets. Raw segments (collector/collector.py) are
 * stored at `bitcoin/trades/%Y/%m/%d/%H/trades_%Y-%m-%dT%H-%M-%S.json`; the
 * extraction job lists the day prefix `bitcoin/trades/YYYY/MM/DD/` and writes
 * `bitcoin/whales/YYYY/MM/DD/HH/whales_<unix seconds>.json` (whale_etl.py).
 * Every field is zero-padded to a fixed width, which makes the names parse back.
 */
module ObjectPaths {
  import opened Decimal
  import opened CivilTime

  const RawRoot := "bitcoin/trades/"
  const CleanRoot := "bitcoin/whales/"

  function Two(n: nat): string { Pad(n, 2) }
  function Four(n: nat): string { Pad(n, 4) }

  lemma FieldWidths(t: Instant)
    ensures |Four(t.year)| == 4 && ValueOf(Four(t.year)) == t.year
    ensures |Two(t.month)| == 2 && |Two(t.day)| == 2 && |Two(t.hour)| == 2
    ensures |Two(t.minute)| == 2 && |Two(t.second)| == 2
  {
    assert Pow10(2) == 100 && Pow10(4) == 10000;
    PadRoundTrip(t.year, 4);
    PadRoundTrip(t.month, 2);
    PadRoundTrip(t.day, 2);
    PadRoundTrip(t.hour, 2);
    PadRoundTrip(t.minute, 2);
    PadRoundTrip(t.second, 2);
  }

  /** `%Y/%m/%d/` */
  function DayDir(t: Instant): (s: string)
    ensures |s| == 11
  {
    FieldWidths(t);
    Four(t.year) + ("/" + (Two(t.month) + ("/" + (Two(t.day) + "/"))))
  }

  /** `%Y-%m-%dT%H-%M-%S`, the collector's `ts_str`. */
  function Stamp(t: Instant): (s: string)
    ensures |s| == 19
  {
    FieldWidths(t);
    Four(t.year) + ("-" + (Two(t.month) + ("-" + (Two(t.day) + ("T" +
      (Two(t.hour) + ("-" + (Two(t.minute) + ("-" + Two(t.second))))))))))
  }

  /** The listing prefix of the extraction job run at `t`: that day's raw segments. */
  function ScanPrefix(t: Instant): (s: string)
    ensures |s| == 26 && RawRoot <= s
  {
    RawRoot + DayDir(t)
  }

  /** The object path of a raw segment flushed at `t`: fixed length, under its own day's prefix. */
  function SegmentPath(t: Instant): (p: string)
    ensures |p| == 60
    ensures ScanPrefix(t) <= p
  {
    FieldWidths(t);
    PrefixOfConcat(RawRoot, DayDir(t), Two(t.hour) + ("/trades_" + (Stamp(t) + ".json")));
    RawRoot + (DayDir(t) + (Two(t.hour) + ("/trades_" + (Stamp(t) + ".json"))))
  }

  /** The object key of the clean batch written by the extraction job run at `t`, under that day's directory. */
  function CleanKey(t: Instant): (k: string)
    ensures CleanRoot + DayDir(t) <= k
  {
    PrefixOfConcat(CleanRoot, DayDir(t), Two(t.hour) + ("/whales_" + (IntToString(EpochSeconds(t)) + ".json")));
    CleanRoot + (DayDir(t) + (Two(t.hour) + ("/whales_" + (IntToString(EpochSeconds(t)) + ".json"))))
  }

  lemma PrefixOfConcat(a: string, b: string, c: string)
    ensures a + b <= a + (b + c)
  {
    assert a + (b + c) == (a + b) + c;
  }

  /** The day directory determines the date. */
  lemma DayDirInjective(a: Instant, b: Instant)
    requires DayDir(a) == DayDir(b)
    ensures SameDate(a, b)
  {
    assert Pow10(2) == 100 && Pow10(4) == 10000;
    var ra := "/" + (Two(a.month) + ("/" + (Two(a.day) + "/")));
    var rb := "/" + (Two(b.month) + ("/" + (Two(b.day) + "/")));
    PeelPad(a.year, b.year, 4, ra, rb);
    SplitAt("/", Two(a.month) + ("/" + (Two(a.day) + "/")), "/", Two(b.month) + ("/" + (Two(b.day) + "/")));
    PeelPad(a.month, b.month, 2, "/" + (Two(a.day) + "/"), "/" + (Two(b.day) + "/"));
    SplitAt("/", Two(a.day) + "/", "/", Two(b.day) + "/");
    PeelPad(a.day, b.day, 2, "/", "/");
  }

  /** The timestamp string determines the instant. */
  lemma StampInjective(a: Instant, b: Instant)
    requires Stamp(a) == Stamp(b)
    ensures a == b
  {
    assert Pow10(2) == 100 && Pow10(4) == 10000;
    var s6a, s6b := "-" + Two(a.second), "-" + Two(b.second);
    var s5a, s5b := Two(a.minute) + s6a, Two(b.minute) + s6b;
    var s4a, s4b := "T" + (Two(a.hour) + ("-" + s5a)), "T" + (Two(b.hour) + ("-" + s5b));
    var s3a, s3b := Two(a.day) + s4a, Two(b.day) + s4b;
    var s2a, s2b := Two(a.month) + ("-" + s3a), Two(b.month) + ("-" + s3b);
    PeelPad(a.year, b.year, 4, "-" + s2a, "-" + s2b);
    SplitAt("-", s2a, "-", s2b);
    PeelPad(a.month, b.month, 2, "-" + s3a, "-" + s3b);
    SplitAt("-", s3a, "-", s3b);
    PeelPad(a.day, b.day, 2, s4a, s4b);
    SplitAt("T", Two(a.hour) + ("-" + s5a), "T", Two(b.hour) + ("-" + s5b));
    PeelPad(a.hour, b.hour, 2, "-" + s5a, "-" + s5b);
    SplitAt("-", s5a, "-", s5b);
    PeelPad(a.minute, b.minute, 2, s6a, s6b);
    SplitAt("-", Two(a.second), "-", Two(b.second));
    PeelPad(a.second, b.second, 2, [], []);
  }

  /** Two flushes at different instants never write to the same raw path. */
  lemma SegmentPathInjective(a: Instant, b: Instant)
    requires SegmentPath(a) == SegmentPath(b)
    ensures a == b
  {
    FieldWidths(a);
    FieldWidths(b);
    var ta := Two(a.hour) + ("/trades_" + (Stamp(a) + ".json"));
    var tb := Two(b.hour) + ("/trades_" + (Stamp(b) + ".json"));
    SplitAt(RawRoot, DayDir(a) + ta, RawRoot, DayDir(b) + tb);
    SplitAt(DayDir(a), ta, DayDir(b), tb);
    SplitAt(Two(a.hour), "/trades_" + (Stamp(a) + ".json"), Two(b.hour), "/trades_" + (Stamp(b) + ".json"));
    SplitAt("/trades_", Stamp(a) + ".json", "/trades_", Stamp(b) + ".json");
    SplitAt(Stamp(a), ".json", Stamp(b), ".json");
    StampInjective(a, b);
  }

  /**
   * The job run at `run` lists exactly the raw segments flushed on the same
   * calendar day: the day prefix is a prefix of a segment path iff the dates agree.
   */
  lemma ScanPrefixSelectsDay(run: Instant, flush: Instant)
    ensures ScanPrefix(run) <= SegmentPath(flush) <==> SameDate(run, flush)
  {
    if ScanPrefix(run) <= SegmentPath(flush) {
      assert ScanPrefix(run) == SegmentPath(flush)[..26] == ScanPrefix(flush);
      SplitAt(RawRoot, DayDir(run), RawRoot, DayDir(flush));
      DayDirInjective(run, flush);
    }
    if SameDate(run, flush) {
      assert DayDir(run) == DayDir(flush);
    }
  }

  /** The clean key records the run's date and hour, and its Unix seconds, recoverably. */
  lemma CleanKeyInjective(a: Instant, b: Instant)
    requires CleanKey(a) == CleanKey(b)
    ensures SameDate(a, b) && a.hour == b.hour && EpochSeconds(a) == EpochSeconds(b)
  {
    assert Pow10(2) == 100;
    FieldWidths(a);
    FieldWidths(b);
    var ua, ub := IntToString(EpochSeconds(a)) + ".json", IntToString(EpochSeconds(b)) + ".json";
    var ta, tb := Two(a.hour) + ("/whales_" + ua), Two(b.hour) + ("/whales_" + ub);
    SplitAt(CleanRoot, DayDir(a) + ta, CleanRoot, DayDir(b) + tb);
    SplitAt(DayDir(a), ta, DayDir(b), tb);
    DayDirInjective(a, b);
    PeelPad(a.hour, b.hour, 2, "/whales_" + ua, "/whales_" + ub);
    SplitAt("/whales_", ua, "/whales_", ub);
    SplitAt(IntToString(EpochSeconds(a)), ".json", IntToString(EpochSeconds(b)), ".json");
    IntToStringInjective(EpochSeconds(a), EpochSeconds(b));
  }
}
