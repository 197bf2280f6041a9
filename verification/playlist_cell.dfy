/**
 PlaylistCell: the three labels of a recording's row in the playlist, derived
 from its file: the start time read back from the file name, the duration in
 hours (時間), minutes (分) and seconds (秒), and the file size in KB, MB or GB.
 */
module PlaylistCell {
  import opened Wrappers
  import opened Digits
  import opened Paths
  import FilenameUtil

  const HoursUnit: string := "時間"
  const MinutesUnit: string := "分"
  const SecondsUnit: string := "秒"

  /** One more than the largest UInt64. */
  const TwoTo64: int := 0x1_0000_0000_0000_0000

  /** UInt64(asset.duration.seconds): truncation toward zero to whole
      seconds, so a duration between -1 and 0 gives 0. The source traps when
      the truncated value does not fit a UInt64, that is from -1 down and
      from 2^64 up. */
  function WholeSeconds(seconds: real): (n: nat)
    requires -1.0 < seconds < TwoTo64 as real
    ensures seconds >= 0.0 ==> n as real <= seconds < n as real + 1.0
    ensures seconds < 0.0 ==> n == 0
    ensures n < TwoTo64
  {
    if seconds < 0.0 then 0 else seconds.Floor
  }

  datatype Duration = Duration(hours: nat, minutes: nat, seconds: nat)

  /** The source's decomposition: minutes are split off only from 60 seconds
      on, hours only from 60 minutes on. */
  function Decompose(total: nat): (d: Duration)
    ensures d.hours * 3600 + d.minutes * 60 + d.seconds == total
    ensures d.minutes < 60 && d.seconds < 60
  {
    var (minutes, seconds) := if total >= 60 then (total / 60, total % 60) else (0, total);
    var (hours, minutes') := if minutes >= 60 then (minutes / 60, minutes % 60) else (0, minutes);
    Duration(hours, minutes', seconds)
  }

  /** The duration label; the unit used depends only on the whole seconds. */
  function DurationFromAsset(seconds: real): (r: string)
    requires -1.0 < seconds < TwoTo64 as real
    ensures var t := WholeSeconds(seconds);
      && (t < 60 ==> r == Decimal(t) + SecondsUnit)
      && (60 <= t < 3600 ==> r == Decimal(t / 60) + MinutesUnit + Decimal(t % 60) + SecondsUnit)
      && (3600 <= t ==> r == Decimal(t / 3600) + HoursUnit + Decimal(t / 60 % 60) + MinutesUnit
                              + Decimal(t % 60) + SecondsUnit)
  {
    var d := Decompose(WholeSeconds(seconds));
    if d.hours > 0 then
      Decimal(d.hours) + HoursUnit + Decimal(d.minutes) + MinutesUnit + Decimal(d.seconds) + SecondsUnit
    else if d.minutes > 0 then
      Decimal(d.minutes) + MinutesUnit + Decimal(d.seconds) + SecondsUnit
    else
      Decimal(d.seconds) + SecondsUnit
  }

  /** fileSizeFromURL: whole kilobytes of the file, 0 when its attributes
      cannot be read. */
  function FileSizeFromURL(sizeInBytes: Option<nat>): (kb: nat)
    ensures sizeInBytes.None? ==> kb == 0
    ensures sizeInBytes.Some? ==> kb * 1024 <= sizeInBytes.value < (kb + 1) * 1024
  {
    match sizeInBytes
    case None => 0
    case Some(bytes) => bytes / 1024
  }

  datatype SizeUnit = KB | MB | GB

  /** A size label's numbers: `whole` in `unit`, and for GB the whole
      megabytes left over in `rest`. */
  datatype SizeReading = SizeReading(unit: SizeUnit, whole: nat, rest: nat)

  function ReadSize(kb: nat): (r: SizeReading)
    ensures r.unit == KB <==> kb < 1024
    ensures r.unit == MB <==> 1024 <= kb < 1024 * 1024
    ensures r.unit == KB ==> r.whole == kb
    ensures r.unit == MB ==> r.whole * 1024 <= kb < (r.whole + 1) * 1024
    ensures r.unit == GB ==> r.rest < 1024
    ensures r.unit == GB ==>
              r.whole * 1048576 + r.rest * 1024 <= kb < r.whole * 1048576 + (r.rest + 1) * 1024
  {
    if kb < 1024 then SizeReading(KB, kb, 0)
    else if kb < 1024 * 1024 then SizeReading(MB, kb / 1024, 0)
    else
      GigabyteBounds(kb);
      SizeReading(GB, kb / (1024 * 1024), (kb / 1024) % 1024)
  }

  /** Whole gigabytes and leftover megabytes pin a size down to one megabyte. */
  lemma GigabyteBounds(kb: nat)
    ensures (kb / 1024) % 1024 < 1024
    ensures var g, m := kb / (1024 * 1024), (kb / 1024) % 1024;
      g * 1048576 + m * 1024 <= kb < g * 1048576 + (m + 1) * 1024
  {
    var q := kb / 1024;
    var g, m := q / 1024, q % 1024;
    assert kb == q * 1024 + kb % 1024;
    assert q == g * 1024 + m;
    assert kb / (1024 * 1024) == g by {
      assert kb == g * 1048576 + (m * 1024 + kb % 1024);
      assert 0 <= m * 1024 + kb % 1024 < 1048576;
    }
  }

  /** sizeFromURL: the size label. After the dot of a GB label stands the
      unpadded count of leftover megabytes, not a decimal fraction. */
  function SizeFromURL(kb: nat): (r: string)
    ensures var s := ReadSize(kb);
      && (s.unit == KB ==> r == Decimal(s.whole) + " KB")
      && (s.unit == MB ==> r == Decimal(s.whole) + " MB")
      && (s.unit == GB ==> r == Decimal(s.whole) + "." + Decimal(s.rest) + " GB")
  {
    if kb < 1024 then Decimal(kb) + " KB"
    else if kb < 1024 * 1024 then Decimal(kb / 1024) + " MB"
    else Decimal(kb / (1024 * 1024)) + "." + Decimal((kb / 1024) % 1024) + " GB"
  }

  /** 1 GB and 5 MB is labelled "1.5 GB", the same digits a decimal half gigabyte would get. */
  lemma SizeFractionIsMegabytes()
    ensures SizeFromURL(1048576 + 5 * 1024) == "1.5 GB"
  {
    assert (1048576 + 5 * 1024) / 1024 == 1029 && 1029 % 1024 == 5;
    assert (1048576 + 5 * 1024) / (1024 * 1024) == 1;
    assert Decimal(1) == "1" && Decimal(5) == "5";
  }

  /** The leftover megabytes are written in full, not as a decimal fraction:
      1 GB + 512 MB shows as "1.512 GB". */
  lemma SizeFractionNotDecimal()
    ensures SizeFromURL(1048576 + 512 * 1024) == "1.512 GB"
  {
    assert (1048576 + 512 * 1024) / 1024 == 1536 && 1536 % 1024 == 512;
    assert (1048576 + 512 * 1024) / (1024 * 1024) == 1;
    assert Decimal(1) == "1" && Decimal(5) == "5";
    assert Decimal(512) == Decimal(51) + "2" && Decimal(51) == Decimal(5) + "1";
  }

  /** timestampFromURL: the file name minus its last four characters (the
      ".mp4"), read with the file-name pattern and shown with the timestamp
      pattern; "" when it does not parse. The source traps on names shorter
      than five characters. */
  function TimestampFromURL(url: string): (r: string)
    requires |LastPathComponent(url)| >= 5
    ensures r == "" || |r| == 19
    ensures var name := LastPathComponent(url);
      r == "" <==> FilenameUtil.ParseFilename(name[..|name| - 4]).None?
  {
    var filename := LastPathComponent(url);
    var fn := filename[..|filename| - 4];
    match FilenameUtil.DateFromFilename(fn, fn)
    case Some(date) => FilenameUtil.TimestampFromDate(date)
    case None => ""
  }

  /** A file named by its start date shows that date as its timestamp label. */
  lemma TimestampOfRecordedFile(dir: string, d: FilenameUtil.DateFields)
    requires FilenameUtil.Valid(d) && d.year < 10000
    ensures var url := dir + "/" + (FilenameUtil.FilenameFromDate(d) + ".mp4");
      |LastPathComponent(url)| >= 5 && TimestampFromURL(url) == FilenameUtil.TimestampFromDate(d)
  {
    var name := FilenameUtil.FilenameFromDate(d) + ".mp4";
    FilenameUtil.FilenameHasNoSlash(d);
    assert '/' !in ".mp4";
    NoSlashInJoin(FilenameUtil.FilenameFromDate(d), ".mp4");
    LastPathComponentOfJoin(dir, name);
    assert name[..|name| - 4] == FilenameUtil.FilenameFromDate(d);
    FilenameUtil.ParseFilenameOfFilename(d);
  }
}
