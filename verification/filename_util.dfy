/**
 The two fixed date patterns the recorder uses: `yyyyMMdd_HHmmss` for file
 names and `yyyy/MM/dd HH:mm:ss` for display. Field symbols follow section 8
 (Date Format Patterns) of Unicode Technical Standard #35, Part 4: `yyyy` is
 the year padded to at least four digits, `MM` the month, `dd` the day of the
 month, `HH` the hour 0-23, `mm` the minute and `ss` the second, each padded
 to two digits. A date is modelled by its calendar fields; the conversion
 from an instant to fields (time zone, calendar, locale) is outside the model.
 */
module FilenameUtil {
  import opened Wrappers
  import opened Digits

  /** The calendar fields a date formatter reads from or writes into a date. */
  datatype DateFields = DateFields(year: nat, month: nat, day: nat, hour: nat, minute: nat, second: nat)

  predicate IsLeapYear(y: nat) {
    y % 4 == 0 && (y % 100 != 0 || y % 400 == 0)
  }

  function DaysInMonth(y: nat, m: nat): nat
    requires 1 <= m <= 12
  {
    if m == 2 then (if IsLeapYear(y) then 29 else 28)
    else if m == 4 || m == 6 || m == 9 || m == 11 then 30
    else 31
  }

  /** Fields that some instant of the proleptic Gregorian calendar has. */
  predicate Valid(d: DateFields) {
    && 1 <= d.month <= 12
    && 1 <= d.day <= DaysInMonth(d.year, d.month)
    && d.hour < 24
    && d.minute < 60
    && d.second < 60
  }

  /** `yyyy`: at least four digits, more when the year needs them. */
  function YearText(y: nat): (r: string)
    ensures AllDigits(r)
    ensures y < 10000 ==> |r| == 4 && Value(r) == y
  {
    if y < 10000 then ValueOfPadded(y, 4); Padded(y, 4) else Decimal(y)
  }

  /** Date.filenameFromDate: the date in the pattern `yyyyMMdd_HHmmss`. */
  function FilenameFromDate(d: DateFields): (r: string)
    requires Valid(d)
    ensures d.year < 10000 ==> |r| == 15 && r[8] == '_'
    ensures forall i :: 0 <= i < |r| ==> IsDigit(r[i]) || r[i] == '_'
  {
    YearText(d.year) + Padded(d.month, 2) + Padded(d.day, 2) + "_"
      + Padded(d.hour, 2) + Padded(d.minute, 2) + Padded(d.second, 2)
  }

  /** A file name holds no path separator. */
  lemma FilenameHasNoSlash(d: DateFields)
    requires Valid(d)
    ensures '/' !in FilenameFromDate(d)
  {
    var f := FilenameFromDate(d);
    assert forall i :: 0 <= i < |f| ==> f[i] != '/';
  }

  /** Date.timestampFromDate: the date in the pattern `yyyy/MM/dd HH:mm:ss`. */
  function TimestampFromDate(d: DateFields): (r: string)
    requires Valid(d)
    ensures d.year < 10000 ==> |r| == 19
  {
    YearText(d.year) + "/" + Padded(d.month, 2) + "/" + Padded(d.day, 2) + " "
      + Padded(d.hour, 2) + ":" + Padded(d.minute, 2) + ":" + Padded(d.second, 2)
  }

  /** The strict reading of `yyyyMMdd_HHmmss`: fifteen characters, digits
      around an underscore at index 8, naming a real calendar instant.
      Anything else has no date. */
  function ParseFilename(s: string): (r: Option<DateFields>)
    ensures r.Some? ==> Valid(r.value) && r.value.year < 10000
    ensures r.Some? ==> |s| == 15 && s[8] == '_'
  {
    if |s| == 15 && AllDigits(s[..8]) && s[8] == '_' && AllDigits(s[9..]) then
      var d := DateFields(Value(s[..4]), Value(s[4..6]), Value(s[6..8]),
                          Value(s[9..11]), Value(s[11..13]), Value(s[13..]));
      PaddedOfValue(s[..4]);
      if Valid(d) then Some(d) else None
    else
      None
  }

  /** String.dateFromFilename(_:): parses its argument with the file-name
      pattern; the receiver string takes no part. */
  function DateFromFilename(receiver: string, filename: string): (r: Option<DateFields>)
    ensures r.Some? ==> Valid(r.value) && FilenameFromDate(r.value) == filename
  {
    var r := ParseFilename(filename);
    if r.Some? then FilenameOfParse(filename); r else r
  }

  /** The receiver of dateFromFilename never influences the result. */
  lemma ReceiverIgnored(a: string, b: string, filename: string)
    ensures DateFromFilename(a, filename) == DateFromFilename(b, filename)
  {
  }

  /** Slices of a rendered file name give back its parts. */
  lemma FilenameSlices(d: DateFields)
    requires Valid(d) && d.year < 10000
    ensures var s := FilenameFromDate(d);
      && s[..4] == Padded(d.year, 4) && s[4..6] == Padded(d.month, 2)
      && s[6..8] == Padded(d.day, 2) && s[9..11] == Padded(d.hour, 2)
      && s[11..13] == Padded(d.minute, 2) && s[13..] == Padded(d.second, 2)
  {
    var y, mo, da := Padded(d.year, 4), Padded(d.month, 2), Padded(d.day, 2);
    var h, mi, se := Padded(d.hour, 2), Padded(d.minute, 2), Padded(d.second, 2);
    var s := FilenameFromDate(d);
    var p1 := y + mo;
    var p2 := p1 + da;
    var p3 := p2 + "_";
    var p4 := p3 + h;
    var p5 := p4 + mi;
    assert s == p5 + se;
    assert s[..15] == s;
    LastPart(s, p5, se);
    LastPart(s, p4, mi);
    LastPart(s, p3, h);
    LastPart(s, p2, "_");
    LastPart(s, p1, da);
    LastPart(s, y, mo);
  }

  /** Parsing a rendered file name recovers the date to the second. */
  lemma ParseFilenameOfFilename(d: DateFields)
    requires Valid(d) && d.year < 10000
    ensures ParseFilename(FilenameFromDate(d)) == Some(d)
  {
    var s := FilenameFromDate(d);
    FilenameSlices(d);
    assert AllDigits(s[..8]) && AllDigits(s[9..]) by {
      assert s[..8] == Padded(d.year, 4) + Padded(d.month, 2) + Padded(d.day, 2);
      assert s[9..] == Padded(d.hour, 2) + Padded(d.minute, 2) + Padded(d.second, 2);
    }
    ValueOfPadded(d.year, 4);
    ValueOfPadded(d.month, 2);
    ValueOfPadded(d.day, 2);
    ValueOfPadded(d.hour, 2);
    ValueOfPadded(d.minute, 2);
    ValueOfPadded(d.second, 2);
  }

  /** A slice splits at any point in between. */
  lemma SliceJoin(s: string, i: nat, j: nat, k: nat)
    requires i <= j <= k <= |s|
    ensures s[i..k] == s[i..j] + s[j..k]
  {
  }

  /** Whatever the parser accepts is exactly the rendering of what it returns. */
  lemma FilenameOfParse(s: string)
    requires ParseFilename(s).Some?
    ensures FilenameFromDate(ParseFilename(s).value) == s
  {
    var d := ParseFilename(s).value;
    var y, mo, da := s[..4], s[4..6], s[6..8];
    var h, mi, se := s[9..11], s[11..13], s[13..];
    assert AllDigits(y) && AllDigits(mo) && AllDigits(da) by {
      assert y == s[..8][..4] && mo == s[..8][4..6] && da == s[..8][6..8];
    }
    assert AllDigits(h) && AllDigits(mi) && AllDigits(se) by {
      assert h == s[9..][..2] && mi == s[9..][2..4] && se == s[9..][4..];
    }
    PaddedOfValue(y);
    PaddedOfValue(mo);
    PaddedOfValue(da);
    PaddedOfValue(h);
    PaddedOfValue(mi);
    PaddedOfValue(se);
    assert FilenameFromDate(d) == y + mo + da + "_" + h + mi + se;
    SliceJoin(s, 0, 4, 6);
    SliceJoin(s, 0, 6, 8);
    SliceJoin(s, 0, 8, 9);
    SliceJoin(s, 0, 9, 11);
    SliceJoin(s, 0, 11, 13);
    SliceJoin(s, 0, 13, 15);
    assert s[8..9] == "_";
    assert s[..15] == s;
  }

  /** dateFromFilename(filenameFromDate(d)) recovers d. */
  lemma DateFromFilenameRoundTrip(receiver: string, d: DateFields)
    requires Valid(d) && d.year < 10000
    ensures DateFromFilename(receiver, FilenameFromDate(d)) == Some(d)
  {
    ParseFilenameOfFilename(d);
  }

  /** A string that is not fifteen characters long has no date: the parser is partial. */
  lemma DateFromFilenameRejectsLength(receiver: string, s: string)
    requires |s| != 15
    ensures DateFromFilename(receiver, s) == None
  {
  }

  /** A well-formed but impossible instant (13th month) is rejected too. */
  lemma DateFromFilenameRejectsMonth13(receiver: string)
    ensures DateFromFilename(receiver, "20181301_120000") == None
  {
    var s := "20181301_120000";
    assert s[4..6] == "13";
    assert "13"[..1] == "1";
    assert Value("1") == 1;
    assert Value(s[4..6]) == 13;
  }

  /** Slices of a rendered timestamp give back its parts. */
  lemma TimestampSlices(d: DateFields)
    requires Valid(d) && d.year < 10000
    ensures var s := TimestampFromDate(d);
      && s[..4] == Padded(d.year, 4) && s[4] == '/' && s[5..7] == Padded(d.month, 2)
      && s[7] == '/' && s[8..10] == Padded(d.day, 2) && s[10] == ' '
      && s[11..13] == Padded(d.hour, 2) && s[13] == ':' && s[14..16] == Padded(d.minute, 2)
      && s[16] == ':' && s[17..] == Padded(d.second, 2)
  {
    var y, mo, da := Padded(d.year, 4), Padded(d.month, 2), Padded(d.day, 2);
    var h, mi, se := Padded(d.hour, 2), Padded(d.minute, 2), Padded(d.second, 2);
    var s := TimestampFromDate(d);
    var p1 := y + "/";
    var p2 := p1 + mo;
    var p3 := p2 + "/";
    var p4 := p3 + da;
    var p5 := p4 + " ";
    var p6 := p5 + h;
    var p7 := p6 + ":";
    var p8 := p7 + mi;
    var p9 := p8 + ":";
    assert s == p9 + se;
    assert s[..19] == s;
    LastPart(s, p9, se);
    LastPart(s, p8, ":");
    LastPart(s, p7, mi);
    LastPart(s, p6, ":");
    LastPart(s, p5, h);
    LastPart(s, p4, " ");
    LastPart(s, p3, da);
    LastPart(s, p2, "/");
    LastPart(s, p1, mo);
    LastPart(s, y, "/");
  }

  /** When a prefix of `s` is `p + x`, the slice after `p` is `x` and the prefix before it is `p`. */
  lemma LastPart(s: string, p: string, x: string)
    requires |p| + |x| <= |s| && s[..|p| + |x|] == p + x
    ensures s[|p|..|p| + |x|] == x && s[..|p|] == p
    ensures |x| == 1 ==> s[|p|] == x[0]
  {
    assert s[|p|..|p| + |x|] == s[..|p| + |x|][|p|..];
    assert s[..|p|] == s[..|p| + |x|][..|p|];
  }

  /** Each field of a rendered timestamp reads back as the date's field. */
  lemma TimestampFields(d: DateFields)
    requires Valid(d) && d.year < 10000
    ensures var s := TimestampFromDate(d);
      && Value(s[..4]) == d.year && Value(s[5..7]) == d.month && Value(s[8..10]) == d.day
      && Value(s[11..13]) == d.hour && Value(s[14..16]) == d.minute && Value(s[17..]) == d.second
  {
    var s := TimestampFromDate(d);
    TimestampSlices(d);
    assert Value(s[..4]) == d.year by { ValueOfPadded(d.year, 4); }
    assert Value(s[5..7]) == d.month by { ValueOfPadded(d.month, 2); }
    assert Value(s[8..10]) == d.day by { ValueOfPadded(d.day, 2); }
    assert Value(s[11..13]) == d.hour by { ValueOfPadded(d.hour, 2); }
    assert Value(s[14..16]) == d.minute by { ValueOfPadded(d.minute, 2); }
    assert Value(s[17..]) == d.second by { ValueOfPadded(d.second, 2); }
  }
}
