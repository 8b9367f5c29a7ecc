/** The `last_seen_display` template filter: the label shown for a user's
    last-seen time, chosen from the whole seconds elapsed since then by a
    chain of increasing thresholds. The two oldest bands render the local
    wall-clock time; the clock reading is a parameter, not derived from a
    timezone database. */
module ChatFilters {
  import opened Options
  import opened PyText

  type Month = m: int | 1 <= m <= 12 witness 1
  type Day = d: int | 1 <= d <= 31 witness 1
  type Hour = h: int | 0 <= h < 24
  type Minute = m: int | 0 <= m < 60

  /** The local date and time of the last-seen moment, as `strftime` sees it. */
  datatype LocalTime = LocalTime(month: Month, day: Day, hour: Hour, minute: Minute)

  /** `%b` in the C locale: three letters that name the month, so that
      reading them back gives the month and no two months share them. */
  function MonthAbbr(m: Month): (r: string)
    ensures |r| == 3 && r[0] in "JFMASOND"
    ensures MonthNamed(r) == Some(m)
  {
    ["Jan", "Feb", "Mar", "Apr", "May", "Jun", "Jul", "Aug", "Sep", "Oct", "Nov", "Dec"][m - 1]
  }

  /** The month a `%b` abbreviation stands for. */
  function MonthNamed(s: string): Option<Month> {
    if s == "Jan" then Some(1) else if s == "Feb" then Some(2)
    else if s == "Mar" then Some(3) else if s == "Apr" then Some(4)
    else if s == "May" then Some(5) else if s == "Jun" then Some(6)
    else if s == "Jul" then Some(7) else if s == "Aug" then Some(8)
    else if s == "Sep" then Some(9) else if s == "Oct" then Some(10)
    else if s == "Nov" then Some(11) else if s == "Dec" then Some(12)
    else None
  }

  /** `%02d`, as `%d`, `%I` and `%M` print: exactly two digits that read
      back as `n`. */
  function Pad2(n: nat): (r: string)
    requires n < 100
    ensures |r| == 2 && AllDigits(r)
    ensures DigitsValue(r) == n
  {
    if n < 10 then
      assert NatToString(n) == [DigitChar(n)];
      var r := "0" + NatToString(n);
      assert DigitsValue(r[..1]) == 0;
      r
    else
      assert NatToString(n) == NatToString(n / 10) + [DigitChar(n % 10)] && NatToString(n / 10) == [DigitChar(n / 10)];
      DigitsRoundTrip(n);
      NatToString(n)
  }

  /** The hour on a 12-hour clock: the one hour from 1 to 12 that agrees
      with `h` modulo 12, so midnight and noon both show 12. */
  function Hour12(h: Hour): (r: int)
    ensures 1 <= r <= 12 && r % 12 == h % 12
  {
    if h % 12 == 0 then 12 else h % 12
  }

  /** `%p`. */
  function Meridiem(h: Hour): string {
    if h < 12 then "AM" else "PM"
  }

  /** `strftime(":%M %p")`, the part of the clock after the hour: a colon,
      two digits reading back as the minute, a space, and `AM` before noon
      or `PM` from noon on; it ends in the `M` of either. */
  function ClockRest(t: LocalTime): (r: string)
    ensures |r| == 6 && r[0] == ':' && r[3] == ' ' && r[5] == 'M'
    ensures AllDigits(r[1..3]) && DigitsValue(r[1..3]) == t.minute
    ensures r[4] == 'A' <==> t.hour < 12
    ensures r[4] == 'P' <==> t.hour >= 12
  {
    assert (":" + Pad2(t.minute) + " " + Meridiem(t.hour))[1..3] == Pad2(t.minute);
    ":" + Pad2(t.minute) + " " + Meridiem(t.hour)
  }

  /** `strftime("%I:%M %p")`. */
  function Clock(t: LocalTime): string {
    Pad2(Hour12(t.hour)) + ClockRest(t)
  }

  /** Python's `s.lstrip("0")`. */
  function LStripZeros(s: string): (r: string)
    ensures |r| <= |s| && r == s[|s| - |r|..]
    ensures r != [] ==> r[0] != '0'
    ensures forall i :: 0 <= i < |s| - |r| ==> s[i] == '0'
  {
    if s != [] && s[0] == '0' then LStripZeros(s[1..]) else s
  }

  /** The label for a moment between one and two days ago. */
  function YesterdayLabel(t: LocalTime): string {
    "Yesterday at " + LStripZeros(Clock(t))
  }

  /** The label for a moment two or more days ago. */
  function DateLabel(t: LocalTime): string {
    LStripZeros(MonthAbbr(t.month) + " " + Pad2(t.day) + " at " + Clock(t))
  }

  /** `f"{count} {unit}{'s' if count != 1 else ''} ago"`. */
  function Ago(count: int, unit: string): string {
    IntToString(count) + " " + unit + (if count != 1 then "s" else "") + " ago"
  }

  /** `last_seen_display(last_seen)`, with `elapsed` the whole seconds from
      `last_seen` to now and `lastSeen` its local time. */
  function LastSeenDisplay(lastSeen: Option<LocalTime>, elapsed: int): (r: string)
    ensures r != []
  {
    if lastSeen.None? then "Unknown"
    else if elapsed < 60 then "Just now"
    else if elapsed < 3600 then Ago(elapsed / 60, "minute")
    else if elapsed < 86400 then Ago(elapsed / 3600, "hour")
    else if elapsed < 172800 then YesterdayLabel(lastSeen.value)
    else DateLabel(lastSeen.value)
  }

  // ---------------------------------------------------------------------------
  // Reading a label back
  // ---------------------------------------------------------------------------

  /** The bands of the threshold chain, youngest first. */
  datatype Band = NoValue | UnderMinute | Minutes | Hours | Yesterday | Older

  /** The band `last_seen_display` picks. */
  function BandOf(lastSeen: Option<LocalTime>, elapsed: int): Band {
    if lastSeen.None? then NoValue
    else if elapsed < 60 then UnderMinute
    else if elapsed < 3600 then Minutes
    else if elapsed < 86400 then Hours
    else if elapsed < 172800 then Yesterday
    else Older
  }

  function Rank(b: Band): nat {
    match b
    case NoValue => 0
    case UnderMinute => 1
    case Minutes => 2
    case Hours => 3
    case Yesterday => 4
    case Older => 5
  }

  predicate StartsWith(s: string, p: string) {
    |p| <= |s| && s[..|p|] == p
  }

  predicate EndsWith(s: string, t: string) {
    |t| <= |s| && s[|s| - |t|..] == t
  }

  /** How a reader tells the bands apart from the label alone. */
  function ReadBand(shown: string): Band {
    if shown == "Unknown" then NoValue
    else if shown == "Just now" then UnderMinute
    else if EndsWith(shown, " minute ago") || EndsWith(shown, " minutes ago") then Minutes
    else if EndsWith(shown, " hour ago") || EndsWith(shown, " hours ago") then Hours
    else if StartsWith(shown, "Yesterday at ") then Yesterday
    else Older
  }

  /** The characters before the first space. */
  function FirstWord(s: string): (r: string)
    ensures |r| <= |s| && r == s[..|r|]
  {
    if s == [] || s[0] == ' ' then [] else [s[0]] + FirstWord(s[1..])
  }

  lemma {:induction false} FirstWordOf(w: string, rest: string)
    requires forall i :: 0 <= i < |w| ==> w[i] != ' '
    ensures FirstWord(w + " " + rest) == w
  {
    if w != [] {
      assert (w + " " + rest)[1..] == w[1..] + " " + rest;
      FirstWordOf(w[1..], rest);
    }
  }

  // ---------------------------------------------------------------------------
  // Properties
  // ---------------------------------------------------------------------------
  /** The last characters of a concatenation are those of its right part. */
  lemma {:induction false} SuffixOfConcat(p: string, t: string)
    ensures EndsWith(p + t, t)
  {
    assert (p + t)[|p|..] == t;
  }

  /** A string ending in `t` has `t`'s character `k` places from its end. */
  lemma EndChar(s: string, t: string, k: int)
    requires EndsWith(s, t) && 1 <= k <= |t|
    ensures s[|s| - k] == t[|t| - k]
  {
    assert s[|s| - k] == s[|s| - |t|..][|t| - k];
  }

  /** A counted label's first word reads back as the count (counts below
      100 are the only ones shown). */
  lemma AgoCount(n: int, unit: string)
    requires 0 <= n < 100
    ensures ParseInt(FirstWord(Ago(n, unit))) == Some(n)
  {
    SmallNatDigits(n);
    var w := IntToString(n);
    var rest := unit + (if n != 1 then "s" else "") + " ago";
    assert Ago(n, unit) == w + " " + rest;
    FirstWordOf(w, rest);
    ParseIntRoundTrip(n);
  }

  /** A counted label ends in the singular unit exactly when the count is 1,
      and in the plural otherwise. */
  lemma AgoPlural(n: int, unit: string)
    requires unit != [] && unit[|unit| - 1] != 's'
    ensures EndsWith(Ago(n, unit), " " + unit + " ago") <==> n == 1
    ensures EndsWith(Ago(n, unit), " " + unit + "s ago") <==> n != 1
  {
    var w, r := IntToString(n), Ago(n, unit);
    var one, many := " " + unit + " ago", " " + unit + "s ago";
    assert one[|one| - 5] == unit[|unit| - 1] && many[|many| - 5] == 's';
    if n == 1 {
      assert r == w + one;
      SuffixOfConcat(w, one);
      EndChar(r, one, 5);
      if EndsWith(r, many) {
        EndChar(r, many, 5);
      }
    } else {
      assert r == w + many;
      SuffixOfConcat(w, many);
      EndChar(r, many, 5);
      if EndsWith(r, one) {
        EndChar(r, one, 5);
      }
    }
  }

  /** `%I:%M %p` with the hour's padding removed by `lstrip("0")`. */
  lemma StrippedClock(t: LocalTime)
    ensures LStripZeros(Clock(t)) == NatToString(Hour12(t.hour)) + ClockRest(t)
  {
    var h := Hour12(t.hour);
    var u := NatToString(h) + ClockRest(t);
    assert u[0] == NatToString(h)[0] != '0';
    if h < 10 {
      assert Clock(t) == "0" + u;
      assert ("0" + u)[1..] == u;
    }
  }

  /** A string starting with a non-empty `p` starts with `p`'s first character. */
  lemma FirstOfPrefix(s: string, p: string)
    requires p != []
    ensures StartsWith(s, p) ==> s[0] == p[0]
  {
    if StartsWith(s, p) {
      assert s[0] == s[..|p|][0];
    }
  }

  /** A concatenation starts with its left part. */
  lemma PrefixOfConcat(p: string, t: string)
    ensures StartsWith(p + t, p)
  {
    assert (p + t)[..|p|] == p;
  }

  /** The yesterday label: its prefix, then the unpadded clock. */
  lemma YesterdayShape(t: LocalTime)
    ensures var r := YesterdayLabel(t);
      r == "Yesterday at " + NatToString(Hour12(t.hour)) + ClockRest(t) &&
      StartsWith(r, "Yesterday at ") && r[|r| - 1] == 'M'
  {
    StrippedClock(t);
    var front := "Yesterday at " + NatToString(Hour12(t.hour));
    assert YesterdayLabel(t) == front + ClockRest(t);
    PrefixOfConcat("Yesterday at ", LStripZeros(Clock(t)));
    SuffixOfConcat(front, ClockRest(t));
    EndChar(front + ClockRest(t), ClockRest(t), 1);
  }

  /** In the date label `lstrip("0")` sees the month name first and removes
      nothing, so the day and the hour keep their zero padding. */
  lemma DateShape(t: LocalTime)
    ensures var r := DateLabel(t);
      r == MonthAbbr(t.month) + " " + Pad2(t.day) + " at " + Clock(t) &&
      r[0] in "JFMASOND" && r[|r| - 1] == 'M'
  {
    var front := MonthAbbr(t.month) + " " + Pad2(t.day) + " at " + Pad2(Hour12(t.hour));
    var s := front + ClockRest(t);
    assert s == MonthAbbr(t.month) + " " + Pad2(t.day) + " at " + Clock(t);
    assert s[0] == MonthAbbr(t.month)[0];
    SuffixOfConcat(front, ClockRest(t));
    EndChar(s, ClockRest(t), 1);
  }

  /** "Unknown" is shown exactly when there is no last-seen value. */
  lemma UnknownExactlyWhenMissing(lastSeen: Option<LocalTime>, elapsed: int)
    ensures LastSeenDisplay(lastSeen, elapsed) == "Unknown" <==> lastSeen.None?
  {
    if lastSeen.Some? {
      BandReadBack(lastSeen, elapsed);
    }
  }

  /** With a value, "Just now" is shown exactly below one minute, including
      for a moment in the future. */
  lemma JustNowExactlyUnderMinute(t: LocalTime, elapsed: int)
    ensures LastSeenDisplay(Some(t), elapsed) == "Just now" <==> elapsed < 60
  {
    BandReadBack(Some(t), elapsed);
  }

  /** The minutes and hours labels are the elapsed whole units in plain
      decimal, the unit, a plural `s` exactly when the count is not 1, and
      " ago"; the count reads back from the label and lies in that band's
      range. */
  lemma CountedBands(t: LocalTime, elapsed: int)
    requires 60 <= elapsed < 86400
    ensures var r, unit, size := LastSeenDisplay(Some(t), elapsed),
                                 if elapsed < 3600 then "minute" else "hour",
                                 if elapsed < 3600 then 60 else 3600;
      var n := elapsed / size;
      r == NatToString(n) + " " + unit + (if n == 1 then "" else "s") + " ago" &&
      ParseInt(FirstWord(r)) == Some(n) &&
      1 <= n <= (if elapsed < 3600 then 59 else 23) &&
      n * size <= elapsed < (n + 1) * size &&
      (EndsWith(r, " " + unit + " ago") <==> n == 1) &&
      (EndsWith(r, " " + unit + "s ago") <==> n != 1)
  {
    if elapsed < 3600 {
      AgoCount(elapsed / 60, "minute");
      AgoPlural(elapsed / 60, "minute");
    } else {
      AgoCount(elapsed / 3600, "hour");
      AgoPlural(elapsed / 3600, "hour");
    }
  }

  /** Between one and two days the label is "Yesterday at " and the
      12-hour clock with its hour unpadded. */
  lemma YesterdayClock(t: LocalTime, elapsed: int)
    requires 86400 <= elapsed < 172800
    ensures LastSeenDisplay(Some(t), elapsed) == "Yesterday at " + NatToString(Hour12(t.hour)) + ClockRest(t)
  {
    YesterdayShape(t);
  }

  /** From two days on the label is the month, the zero-padded day and the
      zero-padded 12-hour clock, and never starts with "Yesterday". */
  lemma DateLabelPadded(t: LocalTime, elapsed: int)
    requires 172800 <= elapsed
    ensures LastSeenDisplay(Some(t), elapsed) ==
      MonthAbbr(t.month) + " " + Pad2(t.day) + " at " + Pad2(Hour12(t.hour)) + ClockRest(t)
    ensures !StartsWith(LastSeenDisplay(Some(t), elapsed), "Yesterday")
  {
    var r := LastSeenDisplay(Some(t), elapsed);
    assert r == DateLabel(t);
    assert r == MonthAbbr(t.month) + " " + Pad2(t.day) + " at " + Pad2(Hour12(t.hour)) + ClockRest(t) &&
      r[0] in "JFMASOND" by {
      DateShape(t);
    }
    FirstOfPrefix(r, "Yesterday");
  }

  lemma ReadMinutes(n: int)
    ensures ReadBand(Ago(n, "minute")) == Minutes
  {
    var r, w := Ago(n, "minute"), IntToString(n);
    var tail := if n == 1 then " minute ago" else " minutes ago";
    assert r == w + tail;
    SuffixOfConcat(w, tail);
    assert r[0] == w[0];
    assert r != "Unknown" && r != "Just now";
  }

  lemma ReadHours(n: int)
    ensures ReadBand(Ago(n, "hour")) == Hours
  {
    var r, w := Ago(n, "hour"), IntToString(n);
    var tail := if n == 1 then " hour ago" else " hours ago";
    assert r == w + tail;
    assert r[0] == w[0];
    assert r != "Unknown" && r != "Just now";
    SuffixOfConcat(w, tail);
    EndChar(r, tail, 5);
    EndChar(r, tail, 6);
    if EndsWith(r, " minute ago") { EndChar(r, " minute ago", 5); }
    if EndsWith(r, " minutes ago") { EndChar(r, " minutes ago", 6); }
  }

  /** A label ending in the `M` of a clock is not a counted label. */
  lemma NotCounted(r: string)
    requires r != [] && r[|r| - 1] == 'M'
    ensures !EndsWith(r, " minute ago") && !EndsWith(r, " minutes ago")
    ensures !EndsWith(r, " hour ago") && !EndsWith(r, " hours ago")
  {
    if EndsWith(r, " minute ago") { EndChar(r, " minute ago", 1); }
    if EndsWith(r, " minutes ago") { EndChar(r, " minutes ago", 1); }
    if EndsWith(r, " hour ago") { EndChar(r, " hour ago", 1); }
    if EndsWith(r, " hours ago") { EndChar(r, " hours ago", 1); }
  }

  lemma ReadYesterday(t: LocalTime)
    ensures ReadBand(YesterdayLabel(t)) == Yesterday
  {
    var r := YesterdayLabel(t);
    assert StartsWith(r, "Yesterday at ") && r != [] && r[|r| - 1] == 'M' by {
      YesterdayShape(t);
    }
    NotCounted(r);
  }

  lemma ReadDate(t: LocalTime)
    ensures ReadBand(DateLabel(t)) == Older
  {
    var r := DateLabel(t);
    assert r != [] && r[0] in "JFMASOND" && r[|r| - 1] == 'M' by {
      DateShape(t);
    }
    NotCounted(r);
    FirstOfPrefix(r, "Yesterday at ");
  }

  /** The bands are told apart by the label alone: reading the label back
      gives the band that produced it, so no two bands share a label. */
  lemma BandReadBack(lastSeen: Option<LocalTime>, elapsed: int)
    ensures ReadBand(LastSeenDisplay(lastSeen, elapsed)) == BandOf(lastSeen, elapsed)
  {
    if lastSeen.None? || elapsed < 60 {
    } else if elapsed < 3600 {
      ReadMinutes(elapsed / 60);
    } else if elapsed < 86400 {
      ReadHours(elapsed / 3600);
    } else if elapsed < 172800 {
      ReadYesterday(lastSeen.value);
    } else {
      ReadDate(lastSeen.value);
    }
  }

  /** The thresholds are checked in increasing order: a longer absence never
      lands in a younger band. */
  lemma BandsMonotone(t: LocalTime, e1: int, e2: int)
    requires e1 <= e2
    ensures Rank(BandOf(Some(t), e1)) <= Rank(BandOf(Some(t), e2))
    ensures BandOf(Some(t), e2) != NoValue
  {
  }
}
