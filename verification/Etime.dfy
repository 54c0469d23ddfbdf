/** Reading the elapsed-time column of ps. */
module Etime {
  import opened GoStrings
  import opened Durations

  function Seconds(n: int): int { n * 1_000_000_000 }
  function Minutes(n: int): int { n * 60_000_000_000 }
  function Hours(n: int): int { n * 3_600_000_000_000 }

  // ---------------------------------------------------------------- strconv.Atoi, its error discarded

  predicate IsDigit(c: char) { '0' <= c <= '9' }

  function Digit(c: char): int { c as int - '0' as int }

  predicate AllDigits(s: string) { forall k :: 0 <= k < |s| ==> IsDigit(s[k]) }

  function Decimal(s: string): int {
    if s == "" then 0 else 10 * Decimal(s[..|s| - 1]) + Digit(s[|s| - 1])
  }

  function Clamp(x: int): (r: int)
    ensures IsDuration(r) && (IsDuration(x) ==> r == x)
  {
    if x > MAX_INT64 then MAX_INT64 else if x < -MAX_INT64 - 1 then -MAX_INT64 - 1 else x
  }

  /** 0 for what is no number; the nearest representable value for what is out of range. */
  function Atoi(s: string): int {
    var signed := s != "" && (s[0] == '-' || s[0] == '+');
    var digits := if signed then s[1..] else s;
    if digits == "" || !AllDigits(digits) then 0
    else Clamp(if signed && s[0] == '-' then -Decimal(digits) else Decimal(digits))
  }

  // ---------------------------------------------------------------- the parser

  /** The days before the first dash, 0 without a dash, and the rest. */
  function SplitDays(s: string): (parts: (int, string)) {
    var i := Index(s, "-");
    if i >= 0 then (Atoi(s[..i]), s[i + 1..]) else (0, s)
  }

  function Clock(segments: seq<string>): (hms: (int, int, int)) {
    if |segments| == 3 then (Atoi(segments[0]), Atoi(segments[1]), Atoi(segments[2]))
    else if |segments| == 2 then (0, Atoi(segments[0]), Atoi(segments[1]))
    else if |segments| == 1 then (0, 0, Atoi(segments[0]))
    else (0, 0, 0)
  }

  /** Sums and products of durations wrap around. */
  function Elapsed(days: int, hours: int, minutes: int, seconds: int): int {
    Wrap64(Wrap64(Wrap64(Wrap64(Hours(Wrap64(days * 24))) + Wrap64(Hours(hours))) + Wrap64(Minutes(minutes))) + Wrap64(Seconds(seconds)))
  }

  function ParseEtime(s: string): int {
    var parts := SplitDays(s);
    var hms := Clock(Split(parts.1, ':'));
    Elapsed(parts.0, hms.0, hms.1, hms.2)
  }

  // ---------------------------------------------------------------- the printed form

  /** At least `width` decimal digits. */
  function Padded(n: nat, width: nat): (s: string)
    ensures |s| >= width
    decreases n, width
  {
    if n == 0 && width == 0 then ""
    else Padded(n / 10, if width == 0 then 0 else width - 1) + ['0' + (n % 10) as char]
  }

  /** The shapes of the etime field of the POSIX ps utility: [[dd-]hh:]mm:ss. */
  datatype Shape = MinutesSeconds | HoursMinutesSeconds | DaysHoursMinutesSeconds

  function Print(shape: Shape, dayWidth: nat, d: nat, h: nat, m: nat, s: nat): string {
    var ms := Padded(m, 2) + [':'] + Padded(s, 2);
    match shape
    case MinutesSeconds => ms
    case HoursMinutesSeconds => Padded(h, 2) + [':'] + ms
    case DaysHoursMinutesSeconds => Padded(d, dayWidth) + ['-'] + (Padded(h, 2) + [':'] + ms)
  }

  lemma {:induction false} PaddedReads(n: nat, width: nat)
    ensures AllDigits(Padded(n, width)) && Decimal(Padded(n, width)) == n
    decreases n, width
  {
    if n != 0 || width != 0 {
      PaddedReads(n / 10, if width == 0 then 0 else width - 1);
      var s := Padded(n, width);
      assert s[..|s| - 1] == Padded(n / 10, if width == 0 then 0 else width - 1);
    }
  }

  lemma AtoiPadded(n: nat, width: nat)
    requires width > 0
    ensures Atoi(Padded(n, width)) == Clamp(n)
  {
    PaddedReads(n, width);
    assert IsDigit(Padded(n, width)[0]);
  }

  // ---------------------------------------------------------------- parsing what was printed

  lemma DashFirst(a: string, b: string)
    requires '-' !in a
    ensures Index(a + ['-'] + b, "-") == |a|
  {
    var s := a + ['-'] + b;
    assert OccursAt(s, "-", |a|) by { assert s[|a|..|a| + 1] == ['-']; }
    forall j | 0 <= j < |a| ensures !OccursAt(s, "-", j) {
      assert s[j..j + 1] == [s[j]];
    }
  }

  lemma NoDash(s: string)
    requires '-' !in s
    ensures Index(s, "-") == -1
  {
    forall j | 0 <= j < |s| ensures !OccursAt(s, "-", j) {
      assert s[j..j + 1] == [s[j]];
    }
  }

  lemma JoinTwo(x: string, y: string)
    ensures Join([x, y], ':') == x + [':'] + y
  {
    assert [x, y][1..] == [y];
  }

  lemma JoinThree(x: string, y: string, z: string)
    ensures Join([x, y, z], ':') == x + [':'] + (y + [':'] + z)
  {
    assert [x, y, z][1..] == [y, z];
    JoinTwo(y, z);
  }

  lemma DigitsOnly(s: string)
    requires AllDigits(s)
    ensures ':' !in s && '-' !in s
  {
  }

  lemma FieldReads(n: nat)
    ensures ':' !in Padded(n, 2) && '-' !in Padded(n, 2) && Atoi(Padded(n, 2)) == Clamp(n)
  {
    hide Padded, Atoi;
    PaddedReads(n, 2);
    DigitsOnly(Padded(n, 2));
    AtoiPadded(n, 2);
  }

  /** The clock part without hours reads back field by field. */
  lemma ShortClockReads(m: nat, s: nat)
    ensures var ms := Padded(m, 2) + [':'] + Padded(s, 2);
            '-' !in ms && Clock(Split(ms, ':')) == (0, Clamp(m), Clamp(s))
  {
    hide Padded, Split, Atoi, Join, Clamp;
    var two := [Padded(m, 2), Padded(s, 2)];
    FieldReads(m);
    FieldReads(s);
    JoinTwo(Padded(m, 2), Padded(s, 2));
    SplitJoin(two, ':');
  }

  /** And with hours. */
  lemma ClockReads(h: nat, m: nat, s: nat)
    ensures var hms := Padded(h, 2) + [':'] + (Padded(m, 2) + [':'] + Padded(s, 2));
            '-' !in hms && Clock(Split(hms, ':')) == (Clamp(h), Clamp(m), Clamp(s))
  {
    hide Padded, Split, Atoi, Join, Clamp;
    var three := [Padded(h, 2), Padded(m, 2), Padded(s, 2)];
    FieldReads(h);
    FieldReads(m);
    FieldReads(s);
    JoinThree(Padded(h, 2), Padded(m, 2), Padded(s, 2));
    SplitJoin(three, ':');
  }

  /** What the parser makes of a printed value, in each shape. */
  lemma ParsePrinted(shape: Shape, dayWidth: nat, d: nat, h: nat, m: nat, s: nat)
    requires dayWidth > 0
    ensures ParseEtime(Print(shape, dayWidth, d, h, m, s)) ==
            Elapsed(if shape.DaysHoursMinutesSeconds? then Clamp(d) else 0, if shape.MinutesSeconds? then 0 else Clamp(h), Clamp(m), Clamp(s))
  {
    hide Padded, Split, Atoi, Elapsed, Clock, Index;
    var ms := Padded(m, 2) + [':'] + Padded(s, 2);
    var hms := Padded(h, 2) + [':'] + ms;
    ShortClockReads(m, s);
    ClockReads(h, m, s);
    NoDash(ms);
    NoDash(hms);
    PaddedReads(d, dayWidth);
    AtoiPadded(d, dayWidth);
    var day := Padded(d, dayWidth);
    DashFirst(day, hms);
    var whole := day + ['-'] + hms;
    assert whole[..|day|] == day && whole[|day| + 1..] == hms;
  }

  /** The number of nanoseconds a printed value stands for. */
  function Nanoseconds(shape: Shape, d: nat, h: nat, m: nat, s: nat): nat {
    (if shape.DaysHoursMinutesSeconds? then Hours(d * 24) else 0) + (if shape.MinutesSeconds? then 0 else Hours(h)) + Minutes(m) + Seconds(s)
  }

  lemma ElapsedFits(d: nat, h: nat, m: nat, s: nat)
    requires Hours(d * 24) + Hours(h) + Minutes(m) + Seconds(s) <= MAX_INT64
    ensures Elapsed(Clamp(d), Clamp(h), Clamp(m), Clamp(s)) == Hours(d * 24) + Hours(h) + Minutes(m) + Seconds(s)
  {
    hide Wrap64;
  }

  lemma ElapsedRepresentable(d: int, h: int, m: int, s: int)
    ensures IsDuration(Elapsed(d, h, m, s))
  {
    hide Wrap64;
  }

  /**
   Parsing undoes printing exactly for the durations that fit 64 bits, in every shape and for any
   number of leading zeros in the days.
   */
  lemma ParseInvertsPrint(shape: Shape, dayWidth: nat, d: nat, h: nat, m: nat, s: nat)
    requires dayWidth > 0 && h < 24 && m < 60 && s < 60
    ensures ParseEtime(Print(shape, dayWidth, d, h, m, s)) == Nanoseconds(shape, d, h, m, s) <==>
            Nanoseconds(shape, d, h, m, s) <= MAX_INT64
  {
    hide ParseEtime, Print, Elapsed;
    ParsePrinted(shape, dayWidth, d, h, m, s);
    var days, hours := if shape.DaysHoursMinutesSeconds? then d else 0, if shape.MinutesSeconds? then 0 else h;
    ElapsedRepresentable(Clamp(days), Clamp(hours), Clamp(m), Clamp(s));
    if Nanoseconds(shape, d, h, m, s) <= MAX_INT64 { ElapsedFits(days, hours, m, s); }
  }
}
