/** The text the capture loop builds from numbers and timestamps:
    `strconv.Itoa` for still numbers, and the Go `time.Format` layouts of the
    clip names, "2006-01-02_03-04.avi", "2006-01-02_03.avi" and
    "2006-01-02.avi". In Go layouts `03` is the hour on the 12-hour clock
    (01 to 12, noon and midnight both 12), `01`, `02` and `04` are the
    zero-padded month, day and minute, and `2006` is the four-digit year. */
module Layout {
  import opened Clock

  predicate IsDigit(c: char) {
    '0' <= c <= '9'
  }

  predicate AllDigits(s: string) {
    forall i :: 0 <= i < |s| ==> IsDigit(s[i])
  }

  function DigitValue(c: char): int {
    c as int - '0' as int
  }

  function DigitChar(d: int): (c: char)
    requires 0 <= d < 10
    ensures IsDigit(c) && DigitValue(c) == d
  {
    ('0' as int + d) as char
  }

  /** The number a string of decimal digits spells, most significant digit
      first: the reading that the formatting functions below are proved to
      invert. */
  function ParseDecimal(s: string): int {
    if s == [] then 0 else ParseDecimal(s[..|s| - 1]) * 10 + DigitValue(s[|s| - 1])
  }

  function Pow10(k: nat): nat {
    if k == 0 then 1 else 10 * Pow10(k - 1)
  }

  /** Reading a concatenation: the left part is shifted by the length of the
      right part. */
  lemma {:induction false} ParseDecimalAppend(a: string, b: string)
    ensures ParseDecimal(a + b) == ParseDecimal(a) * Pow10(|b|) + ParseDecimal(b)
  {
    if b == [] {
      assert a + b == a;
    } else {
      var b' := b[..|b| - 1];
      assert (a + b)[..|a + b| - 1] == a + b';
      assert (a + b)[|a + b| - 1] == b[|b| - 1];
      ParseDecimalAppend(a, b');
      var pa, pb' := ParseDecimal(a), ParseDecimal(b');
      calc {
        ParseDecimal(a + b);
        ParseDecimal(a + b') * 10 + DigitValue(b[|b| - 1]);
        (pa * Pow10(|b'|) + pb') * 10 + DigitValue(b[|b| - 1]);
        { assert (pa * Pow10(|b'|)) * 10 == pa * (10 * Pow10(|b'|)); }
        pa * Pow10(|b|) + (pb' * 10 + DigitValue(b[|b| - 1]));
      }
    }
  }

  /** `strconv.Itoa` for a non-negative number: its decimal digits, with no
      leading zero. */
  function Itoa(n: nat): (s: string)
    ensures |s| >= 1 && AllDigits(s)
    ensures s[0] == '0' <==> n == 0
    ensures n < 10 <==> |s| == 1
  {
    if n < 10 then [DigitChar(n)] else Itoa(n / 10) + [DigitChar(n % 10)]
  }

  /** Reading back what `Itoa` wrote gives the number again. */
  lemma {:induction false} ItoaRoundTrip(n: nat)
    ensures ParseDecimal(Itoa(n)) == n
  {
    if n < 10 {
      assert Itoa(n)[..0] == [];
    } else {
      var s := Itoa(n / 10);
      assert (s + [DigitChar(n % 10)])[..|s|] == s;
      ItoaRoundTrip(n / 10);
    }
  }

  /** Distinct still numbers give distinct still file names. */
  lemma ItoaInjective(m: nat, n: nat)
    ensures Itoa(m) == Itoa(n) <==> m == n
  {
    ItoaRoundTrip(m);
    ItoaRoundTrip(n);
  }

  /** Two zero-padded digits (`01`, `02`, `03`, `04` in a Go layout). */
  function Pad2(n: int): (s: string)
    requires 0 <= n < 100
    ensures |s| == 2 && AllDigits(s) && ParseDecimal(s) == n
  {
    var s := [DigitChar(n / 10), DigitChar(n % 10)];
    assert s[..1] == [s[0]] && [s[0]][..0] == [];
    assert ParseDecimal(s[..1]) == n / 10;
    s
  }

  /** Four zero-padded digits (`2006` in a Go layout). */
  function Pad4(n: int): (s: string)
    requires 0 <= n < 10000
    ensures |s| == 4 && AllDigits(s) && ParseDecimal(s) == n
  {
    ParseDecimalAppend(Pad2(n / 100), Pad2(n % 100));
    Pad2(n / 100) + Pad2(n % 100)
  }

  /** The hour as layout `03` prints it, before padding. */
  function Hour12(h: Hour): (r: int)
    ensures 1 <= r <= 12 && r % 12 == h % 12
  {
    if h % 12 == 0 then 12 else h % 12
  }

  /** "2006-01-02" */
  function DatePart(t: Time): string {
    Pad4(t.year) + "-" + Pad2(t.month) + "-" + Pad2(t.day)
  }

  /** Layout "2006-01-02_03-04.avi": name of a 5-minute clip. */
  function FiveMinClipName(t: Time): string {
    DatePart(t) + "_" + Pad2(Hour12(t.hour)) + "-" + Pad2(t.minute) + ".avi"
  }

  /** Layout "2006-01-02_03.avi": name of an hourly clip. */
  function HourClipName(t: Time): string {
    DatePart(t) + "_" + Pad2(Hour12(t.hour)) + ".avi"
  }

  /** Layout "2006-01-02.avi": name of a daily clip. */
  function DayClipName(t: Time): string {
    DatePart(t) + ".avi"
  }

  /** Where the fields of a timestamp stand in a clip name. */
  lemma DatePartFields(t: Time, rest: string)
    ensures var s := DatePart(t) + rest;
      && |s| == 10 + |rest|
      && ParseDecimal(s[0..4]) == t.year
      && ParseDecimal(s[5..7]) == t.month
      && ParseDecimal(s[8..10]) == t.day
      && s[10..] == rest
  {
    var y, m, d := Pad4(t.year), Pad2(t.month), Pad2(t.day);
    var s := DatePart(t) + rest;
    assert s == y + ("-" + (m + ("-" + (d + rest))));
    assert s[0..4] == y;
    assert s[5..7] == m;
    assert s[8..10] == d;
  }

  lemma HourFields(t: Time, rest: string)
    ensures var s := "_" + Pad2(Hour12(t.hour)) + rest;
      && ParseDecimal(s[1..3]) == Hour12(t.hour)
      && s[3..] == rest
  {
    var h := Pad2(Hour12(t.hour));
    var s := "_" + h + rest;
    assert s == "_" + (h + rest);
    assert s[1..3] == h;
  }

  lemma Hour12SameHalf(a: Hour, b: Hour)
    ensures Hour12(a) == Hour12(b) <==> a % 12 == b % 12
  {
  }

  /** Where the fields of a timestamp stand in a 5-minute clip name. */
  lemma FiveMinClipNameFields(t: Time)
    ensures var s := FiveMinClipName(t);
      && |s| == 20
      && ParseDecimal(s[0..4]) == t.year
      && ParseDecimal(s[5..7]) == t.month
      && ParseDecimal(s[8..10]) == t.day
      && ParseDecimal(s[11..13]) == Hour12(t.hour)
      && ParseDecimal(s[14..16]) == t.minute
  {
    var m := Pad2(t.minute);
    var tail := "-" + m + ".avi";
    var r := "_" + Pad2(Hour12(t.hour)) + tail;
    var s := FiveMinClipName(t);
    assert s == DatePart(t) + r;
    DatePartFields(t, r);
    HourFields(t, tail);
    assert r[3..] == tail;
    assert tail[1..3] == m;
    assert s[14..16] == r[4..6] == tail[1..3];
  }

  /** Two 5-minute clips get the same name exactly when their labels agree
      on the date, the minute and the hour of the 12-hour clock. */
  lemma FiveMinClipNameSame(a: Time, b: Time)
    ensures FiveMinClipName(a) == FiveMinClipName(b) <==>
      SameDate(a, b) && a.hour % 12 == b.hour % 12 && a.minute == b.minute
  {
    Hour12SameHalf(a.hour, b.hour);
    if FiveMinClipName(a) == FiveMinClipName(b) {
      FiveMinClipNameFields(a);
      FiveMinClipNameFields(b);
    }
  }

  /** Two hourly clips get the same name exactly when their labels agree on
      the date and on the hour of the 12-hour clock: the hours h and h + 12
      of one day share a name. */
  lemma HourClipNameSame(a: Time, b: Time)
    ensures HourClipName(a) == HourClipName(b) <==>
      SameDate(a, b) && a.hour % 12 == b.hour % 12
  {
    Hour12SameHalf(a.hour, b.hour);
    if HourClipName(a) == HourClipName(b) {
      var ra := "_" + Pad2(Hour12(a.hour)) + ".avi";
      var rb := "_" + Pad2(Hour12(b.hour)) + ".avi";
      assert HourClipName(a) == DatePart(a) + ra;
      assert HourClipName(b) == DatePart(b) + rb;
      DatePartFields(a, ra);
      DatePartFields(b, rb);
      assert ra == rb;
      HourFields(a, ".avi");
      HourFields(b, ".avi");
    }
  }

  /** Two daily clips get the same name exactly when their labels share the
      date. */
  lemma DayClipNameSame(a: Time, b: Time)
    ensures DayClipName(a) == DayClipName(b) <==> SameDate(a, b)
  {
    if DayClipName(a) == DayClipName(b) {
      DatePartFields(a, ".avi");
      DatePartFields(b, ".avi");
    }
  }

  /** Worked example: the date part of 2024-01-01 10:00. */
  lemma DatePartExample()
    ensures DatePart(Time(2024, 1, 1, 10, 0, 0, 0)) == "2024-01-01"
  {
    assert Pad2(20) == "20";
    assert Pad2(24) == "24";
    assert Pad2(1) == "01";
  }

  /** Worked example: the 5-minute clip of the bucket 2024-01-01 10:00 is
      "2024-01-01_10-00.avi". */
  lemma FiveMinClipNameExample()
    ensures FiveMinClipName(Time(2024, 1, 1, 10, 0, 0, 0)) == "2024-01-01_10-00.avi"
  {
    DatePartExample();
    assert Pad2(10) == "10";
    assert Pad2(0) == "00";
  }

  lemma DigitsHaveNoSlash(s: string)
    requires AllDigits(s)
    ensures '/' !in s
  {
  }

  /** None of the generated file names contains a path separator, so each
      one names a file directly inside the directory it is joined to. */
  lemma NamesHaveNoSlash(t: Time, n: nat)
    ensures '/' !in FiveMinClipName(t)
    ensures '/' !in HourClipName(t)
    ensures '/' !in DayClipName(t)
    ensures '/' !in Itoa(n) + ".jpg"
  {
    DigitsHaveNoSlash(Pad4(t.year));
    DigitsHaveNoSlash(Pad2(t.month));
    DigitsHaveNoSlash(Pad2(t.day));
    DigitsHaveNoSlash(Pad2(Hour12(t.hour)));
    DigitsHaveNoSlash(Pad2(t.minute));
    DigitsHaveNoSlash(Itoa(n));
  }
}
