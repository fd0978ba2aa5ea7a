/** Stamps as text: what string_time writes and what parseDateTime reads. */
module DateText {
  import opened Common
  import opened Calendar

  // ----- writing --------------------------------------------------------------------

  function Digit(n: int): (c: char)
    requires 0 <= n < 10
    ensures '0' <= c <= '9'
  {
    '0' + n as char
  }

  /** `n` with `width` digits. */
  function Pad(n: nat, width: nat): (s: string)
    ensures |s| == width
  {
    if width == 0 then "" else Pad(n / 10, width - 1) + [Digit(n % 10)]
  }

  function TimeText(tm: Tm): string
    requires Normal(tm)
  {
    Pad(tm.hour, 2) + ":" + (Pad(tm.min, 2) + ":" + Pad(tm.sec, 2))
  }

  /** strftime with "%Y-%m-%d %H:%M:%S", for years of four digits. */
  function Format(tm: Tm): string
    requires Normal(tm) && 0 <= tm.year <= 3000
  {
    Pad(1900 + tm.year, 4) + "-" + (Pad(tm.mon + 1, 2) + "-" + (Pad(tm.mday, 2) + " " + TimeText(tm)))
  }

  method StringTime(dt: int) returns (text: string)
    ensures text == Format(Shown(GmTime(dt)))
  {
    var timeinfo := GmTime(dt);
    hide GmTime, Format;
    if timeinfo.year < 0 || timeinfo.year > 3000 {
      timeinfo := timeinfo.(year := 0);
      timeinfo := timeinfo.(mon := 0);
      timeinfo := timeinfo.(mday := 1);
      timeinfo := timeinfo.(hour := 0);
      timeinfo := timeinfo.(min := 0);
      timeinfo := timeinfo.(sec := 0);
    }
    text := Format(timeinfo);
  }

  /** The time that is written: the first second of 1900 for years that are out of range. */
  function Shown(tm: Tm): (r: Tm)
    requires Normal(tm)
    ensures Normal(r) && 0 <= r.year <= 3000
  {
    if 0 <= tm.year <= 3000 then tm else Tm(0, 0, 1, 0, 0, 0)
  }

  // ----- reading --------------------------------------------------------------------

  predicate IsDigit(c: char) {
    '0' <= c <= '9'
  }

  function SkipSpace(s: string): (r: string)
    ensures |r| <= |s|
  {
    if s != "" && IsSpace(s[0]) then SkipSpace(s[1..]) else s
  }

  function ScanDigits(s: string, n: nat): (r: (nat, string))
    ensures |r.1| <= |s|
  {
    if s != "" && IsDigit(s[0]) then ScanDigits(s[1..], 10 * n + (s[0] as int - '0' as int)) else (n, s)
  }

  datatype Scan = Found(value: int, rest: string) | Missing

  /** The conversion %d: white space, a sign, digits. */
  function ScanInt(s: string): (r: Scan)
    ensures r.Found? ==> |r.rest| < |s|
  {
    var t := SkipSpace(s);
    var signed := t != "" && (t[0] == '-' || t[0] == '+');
    var u := if signed then t[1..] else t;
    if u == "" || !IsDigit(u[0]) then Missing
    else
      var (n, rest) := ScanDigits(u[1..], u[0] as int - '0' as int);
      var value: int := n;
      Found(if signed && t[0] == '-' then -value else value, rest)
  }

  /** A literal of the format: a space stands for any white space, every other character
      for itself. */
  function ScanLiteral(c: char, s: string): Scan {
    if c == ' ' then Found(0, SkipSpace(s))
    else if s != "" && s[0] == c then Found(0, s[1..])
    else Missing
  }

  /** The values read: an integer, and then another one after each of the `separators`,
      until something is missing. */
  function ScanFields(separators: string, s: string): (r: seq<int>)
    ensures |r| <= |separators| + 1
  {
    match ScanInt(s)
    case Missing => []
    case Found(n, rest) =>
      if separators == "" then [n]
      else match ScanLiteral(separators[0], rest)
        case Missing => [n]
        case Found(_, tail) => [n] + ScanFields(separators[1..], tail)
  }

  /** When only some of the six fields are found the source computes with fields that
      were never set. */
  datatype Parsed = Stamp(t: int) | Unset

  function ParseDateTime(text: string): Parsed {
    var v := ScanFields("-- ::", text);
    if |v| == 0 then Stamp(0)
    else if |v| < 6 then Unset
    else Stamp(TimeGm(Tm(v[0] - 1900, v[1] - 1, v[2], v[3], v[4], v[5])))
  }

  /** The text has 19 characters: digits of the six fields, highest first, and the five
      separators between them. */
  lemma {:induction false} FormatIs(tm: Tm)
    requires Normal(tm) && 0 <= tm.year <= 3000
    ensures var s, year := Format(tm), 1900 + tm.year;
            && |s| == 19 && s[4] == s[7] == '-' && s[10] == ' ' && s[13] == s[16] == ':'
            && IsNumber(s[0..4], [year / 1000, year / 100 % 10, year / 10 % 10, year % 10])
            && IsNumber(s[5..7], [(tm.mon + 1) / 10, (tm.mon + 1) % 10]) && IsNumber(s[8..10], [tm.mday / 10, tm.mday % 10])
            && IsNumber(s[11..13], [tm.hour / 10, tm.hour % 10]) && IsNumber(s[14..16], [tm.min / 10, tm.min % 10])
            && IsNumber(s[17..19], [tm.sec / 10, tm.sec % 10])
  {
    hide Pad, IsNumber, Format;
    FieldsOfFormat(tm);
    TwoDigits(tm.mon + 1);
    TwoDigits(tm.mday);
    TwoDigits(tm.hour);
    TwoDigits(tm.min);
    TwoDigits(tm.sec);
    FourDigits(1900 + tm.year);
  }

  /** Where the fields are. */
  lemma {:induction false} FieldsOfFormat(tm: Tm)
    requires Normal(tm) && 0 <= tm.year <= 3000
    ensures var s := Format(tm);
            && |s| == 19 && s[4] == s[7] == '-' && s[10] == ' ' && s[13] == s[16] == ':'
            && s[0..4] == Pad(1900 + tm.year, 4) && s[5..7] == Pad(tm.mon + 1, 2) && s[8..10] == Pad(tm.mday, 2)
            && s[11..13] == Pad(tm.hour, 2) && s[14..16] == Pad(tm.min, 2) && s[17..19] == Pad(tm.sec, 2)
  {
    hide Pad;
    Slices(Pad(1900 + tm.year, 4), Pad(tm.mon + 1, 2), Pad(tm.mday, 2), Pad(tm.hour, 2), Pad(tm.min, 2), Pad(tm.sec, 2));
  }

  lemma {:induction false} Slices(y: string, mon: string, d: string, h: string, min: string, sec: string)
    requires |y| == 4 && |mon| == |d| == |h| == |min| == |sec| == 2
    ensures var s := y + "-" + (mon + "-" + (d + " " + (h + ":" + (min + ":" + sec))));
            && |s| == 19 && s[4] == s[7] == '-' && s[10] == ' ' && s[13] == s[16] == ':'
            && s[0..4] == y && s[5..7] == mon && s[8..10] == d && s[11..13] == h && s[14..16] == min && s[17..19] == sec
  {
  }

  /** The text consists of these digits. */
  predicate IsNumber(s: string, digits: seq<int>) {
    |s| == |digits| && forall i | 0 <= i < |s| :: s[i] as int - '0' as int == digits[i] && 0 <= digits[i] < 10
  }

  lemma {:induction false} TwoDigits(n: nat)
    requires n < 100
    ensures IsNumber(Pad(n, 2), [n / 10, n % 10])
  {
    assert Pad(n / 10 / 10, 0) == "";
    assert Pad(n / 10, 1) == [Digit(n / 10 % 10)];
    assert Pad(n, 2) == [Digit(n / 10), Digit(n % 10)];
  }

  lemma {:induction false} FourDigits(n: nat)
    requires n < 10000
    ensures IsNumber(Pad(n, 4), [n / 1000, n / 100 % 10, n / 10 % 10, n % 10])
  {
    TwoDigits(n / 100);
    assert Pad(n, 4) == Pad(n / 10, 3) + [Digit(n % 10)];
    assert Pad(n / 10, 3) == Pad(n / 10 / 10, 2) + [Digit(n / 10 % 10)];
    assert n / 10 / 10 == n / 100 && n / 100 / 10 == n / 1000;
  }

  // ----- reading what was written ---------------------------------------------------

  function Pow10(n: nat): nat {
    if n == 0 then 1 else 10 * Pow10(n - 1)
  }

  predicate Stops(rest: string) {
    rest != "" ==> !IsDigit(rest[0])
  }

  lemma {:induction false} ScanPad(n: nat, width: nat, rest: string, acc: nat)
    requires n < Pow10(width)
    ensures ScanDigits(Pad(n, width) + rest, acc) == ScanDigits(rest, acc * Pow10(width) + n)
    decreases width
  {
    if width == 0 {
      assert Pad(n, 0) + rest == rest;
    } else {
      var last := [Digit(n % 10)];
      assert Pad(n, width) + rest == Pad(n / 10, width - 1) + (last + rest);
      ScanPad(n / 10, width - 1, last + rest, acc);
      assert (last + rest)[1..] == rest;
      Digits(n, width, acc);
    }
  }

  lemma {:induction false} Digits(n: nat, width: nat, acc: nat)
    requires width > 0
    ensures 10 * (acc * Pow10(width - 1) + n / 10) + n % 10 == acc * Pow10(width) + n
  {
    var p := Pow10(width - 1);
    assert 10 * (acc * p) == acc * (10 * p);
  }

  lemma {:induction false} ScanIntPad(n: nat, width: nat, rest: string)
    requires 0 < width && n < Pow10(width) && Stops(rest)
    ensures ScanInt(Pad(n, width) + rest) == Found(n, rest)
  {
    var s := Pad(n, width) + rest;
    PadDigits(n, width);
    assert s[0] == Pad(n, width)[0];
    ScanPad(n, width, rest, 0);
    assert ScanDigits(s, 0) == ScanDigits(s[1..], s[0] as int - '0' as int);
  }

  /** White space before a number is passed over. */
  lemma {:induction false} ScanBehindSpace(left: string, s: string)
    requires (forall c | c in left :: IsSpace(c)) && s != "" && !IsSpace(s[0])
    ensures ScanInt(left + s) == ScanInt(s)
  {
    hide ScanDigits, IsSpace;
    SkipsSpace(left, s);
    SkipsSpace("", s);
    assert "" + s == s;
  }

  /** And a sign counts. */
  lemma {:induction false} ScanSigned(n: nat, width: nat, rest: string)
    requires 0 < width && n < Pow10(width) && Stops(rest)
    ensures var s, m: int := Pad(n, width) + rest, n; ScanInt("-" + s) == Found(-m, rest) && ScanInt("+" + s) == Found(m, rest)
  {
    var s := Pad(n, width) + rest;
    PadDigits(n, width);
    assert s[0] == Pad(n, width)[0];
    ScanPad(n, width, rest, 0);
    assert ScanDigits(s, 0) == ScanDigits(s[1..], s[0] as int - '0' as int);
    hide ScanDigits, Pad, Pow10;
    assert ("-" + s)[1..] == s && ("+" + s)[1..] == s;
    NoSpaces();
    assert SkipSpace("-" + s) == "-" + s && SkipSpace("+" + s) == "+" + s;
  }

  lemma {:induction false} NoSpaces()
    ensures !IsSpace('-') && !IsSpace('+')
  {
  }

  lemma {:induction false} SkipsSpace(left: string, s: string)
    requires (forall c | c in left :: IsSpace(c)) && s != "" && !IsSpace(s[0])
    ensures SkipSpace(left + s) == s
  {
    if left == "" {
      assert left + s == s;
    } else {
      assert left[0] in left && (left + s)[1..] == left[1..] + s;
      SkipsSpace(left[1..], s);
    }
  }

  /** A text that does not begin with a number is the Epoch. */
  lemma {:induction false} NoNumber(left: string, s: string)
    requires (forall c | c in left :: IsSpace(c)) && (s == "" || (!IsSpace(s[0]) && !IsDigit(s[0]) && s[0] != '-' && s[0] != '+'))
    ensures ParseDateTime(left + s) == Stamp(0)
  {
    hide IsSpace, ScanDigits;
    if s == "" {
      AllSpace(left);
      assert left + s == left;
    } else {
      SkipsSpace(left, s);
    }
  }

  /** One that holds nothing but a year is no stamp at all. */
  lemma {:induction false} OnlyYear(year: nat)
    requires year < 10000
    ensures ParseDateTime(Pad(year, 4)) == Unset
  {
    assert Pow10(1) == 10 && Pow10(2) == 100 && Pow10(4) == 10000;
    ScanIntPad(year, 4, "");
    hide ScanInt, Pad, Pow10;
    assert Pad(year, 4) + "" == Pad(year, 4);
  }

  lemma {:induction false} AllSpace(s: string)
    requires forall c | c in s :: IsSpace(c)
    ensures SkipSpace(s) == ""
  {
    if s != "" {
      assert s[0] in s;
      AllSpace(s[1..]);
    }
  }

  lemma {:induction false} PadDigits(n: nat, width: nat)
    ensures forall c | c in Pad(n, width) :: IsDigit(c)
  {
    if width > 0 {
      PadDigits(n / 10, width - 1);
    }
  }

  lemma {:induction false} ScanField(n: nat, width: nat, c: char, more: string, text: string, tail: string)
    requires 0 < width && n < Pow10(width) && !IsDigit(c) && tail != "" && IsDigit(tail[0])
    requires text == Pad(n, width) + [c] + tail
    ensures ScanFields([c] + more, text) == [n] + ScanFields(more, tail)
  {
    hide ScanInt, Pad, Pow10;
    var rest := [c] + tail;
    assert text == Pad(n, width) + rest;
    ScanIntPad(n, width, rest);
    assert rest[1..] == tail && ([c] + more)[1..] == more;
    DigitIsNoSpace(tail);
  }

  lemma {:induction false} DigitIsNoSpace(s: string)
    requires s != "" && IsDigit(s[0])
    ensures SkipSpace(s) == s
  {
  }

  lemma {:induction false} StartsWithDigit(n: nat, width: nat, rest: string)
    requires width > 0
    ensures var s := Pad(n, width) + rest; s != "" && IsDigit(s[0])
  {
    PadDigits(n, width);
    assert (Pad(n, width) + rest)[0] == Pad(n, width)[0];
  }

  lemma {:induction false} ScanTime(tm: Tm)
    requires Normal(tm)
    ensures ScanFields("::", TimeText(tm)) == [tm.hour, tm.min, tm.sec]
    ensures TimeText(tm) != "" && IsDigit(TimeText(tm)[0])
  {
    hide ScanInt, Pad, IsDigit;
    assert Pow10(1) == 10 && Pow10(2) == 100;
    var s := Pad(tm.sec, 2);
    var m := Pad(tm.min, 2) + ":" + s;
    ScanIntPad(tm.sec, 2, "");
    assert s + "" == s && [':'] + "" == ":" && [':'] + ":" == "::";
    StartsWithDigit(tm.sec, 2, "");
    StartsWithDigit(tm.min, 2, ":" + s);
    StartsWithDigit(tm.hour, 2, ":" + m);
    assert m == Pad(tm.min, 2) + (":" + s) && TimeText(tm) == Pad(tm.hour, 2) + (":" + m);
    NoDigits();
    LastField(tm.sec, s);
    ScanField(tm.min, 2, ':', "", m, s);
    ScanField(tm.hour, 2, ':', ":", TimeText(tm), m);
  }

  lemma {:induction false} LastField(n: nat, s: string)
    requires ScanInt(s) == Found(n, "")
    ensures ScanFields("", s) == [n]
  {
  }

  lemma {:induction false} NoDigits()
    ensures !IsDigit(':') && !IsDigit('-') && !IsDigit(' ')
  {
  }

  lemma {:induction false} ScanFormat(tm: Tm)
    requires Normal(tm) && 0 <= tm.year <= 3000
    ensures ScanFields("-- ::", Format(tm)) == [1900 + tm.year, tm.mon + 1, tm.mday, tm.hour, tm.min, tm.sec]
  {
    hide ScanInt, Pad, IsDigit, ScanFields;
    assert Pow10(1) == 10 && Pow10(2) == 100 && Pow10(4) == 10000;
    var h := TimeText(tm);
    var d := Pad(tm.mday, 2) + " " + h;
    var mon := Pad(tm.mon + 1, 2) + "-" + d;
    assert [' '] + "::" == " ::" && ['-'] + " ::" == "- ::" && ['-'] + "- ::" == "-- ::";
    ScanTime(tm);
    StartsWithDigit(tm.mday, 2, " " + h);
    StartsWithDigit(tm.mon + 1, 2, "-" + d);
    assert d == Pad(tm.mday, 2) + (" " + h) && mon == Pad(tm.mon + 1, 2) + ("-" + d);
    NoDigits();
    ScanField(tm.mday, 2, ' ', "::", d, h);
    ScanField(tm.mon + 1, 2, '-', " ::", mon, d);
    ScanField(1900 + tm.year, 4, '-', "- ::", Format(tm), mon);
  }

  /** Reading what was written gives the stamp back exactly if it lies in the years that
      are written as they are, 1900 to 4900. */
  lemma {:induction false} RoundTrip(dt: int)
    ensures ParseDateTime(Format(Shown(GmTime(dt)))) == Stamp(TimeGm(Shown(GmTime(dt))))
    ensures ParseDateTime(Format(Shown(GmTime(dt)))) == Stamp(dt)
            <==> YearDays(0) * 86400 <= dt < YearDays(3001) * 86400
  {
    hide GmTime, Format, ScanFields, TimeGm, YearDays, Normal;
    var tm := GmTime(dt);
    ScanFormat(Shown(tm));
    YearRange(tm);
  }

  lemma {:induction false} FirstMonth()
    ensures MonthDays(0, 0) == 0 && MonthLength(0, 0) == 31
  {
  }

  lemma {:induction false} YearRange(tm: Tm)
    requires Normal(tm)
    ensures 0 <= tm.year <= 3000 <==> YearDays(0) * 86400 <= TimeGm(tm) < YearDays(3001) * 86400
    ensures tm.year < 0 || tm.year > 3000 ==> TimeGm(Tm(0, 0, 1, 0, 0, 0)) != TimeGm(tm)
  {
    hide MonthDays, MonthLength, Days;
    DayInYear(tm.year, tm.mon, tm.mday);
    DayInYear(0, 0, 1);
    assert MonthDays(0, 0) == 0 by { FirstMonth(); }
    if tm.year < 0 {
      YearsGrow(tm.year, 0);
    } else if tm.year > 3000 {
      if tm.year > 3001 {
        YearsGrow(3001, tm.year);
      }
    }
  }
}
