/** `datetime.datetime.strptime(s, fmt).date()` for the two formats that
    `DateField` uses by default, `%m/%d/%y` and `%m/%d/%Y`.

    strptime compiles a format into a regular expression, takes the FIRST
    match at the start of the string that the backtracking engine finds
    (alternatives tried in the order written), fails with "unconverted data
    remains" when that match does not reach the end of the string, and then
    builds a `datetime.date`, which rejects days beyond the end of the month
    and year 0. All three steps are modelled; a failure at any of them is the
    `ValueError` that `DateField` catches, here `None`. */
module Dates {
  import opened Values
  import opened Ints

  datatype DateFormat = ShortYear | LongYear

  function FormatText(f: DateFormat): string
  {
    match f
    case ShortYear => "%m/%d/%y"
    case LongYear => "%m/%d/%Y"
  }

  predicate IsLeap(y: int)
  {
    y % 4 == 0 && (y % 100 != 0 || y % 400 == 0)
  }

  function DaysInMonth(y: int, m: int): int
    requires 1 <= m <= 12
  {
    if m == 2 then (if IsLeap(y) then 29 else 28)
    else if m == 4 || m == 6 || m == 9 || m == 11 then 30
    else 31
  }

  /** What `datetime.date(year, month, day)` accepts. */
  predicate ValidDate(d: Date)
  {
    1 <= d.year <= 9999 && 1 <= d.month <= 12 && 1 <= d.day <= DaysInMonth(d.year, d.month)
  }

  /** One piece of the regular expression a format compiles to:
      a literal character, `%m`, `%d`, `%y` or `%Y`. */
  datatype Item = Lit(c: char) | Month | Day | Year2 | Year4

  function Items(f: DateFormat): seq<Item>
  {
    [Month, Lit('/'), Day, Lit('/'), if f == ShortYear then Year2 else Year4]
  }

  predicate CharIs(s: string, i: nat, c: char)
  {
    i < |s| && s[i] == c
  }

  predicate Between(s: string, i: nat, lo: char, hi: char)
  {
    i < |s| && lo <= s[i] <= hi
  }

  /** The ways `item` can match at position `i` of `s`, in the order the
      engine tries its alternatives; each is the value read and the position
      after it. `%m` is `1[0-2]|0[1-9]|[1-9]`, `%d` is
      `3[01]|[12]\d|0[1-9]|[1-9]| [1-9]`, `%y` is `\d\d`, `%Y` is `\d\d\d\d`. */
  function Candidates(item: Item, s: string, i: nat): (cs: seq<(int, nat)>)
    ensures forall k | 0 <= k < |cs| :: i < cs[k].1 <= |s|
  {
    match item
    case Lit(c) =>
      if CharIs(s, i, c) then [(0, i + 1)] else []
    case Month =>
      (if CharIs(s, i, '1') && Between(s, i + 1, '0', '2') then [(10 + DigitValue(s[i + 1]), i + 2)] else [])
      + (if CharIs(s, i, '0') && Between(s, i + 1, '1', '9') then [(DigitValue(s[i + 1]), i + 2)] else [])
      + (if Between(s, i, '1', '9') then [(DigitValue(s[i]), i + 1)] else [])
    case Day =>
      (if CharIs(s, i, '3') && Between(s, i + 1, '0', '1') then [(30 + DigitValue(s[i + 1]), i + 2)] else [])
      + (if Between(s, i, '1', '2') && Between(s, i + 1, '0', '9')
         then [(10 * DigitValue(s[i]) + DigitValue(s[i + 1]), i + 2)] else [])
      + (if CharIs(s, i, '0') && Between(s, i + 1, '1', '9') then [(DigitValue(s[i + 1]), i + 2)] else [])
      + (if Between(s, i, '1', '9') then [(DigitValue(s[i]), i + 1)] else [])
      + (if CharIs(s, i, ' ') && Between(s, i + 1, '1', '9') then [(DigitValue(s[i + 1]), i + 2)] else [])
    case Year2 =>
      if i + 2 <= |s| && AllDigits(s[i..i + 2]) then [(DigitsValue(s[i..i + 2]), i + 2)] else []
    case Year4 =>
      if i + 4 <= |s| && AllDigits(s[i..i + 4]) then [(DigitsValue(s[i..i + 4]), i + 4)] else []
  }

  /** The first match of `items` at position `i` in backtracking order: the
      value read by each item, and the position where the match ends. */
  function Match(items: seq<Item>, s: string, i: nat): (r: Option<(seq<int>, nat)>)
    requires i <= |s|
    ensures r.Some? ==> |r.value.0| == |items| && i <= r.value.1 <= |s|
    decreases |items|, 0
  {
    if items == [] then Some(([], i))
    else FirstOf(Candidates(items[0], s, i), items[1..], s, i)
  }

  /** Try the candidates for one item in order, each followed by the rest. */
  function FirstOf(cands: seq<(int, nat)>, rest: seq<Item>, s: string, i: nat): (r: Option<(seq<int>, nat)>)
    requires forall k | 0 <= k < |cands| :: i < cands[k].1 <= |s|
    ensures r.Some? ==> |r.value.0| == |rest| + 1 && i < r.value.1 <= |s|
    decreases |rest|, |cands|
  {
    if cands == [] then None
    else
      match Match(rest, s, cands[0].1)
      case Some((vs, e)) => Some(([cands[0].0] + vs, e))
      case None => FirstOf(cands[1..], rest, s, i)
  }

  /** `%y` reads a year of the century: 69..99 are 1969..1999, 00..68 are 2000..2068. */
  function CenturyYear(y: int): int
  {
    if y <= 68 then y + 2000 else y + 1900
  }

  /** `strptime(s, FormatText(f)).date()`, or `None` for its `ValueError`. */
  function Strptime(s: string, f: DateFormat): (r: Option<Date>)
    ensures r.Some? ==> ValidDate(r.value)
  {
    match Match(Items(f), s, 0)
    case None => None
    case Some((vs, e)) =>
      if e != |s| then None
      else
        var d := Date(if f == ShortYear then CenturyYear(vs[4]) else vs[4], vs[0], vs[2]);
        if ValidDate(d) then Some(d) else None
  }

  // ---- The zero-padded rendering that strptime reads back ----

  function Pad2(n: int): string
    requires 0 <= n < 100
  {
    [DigitChar(n / 10), DigitChar(n % 10)]
  }

  function Pad4(n: int): string
    requires 0 <= n < 10000
  {
    Pad2(n / 100) + Pad2(n % 100)
  }

  /** `d` written in format `f` with every field zero-padded. */
  function Render(d: Date, f: DateFormat): string
    requires ValidDate(d)
  {
    Pad2(d.month) + "/" + Pad2(d.day) + "/"
    + (match f case ShortYear => Pad2(d.year % 100) case LongYear => Pad4(d.year))
  }

  lemma Pad2Value(n: int)
    requires 0 <= n < 100
    ensures AllDigits(Pad2(n)) && DigitsValue(Pad2(n)) == n
  {
    var s := Pad2(n);
    assert s[..1][..0] == [];
    assert s[..1] == [DigitChar(n / 10)];
    assert DigitsValue(s[..1]) == n / 10;
    assert DigitsValue(s) == (n / 10) * 10 + n % 10;
  }

  lemma Pad4Value(n: int)
    requires 0 <= n < 10000
    ensures AllDigits(Pad4(n)) && DigitsValue(Pad4(n)) == n
  {
    var hi, lo := Pad2(n / 100), Pad2(n % 100);
    Pad2Value(n / 100);
    Pad2Value(n % 100);
    var s := hi + lo;
    assert s[..3] == hi + [lo[0]];
    assert s[..3][..2] == hi;
    assert [lo[0]] == lo[..1];
    assert DigitsValue(lo[..1]) == DigitValue(lo[0]) by {
      assert lo[..1][..0] == [];
    }
  }

  lemma MonthFirst(s: string, i: nat, m: int)
    requires 1 <= m <= 12 && i + 2 <= |s| && s[i..i + 2] == Pad2(m)
    ensures |Candidates(Month, s, i)| > 0 && Candidates(Month, s, i)[0] == (m, i + 2)
  {
    assert s[i] == DigitChar(m / 10) && s[i + 1] == DigitChar(m % 10) by {
      assert s[i..i + 2][0] == s[i] && s[i..i + 2][1] == s[i + 1];
    }
  }

  lemma DayFirst(s: string, i: nat, d: int)
    requires 1 <= d <= 31 && i + 2 <= |s| && s[i..i + 2] == Pad2(d)
    ensures |Candidates(Day, s, i)| > 0 && Candidates(Day, s, i)[0] == (d, i + 2)
  {
    assert s[i] == DigitChar(d / 10) && s[i + 1] == DigitChar(d % 10) by {
      assert s[i..i + 2][0] == s[i] && s[i..i + 2][1] == s[i + 1];
    }
  }

  /** When the first candidate of the first item leads to a match of the
      rest, that is the match found. */
  lemma MatchStep(items: seq<Item>, s: string, i: nat, v: int, j: nat, vs: seq<int>, e: nat)
    requires items != [] && i <= |s|
    requires |Candidates(items[0], s, i)| > 0 && Candidates(items[0], s, i)[0] == (v, j)
    requires Match(items[1..], s, j) == Some((vs, e))
    ensures Match(items, s, i) == Some(([v] + vs, e))
  {
  }

  /** The value `%y` or `%Y` reads from `Render(d, f)`. */
  function YearDigits(d: Date, f: DateFormat): int
    requires ValidDate(d)
  {
    if f == ShortYear then d.year % 100 else d.year
  }

  /** A string that starts `mm/dd/` and whose year item has exactly one
      candidate is matched along that one path. */
  lemma PrefixMatch(s: string, f: DateFormat, m: int, day: int, y: int, e: nat)
    requires 1 <= m <= 12 && 1 <= day <= 31 && 6 <= |s|
    requires s[0..2] == Pad2(m) && s[2] == '/' && s[3..5] == Pad2(day) && s[5] == '/'
    requires Candidates(Items(f)[4], s, 6) == [(y, e)]
    ensures Match(Items(f), s, 0) == Some(([m, 0, day, 0, y], e))
  {
    var items := Items(f);
    DayMatch(s, f, day, y, e);
    MonthFirst(s, 0, m);
    assert items[1..][1..] == items[2..];
    FiveValues(m, day, y);
    MatchStep(items[1..], s, 2, 0, 3, [day, 0, y], e);
    MatchStep(items, s, 0, m, 2, [0, day, 0, y], e);
  }

  lemma FiveValues(m: int, day: int, y: int)
    ensures [y] + [] == [y] && [0] + [y] == [0, y] && [day] + [0, y] == [day, 0, y]
    ensures [0] + [day, 0, y] == [0, day, 0, y] && [m] + [0, day, 0, y] == [m, 0, day, 0, y]
  {
  }

  /** The part of `PrefixMatch` from the day on. */
  lemma DayMatch(s: string, f: DateFormat, day: int, y: int, e: nat)
    requires 1 <= day <= 31 && 6 <= |s|
    requires s[3..5] == Pad2(day) && s[5] == '/'
    requires Candidates(Items(f)[4], s, 6) == [(y, e)]
    ensures Match(Items(f)[2..], s, 3) == Some(([day, 0, y], e))
  {
    var items := Items(f);
    DayFirst(s, 3, day);
    FiveValues(0, day, y);
    MatchStep(items[4..], s, 6, y, e, [], e);
    assert items[3..][1..] == items[4..];
    MatchStep(items[3..], s, 5, 0, 6, [y], e);
    assert items[2..][1..] == items[3..];
    MatchStep(items[2..], s, 3, day, 5, [0, y], e);
  }

  lemma RenderMatches(d: Date, f: DateFormat)
    requires ValidDate(d)
    ensures Match(Items(f), Render(d, f), 0) == Some(([d.month, 0, d.day, 0, YearDigits(d, f)], |Render(d, f)|))
  {
    var s := Render(d, f);
    var yearText := match f case ShortYear => Pad2(d.year % 100) case LongYear => Pad4(d.year);
    assert s == Pad2(d.month) + "/" + Pad2(d.day) + "/" + yearText;
    assert s[0..2] == Pad2(d.month);
    assert s[3..5] == Pad2(d.day);
    assert s[6..] == yearText;
    var y := YearDigits(d, f);
    if f == ShortYear {
      Pad2Value(y);
      assert s[6..8] == Pad2(y);
    } else {
      Pad4Value(y);
      assert s[6..10] == Pad4(y);
    }
    PrefixMatch(s, f, d.month, d.day, y, |s|);
  }

  /** `%y` does not read a four-digit year: the match stops two digits early
      and strptime reports unconverted data. This is why the default list
      can try `%m/%d/%y` first and still read "02/01/2016" correctly. */
  lemma ShortYearRejectsLongYear(d: Date)
    requires ValidDate(d)
    ensures Strptime(Render(d, LongYear), ShortYear) == None
  {
    var s := Render(d, LongYear);
    assert s == Pad2(d.month) + "/" + Pad2(d.day) + "/" + Pad4(d.year);
    assert s[0..2] == Pad2(d.month);
    assert s[3..5] == Pad2(d.day);
    assert s[6..10] == Pad4(d.year);
    Pad4Value(d.year);
    assert AllDigits(s[6..8]) by {
      assert forall k | 0 <= k < 2 :: s[6..8][k] == Pad4(d.year)[k];
    }
    PrefixMatch(s, ShortYear, d.month, d.day, DigitsValue(s[6..8]), 8);
  }

  /** Reading back the long-year rendering of any valid date gives that date. */
  lemma LongYearRoundTrip(d: Date)
    requires ValidDate(d)
    ensures Strptime(Render(d, LongYear), LongYear) == Some(d)
  {
    RenderMatches(d, LongYear);
  }

  /** Reading back the short-year rendering gives the date for every year
      that `%y` can name, 1969 to 2068. */
  lemma ShortYearRoundTrip(d: Date)
    requires ValidDate(d) && 1969 <= d.year <= 2068
    ensures Strptime(Render(d, ShortYear), ShortYear) == Some(d)
  {
    RenderMatches(d, ShortYear);
  }
}
