/** The clock text of the player: `_fmt_time` turns a time into "MM:SS",
    with the minutes and the seconds each written with at least two digits.
    Times are integer milliseconds here. */
module TimeFormat {
  import opened Wrappers

  /** `max(0, int(seconds))` for a time of `ms` milliseconds: int() drops the
      fraction towards zero, and max(0, ...) turns every negative time into 0. */
  function WholeSeconds(ms: int): (s: nat)
    ensures ms >= 0 ==> s * 1000 <= ms < s * 1000 + 1000
    ensures ms < 1000 ==> s == 0
  {
    if ms <= 0 then 0 else ms / 1000
  }

  predicate IsDigit(c: char)
  {
    '0' <= c <= '9'
  }

  predicate AllDigits(s: string)
  {
    forall i :: 0 <= i < |s| ==> IsDigit(s[i])
  }

  function Digit(d: nat): (c: char)
    requires d < 10
    ensures IsDigit(c)
  {
    ('0' as int + d) as char
  }

  function DigitValue(c: char): (d: nat)
    requires IsDigit(c)
    ensures d < 10
  {
    c as int - '0' as int
  }

  /** `str(n)` for a natural number: its decimal digits, with no leading zero. */
  function Decimal(n: nat): (r: string)
    ensures 1 <= |r| && AllDigits(r)
    ensures n < 10 <==> |r| == 1
    ensures n >= 10 ==> r[0] != '0'
  {
    if n < 10 then [Digit(n)] else Decimal(n / 10) + [Digit(n % 10)]
  }

  /** The `:02d` format: the decimal digits, padded with a zero to two places. */
  function TwoDigits(n: nat): (r: string)
    ensures 2 <= |r| && AllDigits(r)
    ensures n < 100 <==> |r| == 2
    ensures |r| > 2 ==> r[0] != '0'
  {
    if n < 10 then ['0', Digit(n)] else Decimal(n)
  }

  /** `_fmt_time`: whole minutes, a colon, and the seconds within the minute. */
  function FmtTime(ms: int): (r: string)
    ensures 5 <= |r| && r[|r| - 3] == ':'
    ensures AllDigits(r[..|r| - 3]) && AllDigits(r[|r| - 2..])
    ensures WholeSeconds(ms) < 6000 <==> |r| == 5
    ensures |r| > 5 ==> r[0] != '0'
    ensures ParseDecimal(r[|r| - 2..]) < 60
  {
    var s := WholeSeconds(ms);
    var sec := TwoDigits(s % 60);
    ParseTwoDigits(s % 60);
    assert (TwoDigits(s / 60) + ":" + sec)[|sec| + |TwoDigits(s / 60)| + 1 - 2..] == sec;
    TwoDigits(s / 60) + ":" + sec
  }

  /** Reading a string of decimal digits back into a number. */
  function ParseDecimal(s: string): nat
    requires AllDigits(s)
  {
    if s == [] then 0 else ParseDecimal(s[..|s| - 1]) * 10 + DigitValue(s[|s| - 1])
  }

  /** Reading a clock text back into seconds: digits, a colon, two digits. */
  function ParseClock(s: string): (r: Option<nat>)
    ensures r.Some? <==> 4 <= |s| && s[|s| - 3] == ':' && AllDigits(s[..|s| - 3]) && AllDigits(s[|s| - 2..])
  {
    if 4 <= |s| && s[|s| - 3] == ':' && AllDigits(s[..|s| - 3]) && AllDigits(s[|s| - 2..])
    then Some(ParseDecimal(s[..|s| - 3]) * 60 + ParseDecimal(s[|s| - 2..]))
    else None
  }

  lemma {:induction false} ParseDecimalOfDecimal(n: nat)
    ensures ParseDecimal(Decimal(n)) == n
    decreases n
  {
    if n >= 10 {
      var r := Decimal(n);
      assert r[..|r| - 1] == Decimal(n / 10);
      ParseDecimalOfDecimal(n / 10);
    }
  }

  lemma ParseTwoDigits(n: nat)
    ensures ParseDecimal(TwoDigits(n)) == n
  {
    if n < 10 {
      var r := TwoDigits(n);
      assert r[..1] == ['0'];
      assert ParseDecimal(r[..1]) == 0 by {
        assert r[..1][..0] == [];
      }
    } else {
      ParseDecimalOfDecimal(n);
    }
  }

  /** The clock text reads back as the whole seconds it was made from: no two
      times with different whole seconds are shown alike. */
  lemma FmtTimeRoundTrip(ms: int)
    ensures ParseClock(FmtTime(ms)) == Some(WholeSeconds(ms))
  {
    var s := WholeSeconds(ms);
    var m, sec := TwoDigits(s / 60), TwoDigits(s % 60);
    var r := FmtTime(ms);
    assert r == m + ":" + sec;
    assert r[..|r| - 3] == m;
    assert r[|r| - 2..] == sec;
    ParseTwoDigits(s / 60);
    ParseTwoDigits(s % 60);
  }

  /** Worked cases: 59.999 s is still 00:59, a negative time shows as 00:00,
      and a 100-minute time keeps all three digits of its minutes. */
  lemma FmtTimeExampleUnderMinute()
    ensures FmtTime(59999) == "00:59"
  {
    assert WholeSeconds(59999) == 59;
    assert TwoDigits(0) == "00" && TwoDigits(59) == "59";
  }

  lemma FmtTimeExampleNegative()
    ensures FmtTime(-5000) == "00:00"
  {
    assert TwoDigits(0) == "00";
  }

  lemma FmtTimeExampleHundredMinutes()
    ensures FmtTime(6000000) == "100:00"
  {
    assert WholeSeconds(6000000) == 6000;
    assert Decimal(100) == Decimal(10) + ['0'] == "100";
    assert TwoDigits(0) == "00";
  }
}
