/**
 * The manual fallback in `addTask` of public/assets/js/app.js that rewrites a
 * 12-hour time such as "1:05 PM" into the 24-hour "HH:mm:ss" form the
 * `due_time` column stores. The pattern is
 * `^(\d{1,2}):(\d{2})\s?(AM|PM)$` with the `i` flag.
 */
module DueTime {
  import opened Wrappers

  /** `\d` without the `u` flag: the ASCII digits only. */
  predicate IsDigit(c: char)
  {
    '0' <= c <= '9'
  }

  predicate AllDigits(s: string)
  {
    forall i :: 0 <= i < |s| ==> IsDigit(s[i])
  }

  /** `\s`: the ECMAScript WhiteSpace and LineTerminator code points. */
  predicate IsJsSpace(c: char)
  {
    || c in {'\t', '\n', '\U{000B}', '\U{000C}', '\r', ' ', '\U{00A0}', '\U{1680}'}
    || ('\U{2000}' <= c <= '\U{200A}')
    || c in {'\U{2028}', '\U{2029}', '\U{202F}', '\U{205F}', '\U{3000}', '\U{FEFF}'}
  }

  /** `(AM|PM)` under the `i` flag: only the ASCII letters fold onto A, M and P. */
  predicate IsMeridiem(ap: string)
  {
    |ap| == 2 && ap[0] in {'a', 'A', 'p', 'P'} && ap[1] in {'m', 'M'}
  }

  predicate IsPm(ap: string)
  {
    |ap| > 0 && ap[0] in {'p', 'P'}
  }

  /**
   * The strings the pattern accepts, with the text each part of the pattern
   * consumes: the hour group, the minute group, the optional blank and the
   * meridiem group.
   */
  ghost predicate Shape(s: string, hour: string, minutes: string, space: string, meridiem: string)
  {
    && s == hour + ":" + minutes + space + meridiem
    && 1 <= |hour| <= 2 && AllDigits(hour)
    && |minutes| == 2 && AllDigits(minutes)
    && (space == [] || (|space| == 1 && IsJsSpace(space[0])))
    && IsMeridiem(meridiem)
  }

  /** A successful match: the three capture groups, and the blank between minutes and meridiem. */
  datatype TimeMatch = TimeMatch(hour: string, minutes: string, space: string, meridiem: string)

  /**
   * `dueTime.match(...)`. The hour group ends at the first `:`, so the hour
   * has one digit when the second character is the colon and two otherwise;
   * after the colon come exactly four characters, or five with a blank in
   * the middle.
   */
  function MatchTime(s: string): (r: Option<TimeMatch>)
    ensures r.Some? ==> 1 <= |r.value.hour| <= 2 && AllDigits(r.value.hour)
    ensures r.Some? ==> |r.value.minutes| == 2 && IsMeridiem(r.value.meridiem)
  {
    var n := if |s| >= 2 && s[1] == ':' then 1 else 2;
    if |s| < n + 5 || s[n] != ':' || !AllDigits(s[..n]) then None
    else
      var rest := s[n + 1..];
      if (|rest| == 4 || (|rest| == 5 && IsJsSpace(rest[2])))
         && AllDigits(rest[..2]) && IsMeridiem(rest[|rest| - 2..])
      then Some(TimeMatch(s[..n], rest[..2], rest[2..|rest| - 2], rest[|rest| - 2..]))
      else None
  }

  /** Every match the function reports is one the pattern describes. */
  lemma MatchSound(s: string)
    requires MatchTime(s).Some?
    ensures var t := MatchTime(s).value; Shape(s, t.hour, t.minutes, t.space, t.meridiem)
  {
    var t := MatchTime(s).value;
    var n := |t.hour|;
    assert s == s[..n] + [s[n]] + s[n + 1..];
    var rest := s[n + 1..];
    assert rest == rest[..2] + rest[2..|rest| - 2] + rest[|rest| - 2..];
  }

  /** Every string the pattern describes is matched, with exactly those groups. */
  lemma MatchComplete(s: string, hour: string, minutes: string, space: string, meridiem: string)
    requires Shape(s, hour, minutes, space, meridiem)
    ensures MatchTime(s) == Some(TimeMatch(hour, minutes, space, meridiem))
  {
    var n := |hour|;
    var rest := minutes + space + meridiem;
    SplitAtColon(s, hour, rest);
    SplitRest(rest, minutes, space, meridiem);
    if n == 1 {
      assert s[1] == ':';
    } else {
      assert IsDigit(hour[1]) && s[1] == hour[1];
    }
    if space == [] {
      assert |rest| == 4;
    } else {
      assert |rest| == 5 && rest[2] == space[0] && IsJsSpace(rest[2]);
    }
    assert AllDigits(s[..n]) && AllDigits(rest[..2]) && IsMeridiem(rest[|rest| - 2..]);
  }

  /** The text before the colon is the hour, the text after it the rest. */
  lemma SplitAtColon(s: string, hour: string, rest: string)
    requires s == hour + ":" + rest
    ensures |s| == |hour| + 1 + |rest|
    ensures s[..|hour|] == hour && s[|hour|] == ':' && s[|hour| + 1..] == rest
    ensures forall k :: 0 <= k < |hour| ==> s[k] == hour[k]
  {
    assert s == (hour + ":") + rest;
  }

  /** After the colon: two minute characters, the optional blank, two meridiem characters. */
  lemma SplitRest(rest: string, minutes: string, space: string, meridiem: string)
    requires rest == minutes + space + meridiem && |minutes| == 2 && |meridiem| == 2
    ensures rest[..2] == minutes && rest[|rest| - 2..] == meridiem && rest[2..|rest| - 2] == space
  {
    assert rest == minutes + (space + meridiem);
  }

  function DigitValue(c: char): nat
    requires IsDigit(c)
  {
    c as int - '0' as int
  }

  function DigitChar(d: nat): (c: char)
    requires d < 10
    ensures IsDigit(c) && DigitValue(c) == d
  {
    ('0' as int + d) as char
  }

  function Pow10(k: nat): nat
  {
    if k == 0 then 1 else 10 * Pow10(k - 1)
  }

  /**
   * `parseInt(digits, 10)` on a string of decimal digits: a number below
   * 10 to the power of the length, whose last decimal digit is the last
   * character.
   */
  function DigitsValue(s: string): (v: nat)
    requires AllDigits(s)
    ensures v < Pow10(|s|)
    ensures s != [] ==> v % 10 == DigitValue(s[|s| - 1])
  {
    if s == [] then 0 else DigitsValue(s[..|s| - 1]) * 10 + DigitValue(s[|s| - 1])
  }

  /** `n.toString()`: the decimal digits of `n`, without leading zeros. */
  function Decimal(n: nat): (s: string)
    ensures AllDigits(s) && 1 <= |s|
    ensures s[0] == '0' ==> n == 0
    ensures n < 10 ==> |s| == 1
    ensures 10 <= n < 100 ==> |s| == 2
  {
    if n < 10 then [DigitChar(n)] else Decimal(n / 10) + [DigitChar(n % 10)]
  }

  /** Reading back the digits of a number gives the number. */
  lemma {:induction false} DecimalRoundTrip(n: nat)
    ensures DigitsValue(Decimal(n)) == n
  {
    var s := Decimal(n);
    if n < 10 {
      assert s[..0] == [];
    } else {
      assert s[..|s| - 1] == Decimal(n / 10);
      DecimalRoundTrip(n / 10);
    }
  }

  /** `.padStart(2, '0')` */
  function PadStart2(s: string): (r: string)
    ensures |s| >= 2 ==> r == s
    ensures |s| < 2 ==> |r| == 2 && r[2 - |s|..] == s && forall i :: 0 <= i < 2 - |s| ==> r[i] == '0'
  {
    if |s| >= 2 then s else seq(2 - |s|, _ => '0') + s
  }

  /** A leading zero does not change the value of a digit string. */
  lemma LeadingZero(s: string)
    requires AllDigits(s)
    ensures AllDigits(['0'] + s) && DigitsValue(['0'] + s) == DigitsValue(s)
  {
    if s != [] {
      assert (['0'] + s)[..|s|] == ['0'] + s[..|s| - 1];
      LeadingZero(s[..|s| - 1]);
    }
  }

  /** One or two digits read as a number below 100. */
  lemma TwoDigits(s: string)
    requires AllDigits(s) && 1 <= |s| <= 2
    ensures DigitsValue(s) < 100
    ensures |s| == 1 ==> DigitsValue(s) == DigitValue(s[0])
    ensures |s| == 2 ==> DigitsValue(s) == DigitValue(s[0]) * 10 + DigitValue(s[1])
  {
    assert s[..1][..0] == [];
    if |s| == 2 {
      assert DigitsValue(s[..1]) == DigitValue(s[0]);
    }
  }

  /** The hour adjustment: PM before noon adds 12, 12 AM becomes 0, any other hour is kept. */
  function To24(h: nat, pm: bool): (r: nat)
    ensures r % 12 == h % 12
    ensures h < 12 ==> (r < 12 <==> !pm)
    ensures h <= 12 ==> r < 24
    ensures h > 12 ==> r == h
  {
    if pm && h < 12 then h + 12
    else if !pm && h == 12 then 0
    else h
  }

  /**
   * On a 12-hour clock reading (hours 1 to 12) the adjustment is the usual
   * one: it lands in 0..23, before noon exactly for AM, and keeps the hour
   * modulo 12; so no two readings share a 24-hour hour.
   */
  lemma ClockTo24(h: nat, pm: bool)
    requires 1 <= h <= 12
    ensures To24(h, pm) < 24
    ensures To24(h, pm) < 12 <==> !pm
    ensures To24(h, pm) % 12 == h % 12
  {
  }

  lemma ClockTo24Injective(h: nat, pm: bool, h': nat, pm': bool)
    requires 1 <= h <= 12 && 1 <= h' <= 12
    ensures To24(h, pm) == To24(h', pm') <==> h == h' && pm == pm'
  {
    ClockTo24(h, pm);
    ClockTo24(h', pm');
  }

  /**
   * The fallback branch: a matching time becomes the two-digit adjusted hour,
   * the same minutes, and ":00"; anything else is returned unchanged.
   */
  function FallbackTime(s: string): (r: string)
    ensures MatchTime(s).None? ==> r == s
    ensures MatchTime(s).Some? ==>
      && |r| >= 8 && r[|r| - 3..] == ":00"
      && r[|r| - 5..|r| - 3] == MatchTime(s).value.minutes && r[|r| - 6] == ':'
  {
    match MatchTime(s)
    case None => s
    case Some(t) =>
      PadStart2(Decimal(To24(DigitsValue(t.hour), IsPm(t.meridiem)))) + ":" + t.minutes + ":00"
  }

  /**
   * What a matched time turns into: eight characters, the first two the
   * decimal digits of the adjusted hour, then a colon, the minutes as typed
   * and ":00".
   */
  lemma FallbackFormat(s: string)
    requires MatchTime(s).Some?
    ensures var t := MatchTime(s).value;
      var r := FallbackTime(s);
      && |r| == 8 && AllDigits(r[..2])
      && DigitsValue(r[..2]) == To24(DigitsValue(t.hour), IsPm(t.meridiem))
      && r[2..] == ":" + t.minutes + ":00"
  {
    var t := MatchTime(s).value;
    var h := DigitsValue(t.hour);
    TwoDigits(t.hour);
    var hour := To24(h, IsPm(t.meridiem));
    PaddedHour(hour);
    var padded := PadStart2(Decimal(hour));
    var r := FallbackTime(s);
    assert r == padded + (":" + t.minutes + ":00");
    assert r[..2] == padded;
  }

  /** An hour below 100, written in decimal and padded, is two digits that read back as the hour. */
  lemma PaddedHour(hour: nat)
    requires hour < 100
    ensures var padded := PadStart2(Decimal(hour));
      |padded| == 2 && AllDigits(padded) && DigitsValue(padded) == hour
  {
    var d := Decimal(hour);
    DecimalRoundTrip(hour);
    if |d| == 1 {
      LeadingZero(d);
      assert PadStart2(d) == ['0'] + d;
    }
  }

  /** The fallback changes its input exactly when the pattern matches. */
  lemma FallbackChanges(s: string)
    ensures FallbackTime(s) == s <==> MatchTime(s).None?
  {
    if MatchTime(s).Some? {
      MatchSound(s);
      FallbackFormat(s);
      var r := FallbackTime(s);
      assert r[|r| - 1] == '0';
      assert s[|s| - 1] in {'m', 'M'};
    }
  }

  /** The readings the fallback is meant for, and one it leaves alone. */
  lemma AfternoonMatch()
    ensures MatchTime("1:05 pm") == Some(TimeMatch("1", "05", " ", "pm"))
  {
    var s := "1:05 pm";
    assert s[1] == ':' && s[..1] == "1";
    var rest := s[2..];
    assert rest == "05 pm";
    assert rest[..2] == "05" && rest[2..3] == " " && rest[3..] == "pm";
  }

  lemma AfternoonExample()
    ensures FallbackTime("1:05 pm") == "13:05:00"
  {
    AfternoonMatch();
    TwoDigits("1");
    assert DigitsValue("1") == 1;
    assert IsPm("pm");
    assert To24(1, true) == 13;
    assert Decimal(13) == "13";
    assert PadStart2("13") == "13";
  }

  lemma MidnightMatch()
    ensures MatchTime("12:30AM") == Some(TimeMatch("12", "30", "", "AM"))
  {
    var s := "12:30AM";
    assert s[1] != ':' && s[2] == ':' && s[..2] == "12";
    var rest := s[3..];
    assert rest == "30AM";
    assert rest[..2] == "30" && rest[2..2] == "" && rest[2..] == "AM";
  }

  lemma MidnightExample()
    ensures FallbackTime("12:30AM") == "00:30:00"
  {
    MidnightMatch();
    TwoDigits("12");
    assert DigitsValue("12") == 12;
    assert !IsPm("AM");
    assert To24(12, false) == 0;
    assert Decimal(0) == "0";
    assert PadStart2("0") == "00";
  }

  lemma NoonMatch()
    ensures MatchTime("12:00 PM") == Some(TimeMatch("12", "00", " ", "PM"))
  {
    var s := "12:00 PM";
    assert s[1] != ':' && s[2] == ':' && s[..2] == "12";
    var rest := s[3..];
    assert rest == "00 PM";
    assert rest[..2] == "00" && rest[2..3] == " " && rest[3..] == "PM";
  }

  lemma NoonExample()
    ensures FallbackTime("12:00 PM") == "12:00:00"
  {
    NoonMatch();
    TwoDigits("12");
    assert DigitsValue("12") == 12;
    assert IsPm("PM");
    assert To24(12, true) == 12;
    assert Decimal(12) == "12";
    assert PadStart2("12") == "12";
  }

  /** An hour past 12 with PM is kept as it is. */
  lemma LateHourMatch()
    ensures MatchTime("13:05 PM") == Some(TimeMatch("13", "05", " ", "PM"))
  {
    var s := "13:05 PM";
    assert s[1] != ':' && s[2] == ':' && s[..2] == "13";
    var rest := s[3..];
    assert rest == "05 PM";
    assert rest[..2] == "05" && rest[2..3] == " " && rest[3..] == "PM";
  }

  lemma LateHourExample()
    ensures FallbackTime("13:05 PM") == "13:05:00"
  {
    LateHourMatch();
    TwoDigits("13");
    assert DigitsValue("13") == 13;
    assert IsPm("PM");
    assert To24(13, true) == 13;
    assert Decimal(13) == "13";
    assert PadStart2("13") == "13";
  }

  /** One minute digit does not match, so the text is kept. */
  lemma ShortMinutesExample()
    ensures FallbackTime("7:5 PM") == "7:5 PM"
  {
    var s := "7:5 PM";
    assert |s| == 6 && s[1] == ':';
    assert s[2..][..2][1] == ' ';
    assert !AllDigits(s[2..][..2]);
    assert MatchTime(s).None?;
  }

  /**
   * The `dueTime` that `addTask` stores: empty stays empty; otherwise the
   * `Date`-based reading when that branch accepted the text, else the
   * fallback.
   */
  function NormalizedTime(dueTime: string, viaDate: Option<string>): (r: string)
    ensures dueTime == [] ==> r == []
    ensures dueTime != [] && viaDate.Some? ==> r == viaDate.value
    ensures dueTime != [] && viaDate.None? ==> (r == dueTime <==> MatchTime(dueTime).None?)
  {
    FallbackChanges(dueTime);
    if dueTime == [] then dueTime
    else if viaDate.Some? then viaDate.value
    else FallbackTime(dueTime)
  }
}
