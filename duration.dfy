/** `parseTime` of scraper/scrape.js: converts an ISO 8601 duration in the designator
    format (ISO 8601:2004 section 4.4.3.2, as in `PT30M` or `PT2H`) to minutes. It reads
    only the text after the first two characters, and only its leading integer. */
module Duration {
  import opened Wrappers
  import opened JsString
  import opened JsonValue

  /** What `parseTime` returns: `null`, `NaN` (a unit letter with no number before it) or a
      number of minutes. */
  datatype TimeValue = Null | NaN | Mins(n: int)

  /** JavaScript truthiness of a time value: `null`, `NaN` and `0` are falsy. */
  predicate TruthyTime(t: TimeValue) {
    t.Mins? && t.n != 0
  }

  /** `parseTime(x) || 0`: the number of minutes, or 0 when the value is falsy. */
  function OrZero(t: TimeValue): (m: int)
    ensures m != 0 <==> TruthyTime(t)
    ensures TruthyTime(t) ==> m == t.n
  {
    if t.Mins? then t.n else 0
  }

  function FromParsed(p: Option<int>, factor: int): TimeValue {
    if p.Some? then Mins(p.value * factor) else NaN
  }

  /** `parseTime(time)`. A falsy value gives `null`. A truthy value that is not a string has
      no `substring` method, so the call throws. A string is cut after its first two
      characters; if the rest holds an `M` the result is its leading integer, otherwise if it
      holds an `H` the result is that integer times 60, otherwise `null`. */
  function ParseTime(time: Json): (r: Result<TimeValue>)
    ensures !Truthy(time) ==> r == Ok(Null)
    ensures r == Throws <==> Truthy(time) && !time.JStr?
  {
    if !Truthy(time) then Ok(Null)
    else if !time.JStr? then Throws
    else
      var s := SubstringFrom(time.s, 2);
      if IndexOfChar(s, 'M') > -1 then Ok(FromParsed(ParseInt(s), 1))
      else if IndexOfChar(s, 'H') > -1 then Ok(FromParsed(ParseInt(s), 60))
      else Ok(Null)
  }

  /** The branches on a non-empty string: `M` anywhere after the first two characters wins,
      then `H`, and with neither letter the result is `null`. */
  lemma TextDuration(time: string)
    requires time != []
    ensures var rest := SubstringFrom(time, 2);
      ParseTime(JStr(time)) ==
        if 'M' in rest then Ok(FromParsed(ParseInt(rest), 1))
        else if 'H' in rest then Ok(FromParsed(ParseInt(rest), 60))
        else Ok(Null)
  {
  }

  /** With neither an `M` nor an `H` after the first two characters, the result is `null`:
      a bare number such as `PT45` is not read. */
  lemma NoUnitIsNull(time: string)
    requires 'M' !in SubstringFrom(time, 2) && 'H' !in SubstringFrom(time, 2)
    ensures ParseTime(JStr(time)) == Ok(Null)
  {
    if time != [] {
      TextDuration(time);
    }
  }

  /** A minutes-only duration gives its number of minutes, whatever the two leading
      characters are. */
  lemma MinutesDuration(designator: string, m: nat)
    requires |designator| == 2
    ensures ParseTime(JStr(designator + Decimal(m) + "M")) == Ok(Mins(m))
  {
    var rest := Decimal(m) + "M";
    var s := designator + rest;
    assert designator + Decimal(m) + "M" == s;
    assert SubstringFrom(s, 2) == rest;
    assert rest[|rest| - 1] == 'M';
    ParseIntDecimal(m, "M");
    TextDuration(s);
  }

  /** An hours-only duration gives the number of hours times 60. */
  lemma HoursDuration(designator: string, h: nat)
    requires |designator| == 2
    ensures ParseTime(JStr(designator + Decimal(h) + "H")) == Ok(Mins(h * 60))
  {
    var rest := Decimal(h) + "H";
    var s := designator + rest;
    assert designator + Decimal(h) + "H" == s;
    assert SubstringFrom(s, 2) == rest;
    DecimalDenotes(h);
    assert 'M' !in rest by {
      forall k | 0 <= k < |rest| ensures rest[k] != 'M' {
        if k < |Decimal(h)| {
          assert rest[k] == Decimal(h)[k] && IsDigit(Decimal(h)[k], 10);
        }
      }
    }
    assert rest[|rest| - 1] == 'H';
    ParseIntDecimal(h, "H");
    TextDuration(s);
  }

  /** A duration with both hours and minutes gives the HOURS figure, unscaled: the `M` test
      comes first and `parseInt` stops at the `H`. */
  lemma HoursAndMinutesDuration(designator: string, h: nat, m: nat)
    requires |designator| == 2
    ensures ParseTime(JStr(designator + Decimal(h) + "H" + Decimal(m) + "M")) == Ok(Mins(h))
  {
    var tail := "H" + Decimal(m) + "M";
    var rest := Decimal(h) + tail;
    var s := designator + rest;
    assert designator + Decimal(h) + "H" + Decimal(m) + "M" == s;
    assert SubstringFrom(s, 2) == rest;
    assert rest[|rest| - 1] == 'M';
    ParseIntDecimal(h, tail);
    TextDuration(s);
  }

  /** The examples of the source's comment: `PT30M` is 30 minutes. */
  lemma ThirtyMinutes()
    ensures ParseTime(JStr("PT30M")) == Ok(Mins(30))
  {
    var s := "PT" + Decimal(30) + "M";
    assert s == "PT30M" by {
      assert Decimal(3) == ['3'];
      assert Decimal(30) == ['3', '0'];
    }
    assert ParseTime(JStr(s)) == Ok(Mins(30)) by { MinutesDuration("PT", 30); }
  }

  /** `PT2H` is 120 minutes. */
  lemma TwoHours()
    ensures ParseTime(JStr("PT2H")) == Ok(Mins(120))
  {
    var s := "PT" + Decimal(2) + "H";
    assert s == "PT2H" by { assert Decimal(2) == ['2']; }
    assert ParseTime(JStr(s)) == Ok(Mins(120)) by { HoursDuration("PT", 2); }
  }

  /** `PT1H15M` is read as 1 minute, not 75. */
  lemma OneHourFifteen()
    ensures ParseTime(JStr("PT1H15M")) == Ok(Mins(1))
  {
    var s := "PT" + Decimal(1) + "H" + Decimal(15) + "M";
    assert s == "PT1H15M" by {
      assert Decimal(1) == ['1'];
      assert Decimal(15) == ['1', '5'];
    }
    assert ParseTime(JStr(s)) == Ok(Mins(1)) by { HoursAndMinutesDuration("PT", 1, 15); }
  }
}
