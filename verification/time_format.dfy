/** The countdown formatter shared by the check-in timer and the action screen
    (`formatTime` in frontend/src/components/CheckinTimer.jsx and in
    frontend/src/components/ActionScreen.jsx): whole minutes, a colon, and the
    seconds padded to two digits. */
module TimeFormat {
  import opened Common
  import opened Text

  /** JavaScript's `secs % 60`: the remainder takes the sign of the dividend, so it
      is what is left after truncating the quotient toward zero. */
  function Seconds(secs: int): (r: int)
    ensures secs >= 0 ==> 0 <= r < 60 && secs == 60 * (secs / 60) + r
    ensures secs < 0 ==> -60 < r <= 0 && secs == -60 * ((-secs) / 60) + r
  {
    if secs >= 0 then secs % 60 else -((-secs) % 60)
  }

  /** `Math.floor(secs / 60)`: Dafny's division floors for a positive divisor. */
  function Minutes(secs: int): (m: int)
    ensures m * 60 <= secs < m * 60 + 60
  {
    secs / 60
  }

  function FormatTime(secs: int): string
  {
    IntToString(Minutes(secs)) + ":" + PadStart(IntToString(Seconds(secs)), 2, '0')
  }

  /** Reads an `m:ss` string back into seconds. */
  function ParseTime(t: string): (r: Option<int>)
    ensures r.Some? ==> r.value >= 0
  {
    if |t| >= 4 && t[|t| - 3] == ':' && AllDigits(t[..|t| - 3]) && AllDigits(t[|t| - 2..]) then
      Some(ParseDigits(t[..|t| - 3]) * 60 + ParseDigits(t[|t| - 2..]))
    else None
  }

  /** A number below 100, printed and padded to two places, reads back as itself. */
  lemma TwoDigits(x: nat)
    requires x < 100
    ensures var s := PadStart(NatToString(x), 2, '0');
      |s| == 2 && AllDigits(s) && ParseDigits(s) == x
  {
    var p := NatToString(x);
    ParseNatToString(x);
    if x < 10 {
      assert |p| == 1;
      var s := PadStart(p, 2, '0');
      assert s == PadStart(['0'] + p, 2, '0');
      assert s == ['0'] + p;
      PadZero(p);
    } else {
      assert |NatToString(x / 10)| == 1;
      assert |p| == 2;
    }
  }

  /** A leading zero does not change the value of a digit string. */
  lemma {:induction false} PadZero(p: string)
    requires AllDigits(p)
    ensures AllDigits(['0'] + p) && ParseDigits(['0'] + p) == ParseDigits(p)
    decreases |p|
  {
    var q := ['0'] + p;
    if p == [] {
      assert q[..0] == [];
    } else {
      assert q[..|q| - 1] == ['0'] + p[..|p| - 1];
      PadZero(p[..|p| - 1]);
    }
  }

  /** For a non-negative count the text is the minutes, a colon and exactly two
      digits of seconds below 60, and the fields recombine into the count. */
  lemma FormatTimeFields(secs: int)
    requires secs >= 0
    ensures var t := FormatTime(secs);
      && |t| >= 4 && t[|t| - 3] == ':'
      && AllDigits(t[..|t| - 3]) && AllDigits(t[|t| - 2..])
      && ParseDigits(t[..|t| - 3]) == secs / 60
      && ParseDigits(t[|t| - 2..]) == secs % 60 < 60
      && ParseDigits(t[..|t| - 3]) * 60 + ParseDigits(t[|t| - 2..]) == secs
  {
    var mins, rest := secs / 60, secs % 60;
    assert Minutes(secs) == mins && Seconds(secs) == rest;
    var m := NatToString(mins);
    var s := PadStart(NatToString(rest), 2, '0');
    TwoDigits(rest);
    ParseNatToString(mins);
    assert IntToString(mins) == m && IntToString(rest) == NatToString(rest);
    var t := FormatTime(secs);
    assert t == m + ":" + s;
    assert |t| == |m| + 3;
    assert t[..|t| - 3] == m;
    assert t[|t| - 2..] == s;
  }

  /** Parsing undoes formatting on every non-negative count. */
  lemma ParseFormatTime(secs: int)
    requires secs >= 0
    ensures ParseTime(FormatTime(secs)) == Some(secs)
  {
    FormatTimeFields(secs);
  }

  /** Distinct non-negative counts are shown differently. */
  lemma FormatTimeInjective(a: int, b: int)
    requires a >= 0 && b >= 0 && FormatTime(a) == FormatTime(b)
    ensures a == b
  {
    ParseFormatTime(a);
    ParseFormatTime(b);
  }

  /** The action screen's initial five minutes and a count just under a minute. */
  lemma FiveMinutesShown()
    ensures FormatTime(300) == "5:00"
    ensures FormatTime(59) == "0:59"
  {
    assert Minutes(300) == 5 && Seconds(300) == 0;
    assert IntToString(5) == [DigitChar(5)] == "5";
    assert IntToString(0) == [DigitChar(0)] == "0";
    assert PadStart("0", 2, '0') == PadStart("00", 2, '0') == "00";
    assert Minutes(59) == 0 && Seconds(59) == 59;
    assert IntToString(59) == NatToString(5) + [DigitChar(9)] == "59";
  }

  /** With a negative count the truncating remainder shows through. */
  lemma FormatTimeNegative()
    ensures FormatTime(-1) == "-1:-1"
  {
    assert NatToString(1) == "1";
  }
}
