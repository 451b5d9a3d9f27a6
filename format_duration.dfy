/**
 * formatDuration: a render time in milliseconds as minutes, seconds and
 * hundredths, `[-]MM:SS:cc`.
 */
module FormatDuration {
  import opened Text

  function Abs(ms: int): nat { if ms < 0 then -ms else ms }

  /** `to_string` with one leading "0" below ten. */
  function Pad10(n: nat): (s: string)
    ensures AllDecimal(s)
    ensures |s| >= 2 && (n < 100 ==> |s| == 2)
  {
    if n < 10 then "0" + NatToString(n) else NatToString(n)
  }

  /** The padded field reads back as the number. */
  lemma Pad10Value(n: nat)
    ensures ParseDecimal(Pad10(n)) == n
  {
    DecimalRoundTrip(n);
    LeadingZero(NatToString(n));
  }

  /** The hundredths field as written: a leading "0" only below 10 ms. */
  function CentisAsWritten(rem: nat): string
  {
    (if rem < 10 then "0" else "") + NatToString(rem / 10)
  }

  /** The text formatDuration builds, field by field. */
  function DurationText(ms: int): string
  {
    var a := Abs(ms);
    (if ms < 0 then "-" else "") + Pad10(a / 60000) + ":" + Pad10(a % 60000 / 1000) + ":" + CentisAsWritten(a % 1000)
  }

  /** Subtracting the whole minutes leaves a % 60000; the whole seconds then leave a % 1000. */
  lemma Remainders(a: nat)
    ensures a - a / 60000 * 60000 == a % 60000
    ensures a % 60000 - a % 60000 / 1000 * 1000 == a % 1000
  {
    var q := a / 60000;
    var r := a % 60000;
    assert a == q * 60000 + r;
    assert a == (q * 60 + r / 1000) * 1000 + r % 1000;
  }

  /** `if (x < 10) ss << "0"; ss << to_string(x)`. */
  method AppendPad10(s0: string, n: nat) returns (s: string)
    ensures s == s0 + Pad10(n)
  {
    s := s0;
    if n < 10 {
      s := s + "0";
    }
    s := s + NatToString(n);
  }

  /** `if (millisecs < 10ms) ss << "0"; ss << to_string(millisecs / 1ms / 10)`. */
  method AppendCentis(s0: string, rem: nat) returns (s: string)
    ensures s == s0 + CentisAsWritten(rem)
  {
    s := s0;
    if rem < 10 {
      s := s + "0";
    }
    s := s + NatToString(rem / 10);
    assert s == s0 + CentisAsWritten(rem);
  }

  /** The appends to the stream, from the sign and the three fields. */
  method AppendFields(neg: bool, m: nat, sec: nat, rem: nat) returns (s: string)
    ensures s == (if neg then "-" else "") + Pad10(m) + ":" + Pad10(sec) + ":" + CentisAsWritten(rem)
  {
    s := "";
    if neg {
      s := s + "-";
      assert s == "-";
    }
    s := AppendPad10(s, m);
    s := s + ":";
    s := AppendPad10(s, sec);
    s := s + ":";
    s := AppendCentis(s, rem);
  }

  /**
   * formatDuration: takes the sign off, then subtracts the whole minutes
   * and the whole seconds before appending the fields.
   */
  method FormatDurationText(millisecs: int) returns (s: string)
    ensures s == DurationText(millisecs)
  {
    var ms := millisecs;
    var neg := ms < 0;
    if neg {
      ms := -ms;
    }
    Remainders(ms);
    var m := ms / 60000;
    ms := ms - m * 60000;
    var sec := ms / 1000;
    ms := ms - sec * 1000;
    ghost var a := Abs(millisecs);
    assert m == a / 60000 && sec == a % 60000 / 1000 && ms == a % 1000;
    s := AppendFields(neg, m, sec, ms);
  }

  /** The fields of the text: sign, minutes, seconds and hundredths, read back from the pieces. */
  lemma DurationFields(ms: int)
    ensures var a := Abs(ms);
      var mm, ss, cc := Pad10(a / 60000), Pad10(a % 60000 / 1000), CentisAsWritten(a % 1000);
      && DurationText(ms) == (if ms < 0 then "-" else "") + mm + ":" + ss + ":" + cc
      && AllDecimal(mm) && |mm| >= 2 && ParseDecimal(mm) == a / 60000
      && AllDecimal(ss) && |ss| == 2 && ParseDecimal(ss) == a % 60000 / 1000
      && AllDecimal(cc) && ParseDecimal(cc) == a % 1000 / 10
  {
    var rem := Abs(ms) % 1000;
    Pad10Value(Abs(ms) / 60000);
    Pad10Value(Abs(ms) % 60000 / 1000);
    DecimalRoundTrip(rem / 10);
    if rem < 10 {
      LeadingZero(NatToString(rem / 10));
    }
  }

  /** The text starts with "-" exactly for a negative duration. */
  lemma DurationSign(ms: int)
    ensures |DurationText(ms)| > 0 && (DurationText(ms)[0] == '-' <==> ms < 0)
  {
    var a := Abs(ms);
    assert Pad10(a / 60000)[0] != '-' by {
      assert IsDecimalDigit(Pad10(a / 60000)[0]);
    }
  }

  /** A hundred minutes or more take three or more digits: the minutes field is not capped. */
  lemma MinutesUncapped(ms: int)
    requires Abs(ms) >= 100 * 60000
    ensures |Pad10(Abs(ms) / 60000)| >= 3
  {
    var n := Abs(ms) / 60000;
    assert NatToString(n) == NatToString(n / 10) + [DigitChar(n % 10)];
  }

  /** There are exactly two ':' separators. */
  lemma DurationColons(ms: int)
    ensures CountChar(DurationText(ms), ':') == 2
  {
    DurationFields(ms);
    var a := Abs(ms);
    var sign := if ms < 0 then "-" else "";
    var mm, ss, cc := Pad10(a / 60000), Pad10(a % 60000 / 1000), CentisAsWritten(a % 1000);
    CountCharDigits(mm);
    CountCharDigits(ss);
    CountCharDigits(cc);
    assert CountChar(sign, ':') == 0;
    CountCharConcat(sign, mm, ':');
    CountCharConcat(sign + mm, ":", ':');
    CountCharConcat(sign + mm + ":", ss, ':');
    CountCharConcat(sign + mm + ":" + ss, ":", ':');
    CountCharConcat(sign + mm + ":" + ss + ":", cc, ':');
  }

  /**
   * As written, 10 to 99 ms past the second print a single digit: 1050 ms
   * gives "00:01:5", which reads as fifty hundredths.
   */
  lemma CentisOneDigit()
    ensures DurationText(1050) == "00:01:5"
    ensures forall rem: nat :: 10 <= rem < 100 ==> |CentisAsWritten(rem)| == 1
  {
    assert Pad10(0) == "00";
    assert Pad10(1) == "01";
    assert CentisAsWritten(50) == "5";
  }

  /** The hundredths field as intended: always two digits. */
  function CentisFixed(rem: nat): string
  {
    (if rem < 100 then "0" else "") + NatToString(rem / 10)
  }

  function DurationTextFixed(ms: int): string
  {
    var a := Abs(ms);
    (if ms < 0 then "-" else "") + Pad10(a / 60000) + ":" + Pad10(a % 60000 / 1000) + ":" + CentisFixed(a % 1000)
  }

  /** With the intended padding the hundredths field is two digits holding the hundredths. */
  lemma CentisFixedField(ms: int)
    ensures var cc := CentisFixed(Abs(ms) % 1000);
      && DurationTextFixed(ms) == (if ms < 0 then "-" else "") + Pad10(Abs(ms) / 60000) + ":" + Pad10(Abs(ms) % 60000 / 1000) + ":" + cc
      && AllDecimal(cc) && |cc| == 2 && ParseDecimal(cc) == Abs(ms) % 1000 / 10
      && |DurationTextFixed(ms)| == |DurationText(ms)| + (if 10 <= Abs(ms) % 1000 < 100 then 1 else 0)
  {
    var rem := Abs(ms) % 1000;
    DecimalRoundTrip(rem / 10);
    if rem < 100 {
      LeadingZero(NatToString(rem / 10));
    }
  }
}
