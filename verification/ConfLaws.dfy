/**
 How a line of .config looks, and which numbers are accepted from one.
 */
module ConfLaws {
  import opened Expr
  import opened Numerals
  import opened ConfData
  import opened ConfFile

  /** The lines, letter by letter; text without quotes and backslashes stands as it is. */
  lemma WrittenText(e: Entry)
    ensures e.ty == Boolean || e.ty == Tristate ==>
              DotConfigLine(e) == Some(
                if e.value.tri == NO then "# CONFIG_" + e.name + " is not set"
                else "CONFIG_" + e.name + (if e.value.tri == MOD then "=m" else "=y"))
    ensures e.ty == Int || e.ty == Hex ==> DotConfigLine(e) == Some("CONFIG_" + e.name + "=" + e.value.val)
    ensures e.ty == Str && (forall i :: 0 <= i < |e.value.val| ==> e.value.val[i] != '"' && e.value.val[i] != '\\') ==>
              DotConfigLine(e) == Some("CONFIG_" + e.name + "=\"" + e.value.val + "\"")
    ensures e.ty == Unknown ==> DotConfigLine(e) == None
  {
    var n := e.name;
    match e.ty
    case Unknown =>
    case Int =>
    case Hex =>
    case Str =>
      if forall i :: 0 <= i < |e.value.val| ==> e.value.val[i] != '"' && e.value.val[i] != '\\' {
        PlainEscaped(e.value.val);
        assert "CONFIG_" + n + "=" + ("\"" + e.value.val + "\"") == "CONFIG_" + n + "=\"" + e.value.val + "\"";
      }
    case _ =>
      assert "# " + "CONFIG_" + n + " " + "is not set" == "# CONFIG_" + n + " is not set" by {
        assert "# " + "CONFIG_" == "# CONFIG_" && " " + "is not set" == " is not set";
      }
      assert "CONFIG_" + n + "=" + "m" == "CONFIG_" + n + "=m" && "CONFIG_" + n + "=" + "y" == "CONFIG_" + n + "=y";
  }

  lemma {:induction false} PlainEscaped(s: string)
    requires forall i :: 0 <= i < |s| ==> s[i] != '"' && s[i] != '\\'
    ensures Escaped(s) == s
  {
    if s != "" {
      PlainEscaped(s[1..]);
      assert s == [s[0]] + s[1..];
    }
  }

  // ----- numbers -----

  lemma {:induction false} MagnitudeLast(s: string, acc: nat, c: char)
    requires IsDigit(c) && Magnitude(s, 10, acc) >= 0
    ensures Magnitude(s + [c], 10, acc) == Magnitude(s, 10, acc) * 10 + DigitValue(c)
    decreases |s|
  {
    if s == "" {
      assert (s + [c])[1..] == "";
    } else {
      assert (s + [c])[1..] == s[1..] + [c];
      MagnitudeLast(s[1..], acc * 10 + DigitValue(s[0]), c);
    }
  }

  /** Digits without a leading zero are the numeral of their number. */
  lemma {:induction false} DigitsAreDecimal(s: string)
    requires s != "" && AllDigits(s) && (s[0] == '0' ==> |s| == 1)
    ensures Magnitude(s, 10, 0) >= 0 && Decimal(Magnitude(s, 10, 0)) == s
    ensures s[0] != '0' ==> Magnitude(s, 10, 0) > 0
    decreases |s|
  {
    hide Magnitude, Numeral;
    var before, c := s[..|s| - 1], s[|s| - 1];
    var d := DigitValue(c);
    assert s == before + [c] && 0 <= d < 10 && DigitChar(d) == c;
    if before == "" {
      OneDigit(c);
    } else {
      DigitsAreDecimal(before);
      var m := Magnitude(before, 10, 0);
      MagnitudeLast(before, 0, c);
      NumeralIs(m * 10 + d, 10);
    }
  }

  lemma OneDigit(c: char)
    requires IsDigit(c)
    ensures Magnitude([c], 10, 0) == DigitValue(c) && Decimal(DigitValue(c)) == [c]
  {
    assert [c][1..] == "";
  }

  lemma {:induction false} NumeralHead(n: nat)
    requires n > 0
    ensures Decimal(n)[0] != '0'
    decreases n
  {
    hide Numeral;
    NumeralIs(n, 10);
    if n >= 10 {
      NumeralHead(n / 10);
    }
  }

  /** A text is accepted for an int symbol exactly when it is the decimal form of a number, or `-0`. */
  lemma IntValidExact(s: string)
    ensures StringValid(Int, s) <==> s == "-0" || exists n: int :: s == IntText(n)
  {
    hide Magnitude, Numeral;
    if StringValid(Int, s) && s != "-0" {
      var t := if s[0] == '-' then s[1..] else s;
      DigitsAreDecimal(t);
      var n := Magnitude(t, 10, 0);
      assert s == IntText(if s[0] == '-' then -n else n) by {
        if s[0] == '-' {
          assert s == "-" + t;
          assert t[0] == '0' ==> t == "0";
        }
      }
    }
    if n: int :| s == IntText(n) {
      IntTextValid(n);
    }
  }

  lemma IntTextValid(n: int)
    ensures StringValid(Int, IntText(n))
  {
    hide Numeral;
    var m := if n < 0 then -n else n;
    if m > 0 {
      NumeralHead(m);
    } else {
      OneDigit('0');
    }
    if n < 0 {
      assert IntText(n)[1..] == Decimal(m);
    }
  }
}
