/**
  Decimal rendering of problem numbers: Python's f"{n:04d}" (used for folder
  names) and JavaScript's String(n).padStart(4, "0") (used in the page header).
*/
module Numbers {

  predicate IsDigit(c: char) { '0' <= c <= '9' }

  predicate AllDigits(s: string) { forall i :: 0 <= i < |s| ==> IsDigit(s[i]) }

  function DigitChar(d: nat): (c: char)
    requires d < 10
    ensures IsDigit(c) && c as int - '0' as int == d
  {
    ('0' as int + d) as char
  }

  /** The shortest decimal rendering of n, as str(n) prints it. */
  function Digits(n: nat): (s: string)
    ensures |s| >= 1 && AllDigits(s)
  {
    if n < 10 then [DigitChar(n)] else Digits(n / 10) + [DigitChar(n % 10)]
  }

  /** The number a string of decimal digits denotes (leading zeros allowed). */
  function DecimalValue(s: string): nat
    requires AllDigits(s)
  {
    if s == [] then 0 else DecimalValue(s[..|s| - 1]) * 10 + (s[|s| - 1] as int - '0' as int)
  }

  lemma {:induction false} DecimalValueOfDigits(n: nat)
    ensures DecimalValue(Digits(n)) == n
  {
    if n >= 10 {
      var s := Digits(n);
      assert s[..|s| - 1] == Digits(n / 10);
      DecimalValueOfDigits(n / 10);
    }
  }

  /** A run of k zeros. */
  function Zeros(k: nat): (z: string)
    ensures |z| == k && AllDigits(z)
    ensures forall i :: 0 <= i < k ==> z[i] == '0'
  {
    seq(k, i => '0')
  }

  lemma {:induction false} LeadingZerosKeepValue(k: nat, s: string)
    requires AllDigits(s)
    ensures AllDigits(Zeros(k) + s) && DecimalValue(Zeros(k) + s) == DecimalValue(s)
    decreases |s|, k
  {
    var z := Zeros(k) + s;
    if s == [] {
      assert z == Zeros(k);
      if k > 0 {
        assert z[..k - 1] == Zeros(k - 1);
        LeadingZerosKeepValue(k - 1, []);
        assert Zeros(k - 1) + [] == Zeros(k - 1);
      }
    } else {
      assert z[..|z| - 1] == Zeros(k) + s[..|s| - 1];
      LeadingZerosKeepValue(k, s[..|s| - 1]);
    }
  }

  /** Left-pad s with '0' to at least width characters. */
  function ZeroPad(s: string, width: nat): (r: string)
    ensures |r| == if |s| < width then width else |s|
    ensures r == Zeros(|r| - |s|) + s
  {
    if |s| < width then Zeros(width - |s|) + s else s
  }

  /** Python's f"{n:04d}": the sign counts toward the width of four. */
  function PyFormat04(n: int): string
  {
    if n < 0 then "-" + ZeroPad(Digits(-n), 3) else ZeroPad(Digits(n), 4)
  }

  /** For a non-negative number, f"{n:04d}" is all digits, at least four of
      them, never truncated, and denotes n. */
  lemma PyFormat04Denotes(n: nat)
    ensures var r := PyFormat04(n);
      AllDigits(r) && |r| == (if |Digits(n)| < 4 then 4 else |Digits(n)|) && DecimalValue(r) == n
  {
    var d := Digits(n);
    LeadingZerosKeepValue(|PyFormat04(n)| - |d|, d);
    DecimalValueOfDigits(n);
  }

  /** Zero padding keeps the digits and the value they denote. */
  lemma ZeroPadValue(s: string, width: nat)
    requires AllDigits(s)
    ensures AllDigits(ZeroPad(s, width)) && DecimalValue(ZeroPad(s, width)) == DecimalValue(s)
  {
    LeadingZerosKeepValue(|ZeroPad(s, width)| - |s|, s);
  }

  /** n's digits, zero-padded to any width, denote n. */
  lemma PaddedDigitsValue(n: nat, width: nat)
    ensures var z := ZeroPad(Digits(n), width); AllDigits(z) && DecimalValue(z) == n
  {
    ZeroPadValue(Digits(n), width);
    DecimalValueOfDigits(n);
  }

  /** For a negative number, f"{n:04d}" is a minus sign followed by digits
      that denote -n. */
  lemma PyFormat04Negative(n: int)
    requires n < 0
    ensures var z := ZeroPad(Digits(-n), 3);
      PyFormat04(n) == "-" + z && PyFormat04(n)[0] == '-' && AllDigits(z) && DecimalValue(z) == -n
  {
    PaddedDigitsValue(-n, 3);
  }

  /** Distinct problem numbers get distinct f"{n:04d}" renderings. */
  lemma PyFormat04Injective(n: int, m: int)
    requires PyFormat04(n) == PyFormat04(m)
    ensures n == m
  {
    if n >= 0 && m >= 0 {
      PyFormat04Denotes(n);
      PyFormat04Denotes(m);
    } else if n < 0 && m < 0 {
      PyFormat04Negative(n);
      PyFormat04Negative(m);
      var zn, zm := ZeroPad(Digits(-n), 3), ZeroPad(Digits(-m), 3);
      assert zn == ("-" + zn)[1..] == ("-" + zm)[1..] == zm;
    } else {
      var (k, j) := if n >= 0 then (n, m) else (m, n);
      PyFormat04Denotes(k);
      PyFormat04Negative(j);
      assert false;
    }
  }

  /** JavaScript's String(n) for an integer n. */
  function JsString(n: int): string
  {
    if n < 0 then "-" + Digits(-n) else Digits(n)
  }

  /** JavaScript's String(n).padStart(4, "0"). */
  function JsPadStart4(n: int): string
  {
    ZeroPad(JsString(n), 4)
  }

  /** The header's number badge and the folder-name prefix agree on every
      non-negative problem number; for a negative one they differ ("00-5"
      against "-005"). */
  lemma PadStartAgreesWithFormat04(n: int)
    ensures n >= 0 ==> JsPadStart4(n) == PyFormat04(n)
    ensures n == -5 ==> JsPadStart4(n) == "00-5" && PyFormat04(n) == "-005"
  {
    if n == -5 {
      assert Digits(5) == "5";
      assert Zeros(2) == "00";
    }
  }

  /** A string of decimal digits holds no underscore. */
  lemma NoUnderscoreInDigits(s: string)
    requires AllDigits(s)
    ensures '_' !in s
  {
    forall i | 0 <= i < |s| ensures s[i] != '_' {
      assert IsDigit(s[i]);
    }
  }

  /** f"{n:04d}" never holds an underscore, so it cannot run into the "_"
      that separates number and slug in a folder name. */
  lemma NoUnderscoreInFormat04(n: int)
    ensures '_' !in PyFormat04(n)
  {
    if n >= 0 {
      PyFormat04Denotes(n);
      NoUnderscoreInDigits(PyFormat04(n));
    } else {
      PyFormat04Negative(n);
      var z := ZeroPad(Digits(-n), 3);
      NoUnderscoreInDigits(z);
      var r := "-" + z;
      forall i | 0 <= i < |r| ensures r[i] != '_' {
        if i > 0 {
          assert r[i] == z[i - 1];
        }
      }
    }
  }
}
