/** The C text routines the configuration readers and the CSV writer use:
    `isspace`, `atoi`/`%d`, `atof`/`%f` (decimal notation only), the
    `%[^=]=%s`, `%s %d` and `%d,%d` scans, and `%d` printing.

    Strings are `seq<char>`; a line is what `fgets` returned, including its
    trailing newline when there is one. */
module CScan {
  import opened CLib

  /** `isspace` in the C locale: blank, tab, newline, vertical tab, form feed, carriage return. */
  predicate IsSpace(c: char) { c == ' ' || '\t' <= c <= '\r' }

  predicate IsDigit(c: char) { '0' <= c <= '9' }

  predicate AllDigits(s: string) { forall i :: 0 <= i < |s| ==> IsDigit(s[i]) }

  function DigitValue(c: char): nat
    requires IsDigit(c)
  {
    (c as int) - ('0' as int)
  }

  function DigitChar(d: nat): (c: char)
    requires d < 10
    ensures IsDigit(c) && DigitValue(c) == d
  {
    (('0' as int) + d) as char
  }

  /** The input with its leading white space removed. */
  function SkipSpaces(s: string): (r: string)
    ensures |r| <= |s|
    ensures forall i :: 0 <= i < |s| - |r| ==> IsSpace(s[i])
    ensures r == [] || !IsSpace(r[0])
  {
    if s != [] && IsSpace(s[0]) then SkipSpaces(s[1..]) else s
  }

  /** Length of the longest prefix made of digits. */
  function DigitRun(s: string): (n: nat)
    ensures n <= |s| && AllDigits(s[..n])
    ensures n == |s| || !IsDigit(s[n])
  {
    if s != [] && IsDigit(s[0]) then 1 + DigitRun(s[1..]) else 0
  }

  /** Length of the longest prefix free of white space (what `%s` consumes). */
  function TokenRun(s: string): (n: nat)
    ensures n <= |s|
    ensures forall i :: 0 <= i < n ==> !IsSpace(s[i])
    ensures n == |s| || IsSpace(s[n])
  {
    if s != [] && !IsSpace(s[0]) then 1 + TokenRun(s[1..]) else 0
  }

  /** Length of the longest prefix that does not contain `stop` (what `%[^=]` consumes). */
  function RunUntil(s: string, stop: char): (n: nat)
    ensures n <= |s|
    ensures forall i :: 0 <= i < n ==> s[i] != stop
    ensures n == |s| || s[n] == stop
  {
    if s != [] && s[0] != stop then 1 + RunUntil(s[1..], stop) else 0
  }

  /** Decimal value of a digit string, most significant digit first. */
  function DigitsValue(ds: string): nat
    requires AllDigits(ds)
  {
    if ds == [] then 0 else DigitsValue(ds[..|ds| - 1]) * 10 + DigitValue(ds[|ds| - 1])
  }

  function Pow10(n: nat): (p: nat)
    ensures p >= 1
  {
    if n == 0 then 1 else 10 * Pow10(n - 1)
  }

  /** What a successful conversion produced, and the unread text after it. */
  datatype Scan<T> = Scan(value: T, rest: string)

  /** An optional leading sign: whether it is `-`, and the text after it. */
  function SplitSign(t: string): (r: (bool, string))
    ensures r.0 ==> t != [] && t[0] == '-'
    ensures r.1 == t || (t != [] && (t[0] == '-' || t[0] == '+') && r.1 == t[1..])
  {
    if t != [] && (t[0] == '-' || t[0] == '+') then (t[0] == '-', t[1..]) else (false, t)
  }

  /** At least one digit: their decimal value and the text after them. */
  function ScanNat(u: string): (r: Option<Scan<nat>>)
    ensures r.Some? ==> |r.value.rest| < |u|
    ensures r.None? <==> u == [] || !IsDigit(u[0])
  {
    var n := DigitRun(u);
    if n == 0 then None else Some(Scan(DigitsValue(u[..n]), u[n..]))
  }

  /** `%d` (and `strtol` in base 10): white space, an optional sign, then at
      least one digit. Overflow of a C `int` is not modelled. */
  function ScanInt(s: string): (r: Option<Scan<int>>)
    ensures r.Some? ==> |r.value.rest| < |s|
  {
    ScanSigned(SkipSpaces(s))
  }

  /** `%d` once the white space is gone: an optional sign, then digits. */
  function ScanSigned(t: string): (r: Option<Scan<int>>)
    ensures r.Some? ==> |r.value.rest| < |t|
  {
    var (negative, u) := SplitSign(t);
    match ScanNat(u)
    case None => None
    case Some(m) =>
      var value: int := if negative then -(m.value as int) else m.value;
      Some(Scan(value, m.rest))
  }

  /** `atoi`: the `%d` conversion, or 0 when there is no number. */
  function Atoi(s: string): int
  {
    match ScanInt(s)
    case None => 0
    case Some(x) => x.value
  }

  /** `%f` / `strtod` restricted to decimal notation: white space, an optional
      sign, digits with at most one decimal point, at least one digit in all.
      Exponents, hexadecimal floats, `inf` and `nan` are not modelled, and the
      value is exact (no rounding to `float`/`double`). */
  function ScanDecimal(s: string): (r: Option<Scan<real>>)
  {
    var (negative, u) := SplitSign(SkipSpaces(s));
    var sign := if negative then -1.0 else 1.0;
    var n := DigitRun(u);
    var whole := DigitsValue(u[..n]) as real;
    var v := u[n..];
    if v != [] && v[0] == '.' then
      var w := v[1..];
      var f := DigitRun(w);
      if n + f == 0 then None
      else Some(Scan(sign * (whole + DigitsValue(w[..f]) as real / Pow10(f) as real), w[f..]))
    else if n == 0 then None
    else Some(Scan(sign * whole, v))
  }

  /** `atof`: the decimal conversion, or 0.0 when there is no number. */
  function Atof(s: string): real
  {
    match ScanDecimal(s)
    case None => 0.0
    case Some(x) => x.value
  }

  /** `sscanf(value, "%d,%d", &a, &b)` (and the `%f,%f` form) assigns its
      targets one at a time and stops at the first failure, so the first
      component can be assigned while the second is not. */
  function ScanPair<T>(s: string, scan: string -> Option<Scan<T>>): (r: (Option<T>, Option<T>))
    ensures r.0.None? ==> r.1.None?
  {
    match scan(s)
    case None => (None, None)
    case Some(first) =>
      if first.rest != [] && first.rest[0] == ',' then
        match scan(first.rest[1..])
        case None => (Some(first.value), None)
        case Some(second) => (Some(first.value), Some(second.value))
      else (Some(first.value), None)
  }

  /** Two conversions separated by a comma fill both targets. */
  lemma ScanPairOfParts<T>(s: string, scan: string -> Option<Scan<T>>, first: Scan<T>, second: Scan<T>)
    requires scan(s) == Some(first)
    requires first.rest != [] && first.rest[0] == ','
    requires scan(first.rest[1..]) == Some(second)
    ensures ScanPair(s, scan) == (Some(first.value), Some(second.value))
  {
  }

  /** The number of characters a conversion of maximum field width `width`
      takes from a run of `run` acceptable characters. */
  function Clip(run: nat, width: Option<nat>): (n: nat)
    ensures n <= run
  {
    match width
    case None => run
    case Some(w) => if run <= w then run else w
  }

  /** `%s` with an optional field width: white space, then a non-empty
      white-space-free token, cut at the width. */
  function ScanToken(s: string, width: Option<nat>): (r: Option<string>)
    ensures r.Some? ==> |r.value| > 0 && forall i :: 0 <= i < |r.value| ==> !IsSpace(r.value[i])
  {
    var rest := SkipSpaces(s);
    var v := Clip(TokenRun(rest), width);
    if v == 0 then None
    else
      TokenPrefix(rest, v);
      Some(rest[..v])
  }

  /** `sscanf(line, "%[^=]=%s", key, value) == 2` (with optional field widths,
      as in `%49[^=]=%49s`): a non-empty key free of `=`, the `=` itself, then
      after optional white space a non-empty token. The key keeps any blanks
      it contains; the value is the first white-space-free token. */
  function ScanKeyValue(line: string, width: Option<nat>): (r: Option<(string, string)>)
    ensures r.Some? ==> |r.value.0| > 0 && |r.value.1| > 0
    ensures r.Some? ==> forall i :: 0 <= i < |r.value.0| ==> r.value.0[i] != '='
    ensures r.Some? ==> forall i :: 0 <= i < |r.value.1| ==> !IsSpace(r.value.1[i])
  {
    var k := Clip(RunUntil(line, '='), width);
    if k == 0 || k == |line| || line[k] != '=' then None
    else
      match ScanToken(line[k + 1..], width)
      case None => None
      case Some(value) =>
        PrefixAvoids(line, k, '=');
        Some((line[..k], value))
  }

  lemma PrefixAvoids(s: string, k: nat, c: char)
    requires k <= RunUntil(s, c)
    ensures forall i :: 0 <= i < |s[..k]| ==> s[..k][i] != c
  {
    forall i | 0 <= i < |s[..k]| ensures s[..k][i] != c {
      assert s[..k][i] == s[i];
    }
  }

  lemma TokenPrefix(s: string, k: nat)
    requires k <= TokenRun(s)
    ensures forall i :: 0 <= i < |s[..k]| ==> !IsSpace(s[..k][i])
  {
    forall i | 0 <= i < |s[..k]| ensures !IsSpace(s[..k][i]) {
      assert s[..k][i] == s[i];
    }
  }

  /** `sscanf(line, "%s %d", key, &value) == 2`: a white-space-free word, then an integer. */
  function ScanWordInt(line: string): (r: Option<(string, int)>)
    ensures r.Some? ==> |r.value.0| > 0
    ensures r.Some? ==> forall i :: 0 <= i < |r.value.0| ==> !IsSpace(r.value.0[i])
  {
    var t := SkipSpaces(line);
    var w := TokenRun(t);
    if w == 0 then None
    else
      match ScanInt(t[w..])
      case None => None
      case Some(x) =>
        TokenPrefix(t, w);
        Some((t[..w], x.value))
  }

  /** Decimal digits of a natural number, as `%d` prints them. */
  function NatDigits(n: nat): (r: string)
    ensures |r| >= 1 && AllDigits(r)
    decreases n
  {
    if n < 10 then [DigitChar(n)] else NatDigits(n / 10) + [DigitChar(n % 10)]
  }

  /** `sprintf("%d", n)`. */
  function Itoa(n: int): (r: string)
    ensures |r| >= 1
  {
    if n < 0 then "-" + NatDigits(-n) else NatDigits(n)
  }

  /** `%d` output is digits after an optional minus sign, and ends in a digit. */
  lemma ItoaShape(n: int)
    ensures forall i :: 0 <= i < |Itoa(n)| ==> IsDigit(Itoa(n)[i]) || (i == 0 && Itoa(n)[i] == '-')
    ensures IsDigit(Itoa(n)[|Itoa(n)| - 1])
  {
    if n < 0 {
      var ds := NatDigits(-n);
      assert Itoa(n) == "-" + ds;
      assert forall i :: 1 <= i < |Itoa(n)| ==> Itoa(n)[i] == ds[i - 1];
    }
  }

  lemma {:induction false} DigitsValueOfNatDigits(n: nat)
    ensures DigitsValue(NatDigits(n)) == n
    decreases n
  {
    if n >= 10 {
      var d := NatDigits(n);
      DigitsValueOfNatDigits(n / 10);
      assert d[..|d| - 1] == NatDigits(n / 10);
    }
  }

  lemma {:induction false} DigitRunOfDigits(ds: string, rest: string)
    requires AllDigits(ds)
    requires rest == [] || !IsDigit(rest[0])
    ensures DigitRun(ds + rest) == |ds|
  {
    if ds != [] {
      assert (ds + rest)[1..] == ds[1..] + rest;
      DigitRunOfDigits(ds[1..], rest);
    }
  }

  /** A digit run followed by a non-digit scans as its value. */
  lemma ScanNatOfDigits(d: string, rest: string)
    requires |d| > 0 && AllDigits(d)
    requires rest == [] || !IsDigit(rest[0])
    ensures ScanNat(d + rest) == Some(Scan(DigitsValue(d), rest))
  {
    DigitRunOfDigits(d, rest);
    assert (d + rest)[..|d|] == d;
    assert (d + rest)[|d|..] == rest;
  }

  /** `%d` output starts with no white space, and its sign splits off as
      the digits of the magnitude. */
  lemma SplitSignOfItoa(n: int, rest: string)
    ensures SkipSpaces(Itoa(n) + rest) == Itoa(n) + rest
    ensures SplitSign(Itoa(n) + rest) == (n < 0, NatDigits(Abs(n)) + rest)
  {
    var d := NatDigits(Abs(n));
    var s := Itoa(n) + rest;
    if n < 0 {
      assert s == "-" + (d + rest);
      assert s[1..] == d + rest;
    } else {
      assert s == d + rest;
      assert s[0] != '-' && s[0] != '+';
    }
    assert !IsSpace(s[0]);
  }

  /** Printing with `%d` and reading back with `%d` (or `atoi`) returns the
      number, and leaves the text after it unread. */
  lemma ScanIntOfItoa(n: int, rest: string)
    requires rest == [] || !IsDigit(rest[0])
    ensures ScanInt(Itoa(n) + rest) == Some(Scan(n, rest))
    ensures Atoi(Itoa(n) + rest) == n
  {
    var d := NatDigits(Abs(n));
    DigitsValueOfNatDigits(Abs(n));
    SplitSignOfItoa(n, rest);
    ScanNatOfDigits(d, rest);
  }

  /** Distinct numbers print differently. */
  lemma ItoaInjective(a: int, b: int)
    requires Itoa(a) == Itoa(b)
    ensures a == b
  {
    ScanIntOfItoa(a, []);
    ScanIntOfItoa(b, []);
    assert Itoa(a) + [] == Itoa(a);
    assert Itoa(b) + [] == Itoa(b);
  }

  /** `atof` reads an integer printed by `%d` as that integer. */
  lemma ScanDecimalOfItoa(n: int, rest: string)
    requires rest == [] || (!IsDigit(rest[0]) && rest[0] != '.')
    ensures ScanDecimal(Itoa(n) + rest) == Some(Scan(n as real, rest))
    ensures Atof(Itoa(n) + rest) == n as real
  {
    var d := NatDigits(Abs(n));
    DigitsValueOfNatDigits(Abs(n));
    SplitSignOfItoa(n, rest);
    DigitRunOfDigits(d, rest);
    assert (d + rest)[..|d|] == d;
    assert (d + rest)[|d|..] == rest;
  }

  /** A well-formed `key=value` line scans back to its key and value. */
  lemma ScanKeyValueOfLine(key: string, value: string, tail: string, width: Option<nat>)
    requires |key| > 0 && forall i :: 0 <= i < |key| ==> key[i] != '='
    requires |value| > 0 && forall i :: 0 <= i < |value| ==> !IsSpace(value[i])
    requires tail == [] || IsSpace(tail[0])
    requires width.Some? ==> |key| <= width.value && |value| <= width.value
    ensures ScanKeyValue(key + "=" + value + tail, width) == Some((key, value))
  {
    var vt := value + tail;
    var after := "=" + vt;
    var line := key + after;
    assert key + "=" + value + tail == line;
    RunUntilPrefix(key, after, '=');
    var k := Clip(RunUntil(line, '='), width);
    assert k == |key|;
    assert line[k] == '=';
    assert line[..k] == key;
    assert line[k + 1..] == vt;
    ScanTokenOf(value, tail, width);
  }

  /** A token followed by white space (or nothing) scans as itself. */
  lemma ScanTokenOf(value: string, tail: string, width: Option<nat>)
    requires |value| > 0 && forall i :: 0 <= i < |value| ==> !IsSpace(value[i])
    requires tail == [] || IsSpace(tail[0])
    requires width.Some? ==> |value| <= width.value
    ensures ScanToken(value + tail, width) == Some(value)
  {
    var vt := value + tail;
    assert vt[0] == value[0];
    assert SkipSpaces(vt) == vt;
    TokenRunPrefix(value, tail);
    assert Clip(TokenRun(vt), width) == |value|;
    assert vt[..|value|] == value;
  }

  lemma {:induction false} RunUntilPrefix(s: string, rest: string, stop: char)
    requires forall i :: 0 <= i < |s| ==> s[i] != stop
    requires rest != [] && rest[0] == stop
    ensures RunUntil(s + rest, stop) == |s|
  {
    if s != [] {
      assert (s + rest)[1..] == s[1..] + rest;
      RunUntilPrefix(s[1..], rest, stop);
    }
  }

  lemma {:induction false} TokenRunPrefix(s: string, rest: string)
    requires forall i :: 0 <= i < |s| ==> !IsSpace(s[i])
    requires rest == [] || IsSpace(rest[0])
    ensures TokenRun(s + rest) == |s|
  {
    if s != [] {
      assert (s + rest)[1..] == s[1..] + rest;
      TokenRunPrefix(s[1..], rest);
    }
  }

  /** A `WORD value` line scans back to its word and number. */
  lemma ScanWordIntOfLine(word: string, n: int, tail: string)
    requires |word| > 0 && forall i :: 0 <= i < |word| ==> !IsSpace(word[i])
    requires tail == [] || !IsDigit(tail[0])
    ensures ScanWordInt(word + " " + Itoa(n) + tail) == Some((word, n))
  {
    var num := Itoa(n) + tail;
    var after := " " + num;
    var line := word + after;
    assert word + " " + Itoa(n) + tail == line;
    assert SkipSpaces(line) == line;
    TokenRunPrefix(word, after);
    assert line[..|word|] == word;
    assert line[|word|..] == after;
    assert after[1..] == num;
    assert SkipSpaces(after) == SkipSpaces(num);
    ScanIntOfItoa(n, tail);
    ScanIntSkipsLeadingSpace(after);
  }

  lemma ScanIntSkipsLeadingSpace(s: string)
    requires s != [] && IsSpace(s[0])
    ensures ScanInt(s) == ScanInt(s[1..])
  {
    assert SkipSpaces(s) == SkipSpaces(s[1..]);
  }
}
