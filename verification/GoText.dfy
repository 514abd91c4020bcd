/** The parts of Go's strconv and strings packages that the models need. */
module GoText {
  import opened Common

  const MIN_INT: int := -0x8000_0000_0000_0000
  const MAX_INT: int := 0x7fff_ffff_ffff_ffff

  /** Go's int on a 64-bit platform. */
  type Int64 = n: int | MIN_INT <= n <= MAX_INT

  // ---------------------------------------------------------------------------------------------------------------
  // Decimal numbers
  // ---------------------------------------------------------------------------------------------------------------

  predicate IsDigit(c: char) {
    '0' <= c <= '9'
  }

  predicate AllDigits(s: string) {
    forall i :: 0 <= i < |s| ==> IsDigit(s[i])
  }

  function DigitOf(d: nat): (c: char)
    requires d < 10
    ensures IsDigit(c) && c as int - '0' as int == d
  {
    ('0' as int + d) as char
  }

  function FormatNat(n: nat): (s: string)
    ensures s != "" && AllDigits(s)
  {
    if n < 10 then [DigitOf(n)] else FormatNat(n / 10) + [DigitOf(n % 10)]
  }

  function FormatInt(n: int): string {
    if n < 0 then "-" + FormatNat(-n) else FormatNat(n)
  }

  function ParseNat(s: string): nat
    requires AllDigits(s)
  {
    if s == "" then 0 else ParseNat(s[..|s| - 1]) * 10 + (s[|s| - 1] as int - '0' as int)
  }

  /** strconv.Atoi: an optional sign, at least one digit, nothing else, and a value in range. */
  function Atoi(s: string): Option<Int64> {
    var signed := s != "" && (s[0] == '-' || s[0] == '+');
    var digits := if signed then s[1..] else s;
    if digits == "" || !AllDigits(digits) then None
    else
      var n: int := if signed && s[0] == '-' then 0 - ParseNat(digits) else ParseNat(digits);
      if MIN_INT <= n <= MAX_INT then Some(n) else None
  }

  lemma {:induction false} ParseFormatNat(n: nat)
    ensures ParseNat(FormatNat(n)) == n
  {
    if n >= 10 {
      ParseFormatNat(n / 10);
      assert FormatNat(n)[..|FormatNat(n)| - 1] == FormatNat(n / 10);
    } else {
      assert FormatNat(n)[..0] == "";
    }
  }

  lemma AtoiFormat(n: Int64)
    ensures Atoi(FormatInt(n)) == Some(n)
  {
    var m: int := n;
    var s := FormatInt(m);
    if m < 0 {
      ParseFormatNat(-m);
      assert s[1..] == FormatNat(-m);
    } else {
      ParseFormatNat(m);
      assert IsDigit(s[0]);
    }
  }

  function Zeros(k: nat): (s: string)
    ensures AllDigits(s) && |s| == k
  {
    seq(k, i => '0')
  }

  lemma {:induction false} ParseBehindZeros(k: nat, s: string)
    requires AllDigits(s)
    ensures ParseNat(Zeros(k) + s) == ParseNat(s)
    decreases k + |s|
  {
    var t := Zeros(k) + s;
    if s != "" {
      assert t[..|t| - 1] == Zeros(k) + s[..|s| - 1];
      ParseBehindZeros(k, s[..|s| - 1]);
    } else if k > 0 {
      assert t[..|t| - 1] == Zeros(k - 1) + "";
      ParseBehindZeros(k - 1, "");
    }
  }

  lemma {:induction false} ZerosThenDigits(s: string) returns (k: nat)
    requires s != "" && AllDigits(s)
    ensures s == Zeros(k) + FormatNat(ParseNat(s))
  {
    var n := |s| - 1;
    if n == 0 {
      k := 0;
      OneDigit(s);
    } else {
      var j := ZerosThenDigits(s[..n]);
      k := OneMoreDigit(s, j);
    }
  }

  lemma OneDigit(s: string)
    requires |s| == 1 && AllDigits(s)
    ensures s == Zeros(0) + FormatNat(ParseNat(s))
  {
    assert s[..0] == "" && s == [s[0]];
    assert FormatNat(ParseNat(s)) == [DigitOf(s[0] as int - '0' as int)];
  }

  lemma FormatOneMore(m: nat, d: nat)
    requires d < 10
    ensures FormatNat(m * 10 + d) == (if m > 0 then FormatNat(m) else "") + [DigitOf(d)]
  {
    assert (m * 10 + d) / 10 == m && (m * 10 + d) % 10 == d;
  }

  lemma OneMoreDigit(s: string, j: nat) returns (k: nat)
    requires |s| > 1 && AllDigits(s)
    requires s[..|s| - 1] == Zeros(j) + FormatNat(ParseNat(s[..|s| - 1]))
    ensures s == Zeros(k) + FormatNat(ParseNat(s))
  {
    var n := |s| - 1;
    var d := s[n] as int - '0' as int;
    var m := ParseNat(s[..n]);
    FormatOneMore(m, d);
    assert s == s[..n] + [DigitOf(d)];
    if m > 0 {
      k := j;
    } else {
      k := j + 1;
      OneMoreZero(j);
    }
  }

  lemma OneMoreZero(j: nat)
    ensures Zeros(j) + FormatNat(0) == Zeros(j + 1)
  {
    assert FormatNat(0) == "0";
  }

  /** The numerals of `n`: its digits behind any number of zeros, with the sign a negative number needs; a plus is
      allowed otherwise, and zero may carry either. */
  function Numeral(sign: string, k: nat, n: int): string {
    sign + (Zeros(k) + FormatNat(if n < 0 then -n else n))
  }

  predicate SignOf(sign: string, n: int) {
    sign == "-" || (n >= 0 && (sign == "" || sign == "+"))
  }

  ghost predicate IsNumeral(s: string, n: int) {
    exists sign, k {:trigger Numeral(sign, k, n)} ::
      SignOf(sign, n) && (n > 0 ==> sign != "-") && s == Numeral(sign, k, n)
  }

  lemma SignSplits(sign: string, digits: string)
    requires SignOf(sign, 0) && digits != "" && AllDigits(digits)
    ensures var n: int := if sign == "-" then 0 - ParseNat(digits) else ParseNat(digits);
            Atoi(sign + digits) == if MIN_INT <= n <= MAX_INT then Some(n) else None
  {
    var s := sign + digits;
    assert IsDigit(digits[0]);
    if sign == "" {
      assert s == digits;
    } else {
      assert s[0] == sign[0] && s[1..] == digits;
    }
  }

  lemma NumeralParses(sign: string, k: nat, n: Int64)
    requires SignOf(sign, n) && (n > 0 ==> sign != "-")
    ensures Atoi(Numeral(sign, k, n)) == Some(n)
  {
    var m: int := n;
    var a: nat := if m < 0 then -m else m;
    ParseBehindZeros(k, FormatNat(a));
    ParseFormatNat(a);
    SignSplits(sign, Zeros(k) + FormatNat(a));
  }

  lemma SignOfAny(s: string) returns (sign: string, digits: string)
    ensures SignOf(sign, 0) && s == sign + digits
    ensures Atoi(s).Some? ==> digits != "" && AllDigits(digits)
  {
    if s != "" && (s[0] == '-' || s[0] == '+') {
      sign, digits := [s[0]], s[1..];
    } else {
      sign, digits := "", s;
    }
  }

  lemma ParsedIsNumeral(s: string, n: Int64)
    requires Atoi(s) == Some(n)
    ensures IsNumeral(s, n)
  {
    var sign, digits := SignOfAny(s);
    SignSplits(sign, digits);
    var k := ZerosThenDigits(digits);
    SignedDigits(sign, k, ParseNat(digits), n);
  }

  lemma SignedDigits(sign: string, k: nat, a: nat, n: int)
    requires SignOf(sign, 0) && n == if sign == "-" then 0 - a else a
    ensures IsNumeral(sign + (Zeros(k) + FormatNat(a)), n)
  {
    assert a == if n < 0 then -n else n;
    assert Numeral(sign, k, n) == sign + (Zeros(k) + FormatNat(a));
  }

  /** Atoi accepts the numerals of 64-bit integers, and nothing else. */
  lemma AtoiIff(s: string, n: Int64)
    ensures Atoi(s) == Some(n) <==> IsNumeral(s, n)
  {
    if Atoi(s) == Some(n) {
      ParsedIsNumeral(s, n);
    }
    if IsNumeral(s, n) {
      var sign, k :| SignOf(sign, n) && (n > 0 ==> sign != "-") && s == Numeral(sign, k, n);
      NumeralParses(sign, k, n);
    }
  }

  // ---------------------------------------------------------------------------------------------------------------
  // White space
  // ---------------------------------------------------------------------------------------------------------------

  /** unicode.IsSpace. */
  predicate IsSpace(c: char) {
    var u := c as int;
    0x09 <= u <= 0x0d || u in {0x20, 0x85, 0xa0, 0x1680, 0x2028, 0x2029, 0x202f, 0x205f, 0x3000}
        || 0x2000 <= u <= 0x200a
  }

  /** strings.TrimSpace. */
  function TrimSpace(s: string): string {
    if s == "" then ""
    else if IsSpace(s[0]) then TrimSpace(s[1..])
    else if IsSpace(s[|s| - 1]) then TrimSpace(s[..|s| - 1])
    else s
  }

  predicate AllSpace(s: string) {
    forall i :: 0 <= i < |s| ==> IsSpace(s[i])
  }

  predicate Trimmed(s: string) {
    s == "" || (!IsSpace(s[0]) && !IsSpace(s[|s| - 1]))
  }

  /** Exactly the white space at both ends goes. */
  lemma {:induction false} TrimsBothEnds(a: string, s: string, b: string)
    requires AllSpace(a) && Trimmed(s) && AllSpace(b)
    ensures TrimSpace(a + s + b) == s
    decreases |a| + |b|
  {
    var t := a + s + b;
    if a != "" {
      assert t[1..] == a[1..] + s + b;
      TrimsBothEnds(a[1..], s, b);
    } else if b != "" {
      if s == "" {
        assert t == b && t[1..] == "" + "" + b[1..];
        TrimsBothEnds("", "", b[1..]);
      } else {
        assert t[..|t| - 1] == a + s + b[..|b| - 1] && t[|t| - 1] == b[|b| - 1] && t[0] == s[0];
        TrimsBothEnds(a, s, b[..|b| - 1]);
      }
    } else {
      assert t == s;
    }
  }

  lemma {:induction false} TrimSplits(s: string) returns (a: string, b: string)
    ensures AllSpace(a) && AllSpace(b) && Trimmed(TrimSpace(s)) && s == a + TrimSpace(s) + b
    decreases |s|
  {
    if s == "" {
      a, b := "", "";
    } else if IsSpace(s[0]) {
      var a', b' := TrimSplits(s[1..]);
      a, b := [s[0]] + a', b';
      assert s == [s[0]] + (a' + TrimSpace(s) + b');
    } else if IsSpace(s[|s| - 1]) {
      var a', b' := TrimSplits(s[..|s| - 1]);
      a, b := a', b' + [s[|s| - 1]];
      assert s == (a' + TrimSpace(s) + b') + [s[|s| - 1]];
    } else {
      a, b := "", "";
      assert s == "" + s + "";
    }
  }

  lemma NumeralIsTrimmed(sign: string, k: nat, n: int)
    requires SignOf(sign, n)
    ensures Trimmed(Numeral(sign, k, n))
  {
    var digits := Zeros(k) + FormatNat(if n < 0 then -n else n);
    var s := Numeral(sign, k, n);
    assert s == sign + digits && AllDigits(digits);
    assert IsDigit(digits[0]) && IsDigit(digits[|digits| - 1]);
    assert s[|s| - 1] == digits[|digits| - 1];
    if sign == "" {
      assert s[0] == digits[0];
    } else {
      assert s[0] == sign[0];
    }
  }

  // ---------------------------------------------------------------------------------------------------------------
  // Splitting and joining at dots
  // ---------------------------------------------------------------------------------------------------------------

  /** Puts one more character in front of a split string. */
  function Attach(c: char, parts: seq<string>): (r: seq<string>)
    requires parts != []
    ensures r != []
  {
    if c == '.' then [""] + parts else [[c] + parts[0]] + parts[1..]
  }

  /** strings.Split(s, "."). */
  function SplitDots(s: string): (parts: seq<string>)
    ensures parts != []
  {
    if s == "" then [""] else Attach(s[0], SplitDots(s[1..]))
  }

  function JoinDots(parts: seq<string>): string {
    if parts == [] then "" else if |parts| == 1 then parts[0] else parts[0] + "." + JoinDots(parts[1..])
  }

  lemma JoinFirst(head: string, parts: seq<string>)
    requires parts != []
    ensures JoinDots([head + parts[0]] + parts[1..]) == head + JoinDots(parts)
  {
    assert ([head + parts[0]] + parts[1..])[1..] == parts[1..];
    if |parts| > 1 {
      assert (head + parts[0]) + "." + JoinDots(parts[1..]) == head + (parts[0] + "." + JoinDots(parts[1..]));
    }
  }

  lemma JoinAttach(c: char, parts: seq<string>)
    requires parts != []
    ensures JoinDots(Attach(c, parts)) == [c] + JoinDots(parts)
  {
    if c == '.' {
      assert ([""] + parts)[1..] == parts;
      assert "" + "." + JoinDots(parts) == "." + JoinDots(parts);
    } else {
      JoinFirst([c], parts);
    }
  }

  lemma {:induction false} JoinSplit(s: string)
    ensures JoinDots(SplitDots(s)) == s
  {
    if s != "" {
      JoinSplit(s[1..]);
      JoinAttach(s[0], SplitDots(s[1..]));
    }
  }

  lemma AttachAppend(c: char, a: seq<string>, b: seq<string>)
    requires a != []
    ensures Attach(c, a + b) == Attach(c, a) + b
  {
    assert (a + b)[1..] == a[1..] + b;
  }

  lemma {:induction false} SplitAppend(a: string, b: string)
    ensures SplitDots(a + "." + b) == SplitDots(a) + SplitDots(b)
  {
    var s := a + "." + b;
    if a == "" {
      assert s[1..] == b;
      assert SplitDots(s) == Attach('.', SplitDots(b));
    } else {
      var t := a[1..] + "." + b;
      assert s[1..] == t && s[0] == a[0];
      SplitAppend(a[1..], b);
      AttachAppend(a[0], SplitDots(a[1..]), SplitDots(b));
      assert SplitDots(s) == Attach(a[0], SplitDots(t));
    }
  }
}
