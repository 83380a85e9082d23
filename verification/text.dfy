/** Strings as the address parsers see them: white space, splitting, ports and hexadecimal. */
module Text {
  import opened Basics

  /** `char::is_whitespace`, the White_Space property of Unicode. */
  predicate IsWhitespace(c: char) {
    var n := c as int;
    || 0x9 <= n <= 0xD || n in {0x20, 0x85, 0xA0, 0x1680, 0x2028, 0x2029, 0x202F, 0x205F, 0x3000}
    || 0x2000 <= n <= 0x200A
  }

  function Stripped(s: string): (r: string)
    ensures |r| <= |s| && (|r| == |s| ==> r == s)
    ensures forall c :: c in r <==> c in s && !IsWhitespace(c)
  {
    if s == "" then "" else (if IsWhitespace(s[0]) then "" else [s[0]]) + Stripped(s[1..])
  }

  lemma {:induction false} StrippedIs(s: string)
    ensures Stripped(s) == s <==> forall c :: c in s ==> !IsWhitespace(c)
    decreases |s|
  {
    if s != "" {
      StrippedIs(s[1..]);
      assert s == [s[0]] + s[1..];
      if forall c :: c in s ==> !IsWhitespace(c) {
        assert forall c :: c in s[1..] ==> c in s;
      }
    }
  }

  lemma {:induction false} StrippedOfBoth(a: string, b: string)
    ensures Stripped(a + b) == Stripped(a) + Stripped(b)
    decreases |a|
  {
    if a == "" {
      assert a + b == b;
    } else {
      assert (a + b)[1..] == a[1..] + b;
      StrippedOfBoth(a[1..], b);
    }
  }

  predicate Blank(s: string) {
    forall c :: c in s ==> IsWhitespace(c)
  }

  /** White space is dropped wherever it stands; everything else stays, in order. */
  lemma BlanksAreDropped(a: string, blank: string, b: string)
    requires Blank(blank)
    ensures Stripped(a + blank + b) == Stripped(a + b)
  {
    hide IsWhitespace;
    StrippedOfBoth(a + blank, b);
    StrippedOfBoth(a, blank);
    StrippedOfBoth(a, b);
    NoneIsKept(blank);
  }

  lemma {:induction false} NoneIsKept(blank: string)
    requires Blank(blank)
    ensures Stripped(blank) == ""
    decreases |blank|
  {
    hide IsWhitespace;
    if blank != "" {
      assert blank[0] in blank;
      NoneIsKept(blank[1..]);
    }
  }

  /** `str::trim`. */
  function Trimmed(s: string): string {
    if s == "" then s
    else if IsWhitespace(s[0]) then Trimmed(s[1..])
    else if IsWhitespace(s[|s| - 1]) then Trimmed(s[..|s| - 1])
    else s
  }

  lemma TrimmedIs(s: string)
    requires forall c :: c in s ==> !IsWhitespace(c)
    ensures Trimmed(s) == s
  {
  }

  /** Trimming takes white space off both ends and nothing else. */
  lemma {:induction false} TrimmedStripsEnds(left: string, s: string, right: string)
    requires Blank(left) && Blank(right) && (s != "" ==> !IsWhitespace(s[0]) && !IsWhitespace(s[|s| - 1]))
    ensures Trimmed(left + s + right) == s
    decreases |left| + |right|
  {
    hide IsWhitespace;
    var all := left + s + right;
    if left != "" {
      assert left[0] in left && all[1..] == left[1..] + s + right;
      TrimmedStripsEnds(left[1..], s, right);
    } else if right != "" {
      var n := |right| - 1;
      assert right[n] in right;
      if s == "" {
        assert right[0] in right && all[1..] == left + s + right[1..];
        TrimmedStripsEnds(left, s, right[1..]);
      } else {
        assert all[0] == s[0] && all[..|all| - 1] == left + s + right[..n];
        TrimmedStripsEnds(left, s, right[..n]);
      }
    } else {
      assert all == s;
    }
  }

  /** The first position of c, or the length if it does not occur. */
  function FirstIndex(s: string, c: char): (i: nat)
    ensures i <= |s| && c !in s[..i] && (i < |s| ==> s[i] == c)
    ensures i == |s| <==> c !in s
  {
    if s == "" || s[0] == c then 0 else
    assert s == [s[0]] + s[1..];
    1 + FirstIndex(s[1..], c)
  }

  /** The last position of c, or the length if it does not occur. */
  function LastIndex(s: string, c: char): (i: nat)
    ensures i <= |s| && (i < |s| ==> s[i] == c && c !in s[i + 1..])
    ensures i == |s| <==> c !in s
  {
    if s == "" then 0 else
    var n := |s| - 1;
    assert s == s[..n] + [s[n]];
    if s[n] == c then n else
    var i := LastIndex(s[..n], c);
    if i == n then n + 1 else
    assert s[i + 1..] == s[..n][i + 1..] + [s[n]];
    i
  }

  lemma {:induction false} FirstIndexIs(a: string, c: char, b: string)
    requires c !in a
    ensures FirstIndex(a + [c] + b, c) == |a|
    decreases |a|
  {
    if a != "" {
      assert (a + [c] + b)[1..] == a[1..] + [c] + b;
      assert a[0] in a;
      FirstIndexIs(a[1..], c, b);
    }
  }

  lemma {:induction false} LastIndexIs(a: string, c: char, b: string)
    requires c !in b
    ensures LastIndex(a + [c] + b, c) == |a|
    decreases |b|
  {
    var s := a + [c] + b;
    var n := |s| - 1;
    if b == "" {
      assert s[n] == c;
    } else {
      assert s[..n] == a + [c] + b[..|b| - 1];
      assert s[n] == b[|b| - 1] && b[|b| - 1] in b;
      LastIndexIs(a, c, b[..|b| - 1]);
    }
  }

  // Ports.

  type u16 = x: int | 0 <= x < 0x1_0000

  const DEFAULT_PORT: u16 := 43721

  predicate IsDigit(c: char) {
    '0' <= c <= '9'
  }

  predicate AllDigits(s: string) {
    forall c :: c in s ==> IsDigit(c)
  }

  function Decimal(n: nat): (s: string)
    ensures s != "" && AllDigits(s)
  {
    if n < 10 then [('0' as int + n) as char] else Decimal(n / 10) + [('0' as int + n % 10) as char]
  }

  function ValueOf(digits: string): nat
    requires AllDigits(digits)
  {
    if digits == "" then 0 else
    var n := |digits| - 1;
    assert digits == digits[..n] + [digits[n]];
    assert IsDigit(digits[n]) by {
      assert digits[n] in digits;
    }
    10 * ValueOf(digits[..n]) + (digits[n] as int - '0' as int)
  }

  /** `str::parse::<u16>`: an optional plus sign, then at least one digit, and nothing above 65535. */
  function ParsePort(s: string): Option<u16> {
    var digits := if "+" <= s then s[1..] else s;
    if digits == "" || !AllDigits(digits) then None
    else if ValueOf(digits) < 0x1_0000 then Some(ValueOf(digits)) else None
  }

  lemma {:induction false} DecimalValue(n: nat)
    ensures ValueOf(Decimal(n)) == n
    decreases n
  {
    if n >= 10 {
      DecimalValue(n / 10);
      assert Decimal(n)[..|Decimal(n)| - 1] == Decimal(n / 10);
    }
  }

  lemma PortRoundTrip(port: u16)
    ensures ParsePort(Decimal(port)) == Some(port)
  {
    DecimalValue(port);
    assert Decimal(port)[0] in Decimal(port);
  }

  function Zeros(k: nat): (s: string)
    ensures |s| == k && forall c :: c in s ==> c == '0'
  {
    if k == 0 then "" else Zeros(k - 1) + "0"
  }

  lemma ValueOfOneMore(front: string, last: char)
    requires IsDigit(last) && AllDigits(front)
    ensures AllDigits(front + [last])
    ensures ValueOf(front + [last]) == 10 * ValueOf(front) + (last as int - '0' as int)
  {
    assert (front + [last])[..|front|] == front;
  }

  lemma DecimalOfOneMore(v: nat, last: char)
    requires IsDigit(last)
    ensures Decimal(10 * v + (last as int - '0' as int)) == if v == 0 then [last] else Decimal(v) + [last]
  {
    var d := last as int - '0' as int;
    assert (10 * v + d) / 10 == v && (10 * v + d) % 10 == d;
  }

  lemma FrontIsDigits(front: string, last: char)
    requires AllDigits(front + [last])
    ensures AllDigits(front) && IsDigit(last)
  {
    assert last in front + [last];
  }

  /** Any digits are the decimal form of their value behind zeros. */
  lemma {:induction false} DigitsAre(digits: string) returns (k: nat)
    requires digits != "" && AllDigits(digits)
    ensures digits == Zeros(k) + Decimal(ValueOf(digits))
    decreases |digits|
  {
    var front, last := digits[..|digits| - 1], digits[|digits| - 1];
    assert digits == front + [last];
    FrontIsDigits(front, last);
    ValueOfOneMore(front, last);
    DecimalOfOneMore(ValueOf(front), last);
    ZerosAre(0);
    if front == "" {
      k := 0;
    } else {
      k := DigitsAre(front);
      hide *;
      if ValueOf(front) == 0 {
        ZerosAre(k);
        k := k + 1;
      } else {
        assert Zeros(k) + Decimal(ValueOf(front)) + [last] == Zeros(k) + (Decimal(ValueOf(front)) + [last]);
      }
    }
  }

  lemma ZerosAre(k: nat)
    ensures Zeros(0) == "" && Decimal(0) == "0" && Zeros(k) + Decimal(0) == Zeros(k + 1)
  {
  }

  lemma {:induction false} ZerosDoNotCount(k: nat, digits: string)
    requires AllDigits(digits)
    ensures AllDigits(Zeros(k) + digits)
    ensures ValueOf(Zeros(k) + digits) == ValueOf(digits)
    decreases k + |digits|
  {
    var all := Zeros(k) + digits;
    if digits != "" {
      var front := digits[..|digits| - 1];
      assert digits[|digits| - 1] in digits;
      assert all[..|all| - 1] == Zeros(k) + front;
      ZerosDoNotCount(k, front);
    } else if k > 0 {
      assert all[..|all| - 1] == Zeros(k - 1) + digits;
      ZerosDoNotCount(k - 1, digits);
    }
  }

  /** A port is read from its decimal form, with any zeros and perhaps a plus sign before it, and from nothing else. */
  lemma PortForms(s: string, port: u16)
    ensures ParsePort(s) == Some(port) <==>
              exists k: nat :: s == Zeros(k) + Decimal(port) || s == "+" + (Zeros(k) + Decimal(port))
  {
    var digits := if "+" <= s then s[1..] else s;
    if ParsePort(s) == Some(port) {
      var k := DigitsAre(digits);
      assert "+" <= s ==> s == "+" + digits;
    }
    if k: nat :| s == Zeros(k) + Decimal(port) || s == "+" + (Zeros(k) + Decimal(port)) {
      PortIsRead(k, port);
    }
  }

  lemma PortIsRead(k: nat, port: u16)
    ensures ParsePort(Zeros(k) + Decimal(port)) == Some(port)
    ensures ParsePort("+" + (Zeros(k) + Decimal(port))) == Some(port)
  {
    var digits := Zeros(k) + Decimal(port);
    hide Zeros, Decimal, ValueOf, IsDigit, ParsePort;
    ZerosDoNotCount(k, Decimal(port));
    DecimalValue(port);
    DigitsAreRead(digits);
  }

  lemma DigitsAreRead(digits: string)
    requires digits != "" && AllDigits(digits) && ValueOf(digits) < 0x1_0000
    ensures ParsePort(digits) == ParsePort("+" + digits) == Some(ValueOf(digits))
  {
    assert digits[0] in digits && !IsDigit('+');
    hide IsDigit, ValueOf;
    assert ("+" + digits)[1..] == digits;
  }

  // Hexadecimal.

  const DIGITS: string := "0123456789abcdef"

  function Digit(v: nat): (c: char)
    requires v < 16
  {
    DIGITS[v]
  }

  function Hex(bytes: Bytes): (s: string)
    ensures |s| == 2 * |bytes|
  {
    if bytes == [] then "" else
    var last := bytes[|bytes| - 1];
    Hex(bytes[..|bytes| - 1]) + [Digit(last / 16), Digit(last % 16)]
  }

  method HexEncode(bytes: Bytes) returns (s: string)
    ensures s == Hex(bytes)
  {
    s := "";
    for i := 0 to |bytes|
      invariant s == Hex(bytes[..i])
    {
      assert bytes[..i + 1][..i] == bytes[..i];
      s := s + [DIGITS[bytes[i] / 16]];
      s := s + [DIGITS[bytes[i] % 16]];
    }
    assert bytes[..|bytes|] == bytes;
  }

  predicate IsHexDigit(c: char) {
    IsDigit(c) || 'a' <= c <= 'f' || 'A' <= c <= 'F'
  }

  function HexValue(c: char): (v: nat)
    requires IsHexDigit(c)
    ensures v < 16
  {
    if IsDigit(c) then c as int - '0' as int
    else if 'a' <= c <= 'f' then c as int - 'a' as int + 10
    else c as int - 'A' as int + 10
  }

  function FromHex(s: string): (r: Bytes)
    requires |s| % 2 == 0 && forall c :: c in s ==> IsHexDigit(c)
    ensures 2 * |r| == |s|
  {
    if s == "" then [] else
    var n := |s| - 2;
    assert s == s[..n] + [s[n], s[n + 1]];
    FromHex(s[..n]) + [16 * HexValue(s[n]) + HexValue(s[n + 1])]
  }

  lemma DigitIs(v: nat)
    requires v < 16
    ensures IsHexDigit(Digit(v)) && HexValue(Digit(v)) == v
  {
  }

  lemma {:induction false} HexRoundTrip(bytes: Bytes)
    ensures forall c :: c in Hex(bytes) ==> IsHexDigit(c)
    ensures FromHex(Hex(bytes)) == bytes
    decreases |bytes|
  {
    hide IsHexDigit, HexValue, Digit;
    if bytes != [] {
      var front, last := bytes[..|bytes| - 1], bytes[|bytes| - 1];
      HexRoundTrip(front);
      DigitIs(last / 16);
      DigitIs(last % 16);
      var s := Hex(bytes);
      assert s[..2 * |front|] == Hex(front);
      assert 16 * (last / 16) + last % 16 == last;
    }
  }

  /** What is printed is in lower case. */
  lemma {:induction false} HexIsLower(bytes: Bytes)
    ensures forall c :: c in Hex(bytes) ==> c in "0123456789abcdef"
    decreases |bytes|
  {
    if bytes != [] {
      HexIsLower(bytes[..|bytes| - 1]);
    }
  }

  function Low(c: char): char {
    if 'A' <= c <= 'Z' then (c as int + 32) as char else c
  }

  function Lowered(s: string): string {
    seq(|s|, i requires 0 <= i < |s| => Low(s[i]))
  }

  /** Upper and lower case are read alike. */
  lemma CaseDoesNotMatter(s: string)
    requires |s| % 2 == 0 && forall c :: c in Lowered(s) ==> c in DIGITS
    ensures forall c :: c in s ==> IsHexDigit(c)
    ensures forall c :: c in Lowered(s) ==> IsHexDigit(c)
    ensures FromHex(s) == FromHex(Lowered(s))
  {
    var low := Lowered(s);
    hide IsHexDigit, HexValue, Low, DIGITS, FromHex;
    forall i | 0 <= i < |s|
      ensures IsHexDigit(s[i]) && IsHexDigit(low[i]) && HexValue(s[i]) == HexValue(low[i])
    {
      assert low[i] in low && low[i] == Low(s[i]);
      OneCase(s[i]);
    }
    hide Lowered;
    SameValues(s, low);
  }

  lemma {:induction false} SameValues(s: string, t: string)
    requires |s| == |t| && |s| % 2 == 0
    requires (forall c :: c in s ==> IsHexDigit(c)) && (forall c :: c in t ==> IsHexDigit(c))
    requires forall i :: 0 <= i < |s| ==> HexValue(s[i]) == HexValue(t[i])
    ensures FromHex(s) == FromHex(t)
    decreases |s|
  {
    hide IsHexDigit, HexValue;
    if s != "" {
      var n := |s| - 2;
      SameValues(s[..n], t[..n]);
    }
  }

  lemma OneCase(c: char)
    ensures Low(c) in DIGITS ==> IsHexDigit(c) && IsHexDigit(Low(c)) && HexValue(c) == HexValue(Low(c))
  {
  }
}
