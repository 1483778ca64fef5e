/** Strings as the runtime sees them: white space, trimming and decimal numerals. */
module Text {

  /** ECMAScript white space and line terminators. */
  predicate IsBlank(c: char) {
    c == ' ' || c == '\t' || c == '\n' || c == '\r' || c == '\U{000B}' || c == '\U{000C}' || c == '\U{00A0}'
    || c == '\U{1680}' || ('\U{2000}' <= c <= '\U{200A}') || c == '\U{2028}' || c == '\U{2029}'
    || c == '\U{202F}' || c == '\U{205F}' || c == '\U{3000}' || c == '\U{FEFF}'
  }

  function TrimStart(s: string): (t: string)
    ensures |t| <= |s|
    ensures t == [] || !IsBlank(t[0])
    ensures s != [] && !IsBlank(s[0]) ==> t == s
  {
    if s == [] then [] else if IsBlank(s[0]) then TrimStart(s[1..]) else s
  }

  function TrimEnd(s: string): (t: string)
    ensures |t| <= |s|
    ensures t <= s
    ensures t == [] || !IsBlank(t[|t| - 1])
    ensures s != [] && !IsBlank(s[|s| - 1]) ==> t == s
  {
    if s == [] then [] else if IsBlank(s[|s| - 1]) then TrimEnd(s[..|s| - 1]) else s
  }

  function Trim(s: string): (t: string)
    ensures |t| <= |s|
    ensures t == [] || (!IsBlank(t[0]) && !IsBlank(t[|t| - 1]))
    ensures s == [] || (!IsBlank(s[0]) && !IsBlank(s[|s| - 1])) ==> t == s
  {
    TrimEnd(TrimStart(s))
  }

  /** Trimming leaves nothing exactly when there is nothing but white space. */
  lemma TrimsToNothing(s: string)
    ensures Trim(s) == "" <==> forall i :: 0 <= i < |s| ==> IsBlank(s[i])
  {
    var k := StartTrimmed(s);
    EndTrimmed(s[k..]);
  }

  lemma {:induction false} StartTrimmed(s: string) returns (k: nat)
    ensures k <= |s| && TrimStart(s) == s[k..] && forall i :: 0 <= i < k ==> IsBlank(s[i])
  {
    k := 0;
    if s != [] && IsBlank(s[0]) {
      var rest := StartTrimmed(s[1..]);
      k := rest + 1;
      assert forall i :: 1 <= i < k ==> s[i] == s[1..][i - 1];
    }
  }

  lemma {:induction false} EndTrimmed(s: string)
    ensures TrimEnd(s) == "" ==> forall i :: 0 <= i < |s| ==> IsBlank(s[i])
    ensures TrimEnd(s) != "" ==> exists i :: 0 <= i < |s| && !IsBlank(s[i])
  {
    if s != [] && IsBlank(s[|s| - 1]) {
      var rest := s[..|s| - 1];
      EndTrimmed(rest);
      assert forall i :: 0 <= i < |rest| ==> s[i] == rest[i];
    }
  }

  // ---- searching and splitting ----

  function IndexOf(s: string, c: char): (i: int)
    ensures -1 <= i < |s|
    ensures i >= 0 ==> s[i] == c && forall k :: 0 <= k < i ==> s[k] != c
    ensures i < 0 ==> c !in s
  {
    if s == "" then -1
    else if s[0] == c then 0
    else
      var rest := IndexOf(s[1..], c);
      assert forall k :: 1 <= k < |s| ==> s[k] == s[1..][k - 1];
      if rest < 0 then -1 else rest + 1
  }

  function Split(s: string, c: char): (parts: seq<string>)
    ensures parts != []
    decreases |s|
  {
    var i := IndexOf(s, c);
    if i < 0 then [s] else [s[..i]] + Split(s[i + 1..], c)
  }

  // ---- decimal numerals ----

  function Digit(d: nat): char
    requires d < 10
  {
    "0123456789"[d]
  }

  function Decimal(n: nat): (s: string)
    ensures s != []
  {
    if n < 10 then [Digit(n)] else Decimal(n / 10) + [Digit(n % 10)]
  }

  /** The number written in decimal, if the text is one. */
  function DecimalValue(digits: string): nat {
    if digits == "" then 0
    else
      var last := digits[|digits| - 1];
      10 * DecimalValue(digits[..|digits| - 1]) + if '0' <= last <= '9' then last as nat - '0' as nat else 0
  }

  lemma {:induction false} DecimalReads(n: nat)
    ensures DecimalValue(Decimal(n)) == n
  {
    var d := Decimal(n);
    assert forall i: nat :: i < 10 ==> Digit(i) as nat == '0' as nat + i;
    if n >= 10 {
      DecimalReads(n / 10);
      assert d[..|d| - 1] == Decimal(n / 10);
    }
  }

  lemma DigitInjective(a: nat, b: nat)
    requires a < 10 && b < 10 && Digit(a) == Digit(b)
    ensures a == b
  {
    assert forall i, j :: 0 <= i < j < 10 ==> "0123456789"[i] != "0123456789"[j];
  }

  lemma {:induction false} DecimalInjective(a: nat, b: nat)
    requires Decimal(a) == Decimal(b)
    ensures a == b
  {
    var s, t := Decimal(a), Decimal(b);
    assert s[|s| - 1] == Digit(a % 10) && t[|t| - 1] == Digit(b % 10);
    DigitInjective(a % 10, b % 10);
    if a >= 10 && b >= 10 {
      assert s[..|s| - 1] == Decimal(a / 10) && t[..|t| - 1] == Decimal(b / 10);
      DecimalInjective(a / 10, b / 10);
    }
  }

  lemma {:induction false} DecimalHasNoLeadingZero(n: nat)
    requires n > 0
    ensures Decimal(n)[0] != '0'
  {
    if n >= 10 {
      DecimalHasNoLeadingZero(n / 10);
    }
  }

  /** The numeral padded with zeros to three characters; longer numerals are kept whole. */
  function Padded(n: nat): string {
    var d := Decimal(n);
    if |d| == 1 then "00" + d else if |d| == 2 then "0" + d else d
  }

  /** A padded numeral reads as its number, has at least three digits, and is padded no further. */
  lemma PaddedReads(n: nat)
    ensures DecimalValue(Padded(n)) == n && |Padded(n)| >= 3
    ensures |Padded(n)| > 3 ==> Padded(n)[0] != '0'
    ensures forall i :: 0 <= i < |Padded(n)| ==> '0' <= Padded(n)[i] <= '9'
  {
    var d := Decimal(n);
    DecimalReads(n);
    DecimalDigits(n);
    ZeroPadded(d);
    ZeroPadded("0" + d);
    assert "00" + d == "0" + ("0" + d);
    if n > 0 {
      DecimalHasNoLeadingZero(n);
    }
  }

  lemma {:induction false} DecimalDigits(n: nat)
    ensures forall i :: 0 <= i < |Decimal(n)| ==> '0' <= Decimal(n)[i] <= '9'
  {
    assert forall i: nat :: i < 10 ==> Digit(i) as nat == '0' as nat + i;
    if n >= 10 {
      DecimalDigits(n / 10);
    }
  }

  lemma {:induction false} ZeroPadded(digits: string)
    ensures DecimalValue("0" + digits) == DecimalValue(digits)
  {
    if digits != "" {
      var last := |digits| - 1;
      ZeroPadded(digits[..last]);
      assert ("0" + digits)[..last + 1] == "0" + digits[..last];
    }
  }

  lemma PaddedShorter(a: nat, b: nat)
    requires |Decimal(a)| < |Decimal(b)|
    ensures Padded(a) != Padded(b)
  {
    var e := Decimal(b);
    DecimalHasNoLeadingZero(b);
    if |e| <= 3 {
      assert Padded(b)[3 - |e|] == e[0];
      assert Padded(a)[3 - |e|] == '0';
    }
  }

  lemma PaddedInjective(a: nat, b: nat)
    requires Padded(a) == Padded(b)
    ensures a == b
  {
    var d, e := Decimal(a), Decimal(b);
    if |d| < |e| {
      PaddedShorter(a, b);
    } else if |e| < |d| {
      PaddedShorter(b, a);
    } else {
      var n := |Padded(a)| - |d|;
      assert Padded(a)[n..] == d;
      assert Padded(b)[n..] == e;
      DecimalInjective(a, b);
    }
  }
}
