/** int.Parse as the bare-id workers call it on a message body (the Integer
    number style: surrounding white space, an optional sign, decimal digits,
    a 32-bit signed range), and Int32.ToString, which produced the body. */
module IntParse {
  import opened Entities

  const MinInt32: int := -0x8000_0000
  const MaxInt32: int := 0x7fff_ffff

  predicate IsInt32(n: int)
  {
    MinInt32 <= n <= MaxInt32
  }

  /** The white space int.Parse skips: U+0009 to U+000D and the space. */
  predicate IsWhite(c: char)
  {
    c == ' ' || '\t' <= c <= '\r'
  }

  predicate IsDigit(c: char)
  {
    '0' <= c <= '9'
  }

  predicate AllDigits(s: string)
  {
    forall i :: 0 <= i < |s| ==> IsDigit(s[i])
  }

  function TrimStart(s: string): (r: string)
    ensures |r| <= |s| && r == s[|s| - |r|..]
    ensures forall i :: 0 <= i < |s| - |r| ==> IsWhite(s[i])
    ensures r != [] ==> !IsWhite(r[0])
  {
    if s != [] && IsWhite(s[0]) then
      var r := TrimStart(s[1..]);
      assert s[1..][|s| - 1 - |r|..] == s[|s| - |r|..];
      assert forall i :: 1 <= i < |s| - |r| ==> s[i] == s[1..][i - 1];
      r
    else s
  }

  function TrimEnd(s: string): (r: string)
    ensures |r| <= |s| && r == s[..|r|]
    ensures forall i :: |r| <= i < |s| ==> IsWhite(s[i])
    ensures r != [] ==> !IsWhite(r[|r| - 1])
  {
    if s != [] && IsWhite(s[|s| - 1]) then
      var r := TrimEnd(s[..|s| - 1]);
      assert s[..|s| - 1][..|r|] == s[..|r|];
      assert forall i :: |r| <= i < |s| - 1 ==> s[i] == s[..|s| - 1][i];
      r
    else s
  }

  /** The value of a string of decimal digits, most significant first. */
  function DigitsValue(ds: string): nat
    requires AllDigits(ds)
  {
    if ds == [] then 0
    else DigitsValue(ds[..|ds| - 1]) * 10 + (ds[|ds| - 1] as int - '0' as int)
  }

  /** The text int.Parse reads: s without its surrounding white space. */
  function Trimmed(s: string): string
  {
    TrimEnd(TrimStart(s))
  }

  /** The digits of a trimmed text: the text without a leading sign. */
  function Magnitude(t: string): string
  {
    if t != [] && (t[0] == '-' || t[0] == '+') then t[1..] else t
  }

  /** int.Parse(s): None where it throws a FormatException or an OverflowException. */
  function ParseInt(s: string): (r: Option<int>)
    ensures r.Some? ==> IsInt32(r.value)
  {
    var t := TrimEnd(TrimStart(s));
    var negative := t != [] && t[0] == '-';
    var digits := if t != [] && (t[0] == '-' || t[0] == '+') then t[1..] else t;
    if digits == [] || !AllDigits(digits) then None
    else
      var v: int := if negative then 0 - DigitsValue(digits) else DigitsValue(digits);
      if IsInt32(v) then Some(v) else None
  }

  /** What int.Parse makes of a text. Text of white space alone, or holding a
      character that is neither white space, a digit nor a sign, is a
      FormatException; a run of digits with an optional leading minus is its
      value, or an OverflowException outside the 32-bit range. */
  lemma ParseIntCases(s: string)
    ensures (forall i :: 0 <= i < |s| ==> IsWhite(s[i])) ==> ParseInt(s).None?
    ensures (exists i :: 0 <= i < |s| && !IsWhite(s[i]) && !IsDigit(s[i]) && s[i] != '-' && s[i] != '+') ==>
              ParseInt(s).None?
    ensures s != [] && AllDigits(s) ==>
              ParseInt(s) == (if DigitsValue(s) <= MaxInt32 then Some(DigitsValue(s)) else None)
    ensures |s| > 1 && s[0] == '-' && AllDigits(s[1..]) ==>
              ParseInt(s) == (if DigitsValue(s[1..]) <= -MinInt32 then Some(-(DigitsValue(s[1..]) as int)) else None)
  {
    BlankFails(s);
    StrayFails(s);
    DigitsParse(s);
    NegativeParse(s);
  }

  lemma BlankFails(s: string)
    ensures (forall i :: 0 <= i < |s| ==> IsWhite(s[i])) ==> ParseInt(s).None?
  {
    BlankHasNoDigits(s);
  }

  lemma StrayFails(s: string)
    ensures (exists i :: 0 <= i < |s| && !IsWhite(s[i]) && !IsDigit(s[i]) && s[i] != '-' && s[i] != '+') ==>
              ParseInt(s).None?
  {
    StrayCharRejected(s);
  }

  lemma DigitsParse(s: string)
    ensures s != [] && AllDigits(s) ==>
              ParseInt(s) == (if DigitsValue(s) <= MaxInt32 then Some(DigitsValue(s)) else None)
  {
    SignedDigitsUntrimmed(s);
  }

  lemma NegativeParse(s: string)
    ensures |s| > 1 && s[0] == '-' && AllDigits(s[1..]) ==>
              ParseInt(s) == (if DigitsValue(s[1..]) <= -MinInt32 then Some(-(DigitsValue(s[1..]) as int)) else None)
  {
    if |s| > 1 && s[0] == '-' && AllDigits(s[1..]) {
      SignedDigitsUntrimmed(s);
      var t := TrimEnd(TrimStart(s));
      assert t == s;
      var v: int := 0 - DigitsValue(s[1..]);
      assert IsInt32(v) <==> DigitsValue(s[1..]) <= -MinInt32;
    }
  }

  lemma BlankHasNoDigits(s: string)
    ensures (forall i :: 0 <= i < |s| ==> IsWhite(s[i])) ==> Trimmed(s) == []
  {
    var ts := TrimStart(s);
    if ts != [] {
      assert ts[0] == s[|s| - |ts|];
    }
  }

  /** A character that is neither white space, a digit nor a sign survives the
      trimming, and so is among the digits int.Parse reads. */
  lemma StrayCharRejected(s: string)
    ensures (exists i :: 0 <= i < |s| && !IsWhite(s[i]) && !IsDigit(s[i]) && s[i] != '-' && s[i] != '+') ==>
              !AllDigits(Magnitude(Trimmed(s)))
  {
    if exists i :: 0 <= i < |s| && !IsWhite(s[i]) && !IsDigit(s[i]) && s[i] != '-' && s[i] != '+' {
      var i :| 0 <= i < |s| && !IsWhite(s[i]) && !IsDigit(s[i]) && s[i] != '-' && s[i] != '+';
      var ts := TrimStart(s);
      var j := TrimStartKeeps(s, i);
      TrimEndKeeps(ts, j);
      StrayInMagnitude(TrimEnd(ts), j);
    }
  }

  /** A character that is not white space is kept by TrimStart, at index j. */
  lemma TrimStartKeeps(s: string, i: int) returns (j: int)
    requires 0 <= i < |s| && !IsWhite(s[i])
    ensures 0 <= j < |TrimStart(s)| && TrimStart(s)[j] == s[i]
  {
    var ts := TrimStart(s);
    j := i - (|s| - |ts|);
    assert ts[j] == s[|s| - |ts| + j];
  }

  /** A character that is not white space is kept by TrimEnd, at its own index. */
  lemma TrimEndKeeps(s: string, i: int)
    requires 0 <= i < |s| && !IsWhite(s[i])
    ensures i < |TrimEnd(s)| && TrimEnd(s)[i] == s[i]
  {
  }

  lemma StrayInMagnitude(t: string, j: int)
    requires 0 <= j < |t| && !IsDigit(t[j]) && t[j] != '-' && t[j] != '+'
    ensures !AllDigits(Magnitude(t))
  {
    var ds := Magnitude(t);
    if t[0] == '-' || t[0] == '+' {
      assert ds[j - 1] == t[j];
    } else {
      assert ds[j] == t[j];
    }
  }

  /** A run of digits, with or without a leading minus, has no white space to trim. */
  lemma SignedDigitsUntrimmed(s: string)
    ensures s != [] && AllDigits(s) ==> Magnitude(Trimmed(s)) == s && Trimmed(s) == s
    ensures |s| > 1 && s[0] == '-' && AllDigits(s[1..]) ==> Magnitude(Trimmed(s)) == s[1..] && Trimmed(s) == s
  {
    if (s != [] && AllDigits(s)) || (|s| > 1 && s[0] == '-' && AllDigits(s[1..])) {
      assert !IsWhite(s[0]);
      assert TrimStart(s) == s;
      assert IsDigit(s[|s| - 1]);
      assert TrimEnd(s) == s;
    }
  }

  /** The decimal digits of n, with no leading zero (Int32.ToString of a non-negative value). */
  function Digits(n: nat): (ds: string)
    ensures ds != [] && AllDigits(ds)
    ensures |ds| > 1 ==> ds[0] != '0'
  {
    if n < 10 then [('0' as int + n) as char]
    else Digits(n / 10) + [('0' as int + n % 10) as char]
  }

  /** Int32.ToString in the invariant culture. */
  function FormatInt(n: int): string
  {
    if n < 0 then "-" + Digits(-n) else Digits(n)
  }

  lemma {:induction false} DigitsRoundTrip(n: nat)
    ensures DigitsValue(Digits(n)) == n
  {
    if n >= 10 {
      DigitsRoundTrip(n / 10);
      var ds := Digits(n);
      assert ds[..|ds| - 1] == Digits(n / 10);
    }
  }

  /** An ad id written with ToString is parsed back to the same id. */
  lemma ParseFormatRoundTrip(n: int)
    requires IsInt32(n)
    ensures ParseInt(FormatInt(n)) == Some(n)
  {
    var s := FormatInt(n);
    var ds := Digits(if n < 0 then -n else n);
    DigitsRoundTrip(if n < 0 then -n else n);
    if n < 0 {
      assert s[1..] == ds;
    }
    SignedDigitsUntrimmed(s);
  }

  /** The ad id in a bare-id message: int.Parse(msg.AsString). The text of a
      JSON envelope starts with '{', which int.Parse rejects. */
  function BareId(p: Payload): Option<int>
  {
    match p
    case Text(s) => ParseInt(s)
    case Envelope(_) => None
  }

  /** An envelope never passes for a bare id, and a bare id always fits in 32 bits. */
  lemma BareIdCases(p: Payload)
    ensures p.Envelope? ==> BareId(p).None?
    ensures BareId(p).Some? ==> IsInt32(BareId(p).value)
    ensures p.Text? ==> BareId(p) == ParseInt(p.text)
  {
  }
}
