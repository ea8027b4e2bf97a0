/** Integer formatting into a fixed buffer: base/logger/LogStreamff.cpp and base/logger/LogStreamff.h. */
module LogStream {

  /** The integer types `operator<<` formats. */
  datatype IntType = Int32 | UInt32 | Int64 | UInt64 {
    function Min(): int {
      match this case Int32 => -0x8000_0000 case Int64 => -0x8000_0000_0000_0000 case _ => 0
    }

    function Max(): int {
      match this
      case Int32 => 0x7FFF_FFFF
      case UInt32 => 0xFFFF_FFFF
      case Int64 => 0x7FFF_FFFF_FFFF_FFFF
      case UInt64 => 0xFFFF_FFFF_FFFF_FFFF
    }

    predicate Holds(v: int) {
      Min() <= v <= Max()
    }
  }

  const MAX_NUMERIC_SIZE := 32

  // ---------------------------------------------------------------- the decimal text of an integer

  function Digit(d: int): char
    requires 0 <= d < 10
  {
    "0123456789"[d]
  }

  /** Digits of a natural number, most significant first; none for zero. */
  function Digits(n: nat): string {
    if n == 0 then "" else Digits(n / 10) + [Digit(n % 10)]
  }

  function Abs(v: int): nat {
    if v < 0 then -v else v
  }

  /** The usual text: a minus sign if negative, no leading zero. */
  function Decimal(v: int): string {
    if v == 0 then "0" else if v < 0 then "-" + Digits(-v) else Digits(v)
  }

  function DigitValue(c: char): int {
    c as int - '0' as int
  }

  predicate IsDigit(c: char) {
    '0' <= c <= '9'
  }

  /** Reading digits back. */
  function ParseNat(s: string): int {
    if s == "" then 0 else 10 * ParseNat(s[..|s| - 1]) + DigitValue(s[|s| - 1])
  }

  datatype Parsed = NotANumber | Number(value: int)

  /** A reader of decimal texts: an optional minus sign and at least one digit. */
  function Parse(s: string): Parsed {
    var body := if s != "" && s[0] == '-' then s[1..] else s;
    if body == "" || exists c :: c in body && !IsDigit(c) then NotANumber
    else Number(if body != s then -ParseNat(body) else ParseNat(body))
  }

  lemma {:induction false} DigitsAreDigits(n: nat)
    ensures forall c :: c in Digits(n) ==> IsDigit(c)
    ensures n != 0 ==> Digits(n) != "" && Digits(n)[0] != '0'
  {
    if n != 0 {
      DigitsAreDigits(n / 10);
    }
  }

  lemma {:induction false} ParseDigits(n: nat)
    ensures forall c :: c in Digits(n) ==> IsDigit(c)
    ensures ParseNat(Digits(n)) == n
  {
    DigitsAreDigits(n);
    if n != 0 {
      ParseDigits(n / 10);
      assert Digits(n)[..|Digits(n)| - 1] == Digits(n / 10);
    }
  }

  function Pow10(k: nat): nat {
    if k == 0 then 1 else 10 * Pow10(k - 1)
  }

  lemma {:induction false} DigitsLength(n: nat, k: nat)
    requires n < Pow10(k)
    ensures |Digits(n)| <= k
  {
    if n != 0 {
      DigitsLength(n / 10, k - 1);
    }
  }

  lemma ParseZero()
    ensures Parse("0") == Number(0)
  {
    var z := "0";
    assert z[..0] == "" && ParseNat("") == 0;
    assert forall c :: c in z ==> c == '0' && IsDigit(c);
  }

  /** Reading a decimal text gives the integer back, for every integer. */
  /** The text in plain terms: its last character is the last digit, the rest is the text of the rest, and a
      minus sign stands in front exactly for a negative number. */
  lemma DecimalExactly(v: int)
    ensures 0 <= v <= 9 ==> Decimal(v) == ["0123456789"[v]]
    ensures v >= 10 ==> Decimal(v) == Decimal(v / 10) + ["0123456789"[v % 10]]
    ensures v < 0 ==> Decimal(v) == "-" + Decimal(-v)
  {
    if 1 <= v <= 9 {
      assert Digits(v) == Digits(0) + [Digit(v)];
    }
  }

  lemma DecimalRoundTrip(v: int)
    ensures Parse(Decimal(v)) == Number(v)
  {
    DigitsAreDigits(Abs(v));
    ParseDigits(Abs(v));
    if v < 0 {
      assert Decimal(v)[1..] == Digits(-v);
    } else if v == 0 {
      ParseZero();
    } else {
      assert Digits(v)[0] in Digits(v);
    }
  }

  // ---------------------------------------------------------------- digit extraction as the code does it

  /** `/` and `%` of C++ truncate toward zero, so the remainder has the sign of the dividend. */
  function Quot(i: int): int {
    if i < 0 then -(-i / 10) else i / 10
  }

  function Rem(i: int): int {
    if i < 0 then -(-i % 10) else i % 10
  }

  /** `zero[lsd]`: the table "9876543210123456789" read from its middle. */
  function FromTable(lsd: int): char
    requires -9 <= lsd <= 9
  {
    "9876543210123456789"[9 + lsd]
  }

  function Reverse(s: string): string {
    if s == "" then "" else Reverse(s[1..]) + [s[0]]
  }

  lemma {:induction false} ReverseAppend(s: string, t: string)
    ensures Reverse(s + t) == Reverse(t) + Reverse(s)
  {
    if s == "" {
      assert s + t == t;
      assert Reverse(t) + "" == Reverse(t);
    } else {
      ReverseAppend(s[1..], t);
      assert (s + t)[1..] == s[1..] + t;
    }
  }

  lemma {:induction false} ReverseIndex(s: string)
    ensures |Reverse(s)| == |s|
    ensures forall k :: 0 <= k < |s| ==> Reverse(s)[k] == s[|s| - 1 - k]
  {
    if s != "" {
      ReverseIndex(s[1..]);
    }
  }

  lemma ReversedByIndex(s: string, t: string)
    requires |t| == |s| && forall k :: 0 <= k < |s| ==> t[k] == s[|s| - 1 - k]
    ensures t == Reverse(s)
  {
    ReverseIndex(s);
  }

  lemma ReverseSnoc(s: string, c: char)
    ensures Reverse(s + [c]) == [c] + Reverse(s)
  {
    ReverseAppend(s, [c]);
    assert Reverse([c]) == [c];
  }

  /** A digit written at the end of the reversed text is a digit taken from the end of what remains. */
  lemma MoveDigit(rest: string, c: char, done: string)
    ensures rest + Reverse(done + [c]) == rest + [c] + Reverse(done)
  {
    ReverseSnoc(done, c);
    assert rest + ([c] + Reverse(done)) == rest + [c] + Reverse(done);
  }

  /** One digit off: the sign never has to be removed, so the smallest integer is no special case. */
  lemma OneDigit(i: int)
    requires i != 0
    ensures -9 <= Rem(i) <= 9 && FromTable(Rem(i)) == Digit(Abs(i) % 10)
    ensures Abs(Quot(i)) == Abs(i) / 10 && (i < 0 ==> Quot(i) <= 0) && (i > 0 ==> Quot(i) >= 0)
    ensures Digits(Abs(i)) == Digits(Abs(Quot(i))) + [FromTable(Rem(i))]
    ensures forall t: IntType :: t.Holds(i) ==> t.Holds(Quot(i))
  {
  }

  lemma Fits(t: IntType, v: int)
    requires t.Holds(v)
    ensures |Digits(Abs(v))| <= 20
  {
    assert Pow10(20) == 1_0000_0000_0000_0000_0000 by {
      assert Pow10(5) == 100000;
      assert Pow10(10) == 100000 * 100000;
      assert Pow10(15) == 100000 * 100000 * 100000;
    }
    DigitsLength(Abs(v), 20);
  }

  /** What `convert` writes for `val`. */
  function ConvertText(val: int): string {
    if val == 0 then "" else Decimal(val)
  }

  /** The text reads back as the integer exactly when the integer is not zero. */
  lemma ConvertReadsBack(val: int)
    ensures Parse(ConvertText(val)) == Number(val) <==> val != 0
  {
    DecimalRoundTrip(val);
  }

  // ---------------------------------------------------------------- the buffer

  class FixedBufferff {
    const data: array<char>
    var cur: nat

    ghost predicate Valid()
      reads this
    {
      cur <= data.Length
    }

    ghost function Contents(): string
      reads this, data
      requires Valid()
    {
      data[..cur]
    }

    constructor (size: nat)
      ensures Valid() && fresh(data) && data.Length == size && Contents() == ""
    {
      data := new char[size];
      cur := 0;
    }

    method Avail() returns (n: nat)
      requires Valid()
      ensures n == data.Length - |Contents()|
    {
      n := data.Length - cur;
    }

    method Reset()
      modifies this
      ensures Valid() && Contents() == ""
    {
      cur := 0;
    }

    /** Appends what fits. */
    method Append(s: string)
      requires Valid()
      modifies this, data
      ensures Valid()
      ensures Contents() == old(Contents()) + s[..if |s| <= data.Length - |old(Contents())|
        then |s| else data.Length - |old(Contents())|]
    {
      var len := |s|;
      if data.Length - cur < len {
        len := data.Length - cur;
      }
      var i := 0;
      while i < len
        invariant 0 <= i <= len && cur == old(cur)
        invariant data[..cur] == old(data[..cur])
        invariant data[cur..cur + i] == s[..i]
      {
        data[cur + i] := s[i];
        i := i + 1;
      }
      cur := cur + len;
      assert data[..cur] == data[..old(cur)] + data[old(cur)..cur];
    }

    /** The digits of `val`, least significant first, from `cur` on. */
    method Extract(val: int, t: IntType) returns (p: nat)
      requires Valid() && t.Holds(val) && data.Length - cur >= MAX_NUMERIC_SIZE
      modifies data
      ensures p == cur + |Digits(Abs(val))| && |Digits(Abs(val))| <= 20
      ensures Reverse(data[cur..p]) == Digits(Abs(val))
      ensures data[..cur] == old(data[..cur])
    {
      var i := val;
      p := cur;
      Fits(t, val);
      assert data[cur..p] == "";
      while i != 0
        invariant cur <= p <= data.Length && t.Holds(i)
        invariant val < 0 ==> i <= 0
        invariant val >= 0 ==> i >= 0
        invariant Digits(Abs(i)) + Reverse(data[cur..p]) == Digits(Abs(val))
        invariant p == cur + |Digits(Abs(val))| - |Digits(Abs(i))|
        invariant data[..cur] == old(data[..cur])
        decreases Abs(i)
      {
        OneDigit(i);
        var lsd := Rem(i);
        ghost var done := data[cur..p];
        data[p] := FromTable(lsd);
        p := p + 1;
        assert data[cur..p] == done + [FromTable(lsd)];
        MoveDigit(Digits(Abs(Quot(i))), FromTable(lsd), done);
        i := Quot(i);
      }
    }

    /** `std::reverse(data + lo, data + hi)`. */
    method ReverseRange(lo: nat, hi: nat)
      requires lo <= hi <= data.Length
      modifies data
      ensures data[lo..hi] == Reverse(old(data[lo..hi]))
      ensures data[..lo] == old(data[..lo]) && data[hi..] == old(data[hi..])
    {
      var i, j := lo, hi;
      while i < j && i < j - 1
        invariant lo <= i <= j <= hi && i - lo == hi - j
        invariant forall k :: lo <= k < i ==> data[k] == old(data[lo + hi - 1 - k])
        invariant forall k :: j <= k < hi ==> data[k] == old(data[lo + hi - 1 - k])
        invariant forall k :: i <= k < j ==> data[k] == old(data[k])
        invariant data[..lo] == old(data[..lo]) && data[hi..] == old(data[hi..])
        decreases j - i
      {
        j := j - 1;
        data[i], data[j] := data[j], data[i];
        i := i + 1;
      }
      ghost var was := old(data[lo..hi]);
      forall k | 0 <= k < hi - lo ensures data[lo..hi][k] == was[hi - lo - 1 - k] {
        var m := lo + k;
        assert m < i || m >= j || (i <= m < j && lo + hi - 1 - m == m);
        assert data[m] == old(data[lo + hi - 1 - m]);
        assert was[hi - lo - 1 - k] == old(data[hi - 1 - k]);
      }
      ReversedByIndex(was, data[lo..hi]);
    }

    /** `convert(buf, val)` with `buf` the write position.  It writes the decimal text of `val`, a terminator
        inside the 32 bytes it may use, and returns the length; but for zero the text is empty. */
    method Convert(val: int, t: IntType) returns (len: nat)
      requires Valid() && t.Holds(val) && data.Length - cur >= MAX_NUMERIC_SIZE
      modifies data
      ensures len < 32 && data[cur + len] == '\0'
      ensures data[cur..cur + len] == ConvertText(val)
      ensures data[..cur] == old(data[..cur])
    {
      var p := WriteBackwards(val, t);
      p := Terminate(p);
      ReverseRange(cur, p);
      len := p - cur;
      assert data[p] == data[p..][0];
    }

    /** The digits and then the sign, all in the wrong order. */
    method WriteBackwards(val: int, t: IntType) returns (p: nat)
      requires Valid() && t.Holds(val) && data.Length - cur >= MAX_NUMERIC_SIZE
      modifies data
      ensures cur <= p < cur + MAX_NUMERIC_SIZE && Reverse(data[cur..p]) == ConvertText(val)
      ensures data[..cur] == old(data[..cur])
    {
      p := Extract(val, t);
      if val < 0 {
        ghost var digits := data[cur..p];
        data[p] := '-';
        p := p + 1;
        assert data[cur..p] == digits + ['-'];
        ReverseSnoc(digits, '-');
      }
    }

    /** `*p='\0'`. */
    method Terminate(p: nat) returns (q: nat)
      requires Valid() && cur <= p < data.Length
      modifies data
      ensures q == p && data[p] == '\0' && data[..p] == old(data[..p]) && data[cur..p] == old(data[cur..p])
    {
      data[p] := '\0';
      q := p;
    }

    /** `operator<<` of an integer: appended whole when 32 bytes are free, otherwise nothing. */
    method FormatInteger(val: int, t: IntType)
      requires Valid() && t.Holds(val)
      modifies this, data
      ensures Valid()
      ensures Contents() == old(Contents()) +
        if data.Length - |old(Contents())| >= 32 then ConvertText(val) else ""
    {
      if data.Length - cur >= MAX_NUMERIC_SIZE {
        var len := Convert(val, t);
        cur := cur + len;
        assert data[..cur] == data[..old(cur)] + data[old(cur)..cur];
      }
    }
  }
}
