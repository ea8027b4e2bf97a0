/** The byte buffer of net/Bufferff.h and net/Bufferff.cpp, changed in place.  Every operation refines the same
    operation on a plain byte sequence, its readable bytes. */
module Buffer {
  import opened Common

  /** A C++ `char` of the buffer, by its value as an unsigned byte. */
  type Byte = c: char | c as int < 256 witness '\0'

  const CHEAP_PREPEND: nat := 8
  const INITIAL_SIZE: nat := 1024

  /** `char extrabuf[65536]` of `readFd`. */
  const EXTRA_SIZE: nat := 65536

  /** What `readv` returns. */
  datatype ReadResult = Failed(errno: int) | Bytes(bytes: seq<Byte>)

  // ---------------------------------------------------------------- searching for CR LF

  predicate CrlfAt(s: seq<char>, i: nat) {
    i + 1 < |s| && s[i] == '\r' && s[i + 1] == '\n'
  }

  /** The first CR LF, if any. */
  function FindCrlf(s: seq<char>): (r: Option<nat>)
    ensures r.Some? ==> CrlfAt(s, r.value) && forall j :: 0 <= j < r.value ==> !CrlfAt(s, j)
    ensures r.None? ==> forall j: nat :: !CrlfAt(s, j)
  {
    FindCrlfFrom(s, 0)
  }

  function FindCrlfFrom(s: seq<char>, i: nat): (r: Option<nat>)
    requires i <= |s|
    ensures r.Some? ==> i <= r.value && CrlfAt(s, r.value) && forall j :: i <= j < r.value ==> !CrlfAt(s, j)
    ensures r.None? ==> forall j: nat :: i <= j ==> !CrlfAt(s, j)
    decreases |s| - i
  {
    if i == |s| then None else if CrlfAt(s, i) then Some(i) else FindCrlfFrom(s, i + 1)
  }

  // ---------------------------------------------------------------- integers in network byte order

  function Pow256(w: nat): (p: nat)
    ensures p > 0
  {
    if w == 0 then 1 else 256 * Pow256(w - 1)
  }

  /** The `w` bytes of `u`, most significant first. */
  function BigEndian(u: nat, w: nat): (s: seq<Byte>)
    requires u < Pow256(w)
    ensures |s| == w
  {
    if w == 0 then [] else BigEndian(u / 256, w - 1) + [(u % 256) as char]
  }

  function FromBigEndian(s: seq<Byte>): nat {
    if s == [] then 0 else 256 * FromBigEndian(s[..|s| - 1]) + s[|s| - 1] as int
  }

  /** Two's complement of width `w` bytes. */
  function ToUnsigned(x: int, w: nat): int {
    if x < 0 then x + Pow256(w) else x
  }

  function ToSigned(u: nat, w: nat): int {
    if 2 * u < Pow256(w) then u else u - Pow256(w)
  }

  predicate IntFits(x: int, w: nat) {
    0 <= 2 * x + Pow256(w) && 2 * x < Pow256(w)
  }

  function Encode(x: int, w: nat): (s: seq<Byte>)
    requires IntFits(x, w)
    ensures |s| == w
  {
    BigEndian(ToUnsigned(x, w), w)
  }

  function Decode(s: seq<Byte>): int {
    ToSigned(FromBigEndian(s), |s|)
  }

  lemma {:induction false} BigEndianRoundTrip(u: nat, w: nat)
    requires u < Pow256(w)
    ensures FromBigEndian(BigEndian(u, w)) == u
  {
    if w != 0 {
      BigEndianRoundTrip(u / 256, w - 1);
      assert BigEndian(u, w)[..w - 1] == BigEndian(u / 256, w - 1);
    }
  }

  lemma Widths()
    ensures Pow256(1) == 256 && Pow256(2) == 65536 && Pow256(4) == 4294967296
    ensures Pow256(8) == 18446744073709551616
  {
    assert Pow256(2) == 256 * Pow256(1) && Pow256(4) == 256 * (256 * Pow256(2));
    assert Pow256(8) == 256 * (256 * (256 * (256 * Pow256(4))));
  }

  lemma DivideTwice(u: nat, p: nat)
    requires p > 0
    ensures (u / 256) / p == u / (256 * p)
  {
    var q, r := u / 256, u % 256;
    var a, b := q / p, q % p;
    assert u == 256 * (a * p + b) + r;
    assert u == (256 * p) * a + (256 * b + r) by { assert 256 * (a * p) == (256 * p) * a; }
    assert 0 <= 256 * b + r < 256 * p;
    QuotientIs(u, 256 * p, a, 256 * b + r);
  }

  lemma QuotientIs(u: nat, d: nat, a: nat, r: nat)
    requires d > 0 && u == d * a + r && r < d
    ensures u / d == a
  {
    var q := u / d;
    assert u == d * q + u % d;
    assert d * (q - a) == r - u % d;
    MultipleGrows(d, q - a);
  }

  lemma MultipleGrows(d: int, z: int)
    requires d >= 0
    ensures z >= 1 ==> d * z >= d
    ensures z <= -1 ==> d * z <= -d
  {
    if z >= 1 {
      assert d * z == d * (z - 1) + d;
    } else if z <= -1 {
      assert d * z == d * (z + 1) - d;
    }
  }

  /** Network byte order: byte k is the digit of weight 256^(w-1-k), so the most significant comes first. */
  lemma {:induction false} ByteAt(u: nat, w: nat, k: nat)
    requires u < Pow256(w) && k < w
    ensures BigEndian(u, w)[k] as int == (u / Pow256(w - 1 - k)) % 256
  {
    if k < w - 1 {
      ByteAt(u / 256, w - 1, k);
      DivideTwice(u, Pow256(w - 2 - k));
    }
  }

  /** The bytes an integer is written as: two's complement, most significant first. */
  predicate NetworkBytes(s: seq<Byte>, x: int, w: nat) {
    && |s| == w
    && forall k :: 0 <= k < w ==> s[k] as int == ((if x < 0 then x + Pow256(w) else x) / Pow256(w - 1 - k)) % 256
  }

  lemma EncodeIsNetworkBytes(x: int, w: nat)
    requires IntFits(x, w)
    ensures NetworkBytes(Encode(x, w), x, w)
  {
    forall k | 0 <= k < w
      ensures Encode(x, w)[k] as int == (ToUnsigned(x, w) / Pow256(w - 1 - k)) % 256
    {
      ByteAt(ToUnsigned(x, w), w, k);
    }
  }

  lemma NetworkBytesUnique(s: seq<Byte>, t: seq<Byte>, x: int, w: nat)
    requires NetworkBytes(s, x, w) && NetworkBytes(t, x, w)
    ensures s == t
  {
    forall k | 0 <= k < w ensures s[k] == t[k] {
      assert s[k] as int == t[k] as int;
    }
  }

  /** Reading an integer back gives the integer written, for every width and every value that fits it. */
  lemma IntRoundTrip(x: int, w: nat)
    requires IntFits(x, w)
    ensures Decode(Encode(x, w)) == x
  {
    BigEndianRoundTrip(ToUnsigned(x, w), w);
  }

  // ---------------------------------------------------------------- the buffer

  function Max(a: int, b: int): int {
    if a < b then b else a
  }

  lemma SliceSplits(a: array<Byte>, x: nat, y: nat, z: nat)
    requires x <= y <= z <= a.Length
    ensures a[x..z] == a[x..y] + a[y..z]
  {
  }

  class Bufferff {
    var buf: array<Byte>
    var readerIndex: nat
    var writerIndex: nat

    ghost predicate Valid()
      reads this
    {
      readerIndex <= writerIndex <= buf.Length && CHEAP_PREPEND <= buf.Length
    }

    /** The readable bytes. */
    ghost function Contents(): seq<Byte>
      requires Valid()
      reads this, buf
    {
      buf[readerIndex..writerIndex]
    }

    constructor (initialSize: nat)
      ensures Valid() && Contents() == [] && fresh(buf) && buf.Length == 8 + initialSize
      ensures readerIndex == 8
    {
      buf := new Byte[CHEAP_PREPEND + initialSize](_ => '\0');
      readerIndex := CHEAP_PREPEND;
      writerIndex := CHEAP_PREPEND;
    }

    function ReadableBytes(): nat
      requires Valid()
      reads this
    {
      writerIndex - readerIndex
    }

    function WritableBytes(): nat
      requires Valid()
      reads this
    {
      buf.Length - writerIndex
    }

    // -------------------------------------------------------------- reading

    /** `findCRLF`: the offset from `peek()`. */
    method FindCRLF() returns (r: Option<nat>)
      requires Valid()
      ensures r == FindCrlf(Contents())
    {
      var i := readerIndex;
      while i < writerIndex
        invariant readerIndex <= i <= writerIndex
        invariant FindCrlfFrom(Contents(), i - readerIndex) == FindCrlf(Contents())
      {
        assert forall k :: 0 <= k < |Contents()| ==> Contents()[k] == buf[readerIndex + k];
        if i + 1 < writerIndex && buf[i] == '\r' && buf[i + 1] == '\n' {
          return Some(i - readerIndex);
        }
        i := i + 1;
      }
      r := None;
    }

    method RetrieveAll()
      requires Valid()
      modifies this
      ensures Valid() && buf == old(buf) && Contents() == []
    {
      readerIndex := CHEAP_PREPEND;
      writerIndex := CHEAP_PREPEND;
    }

    method Retrieve(len: nat)
      requires Valid() && len <= ReadableBytes()
      modifies this
      ensures Valid() && buf == old(buf) && Contents() == old(Contents())[len..]
    {
      if len < ReadableBytes() {
        readerIndex := readerIndex + len;
      } else {
        RetrieveAll();
      }
    }

    method RetrieveAsString(len: nat) returns (s: seq<Byte>)
      requires Valid() && len <= ReadableBytes()
      modifies this
      ensures Valid() && buf == old(buf) && old(Contents()) == s + Contents() && |s| == len
    {
      s := buf[readerIndex..readerIndex + len];
      Retrieve(len);
    }

    method Unwrite(len: nat)
      requires Valid() && len <= ReadableBytes()
      modifies this
      ensures Valid() && buf == old(buf) && Contents() == old(Contents())[..|old(Contents())| - len]
    {
      writerIndex := writerIndex - len;
    }

    // -------------------------------------------------------------- making room

    /** `buffer_.resize(n)` to a larger size. */
    method Resize(n: nat)
      requires Valid() && n >= buf.Length
      modifies this`buf
      ensures Valid() && fresh(buf) && buf.Length == n
      ensures forall k :: 0 <= k < old(buf.Length) ==> buf[k] == old(buf[k])
    {
      var was := buf;
      var bigger := new Byte[n](_ => '\0');
      var i := 0;
      while i < was.Length
        invariant 0 <= i <= was.Length && buf == was
        invariant forall k :: 0 <= k < i ==> bigger[k] == was[k]
      {
        bigger[i] := was[i];
        i := i + 1;
      }
      buf := bigger;
    }

    /** `std::copy` of the readable bytes down to the cheap prefix.  The ranges may overlap; copying
        forward is right because the target is below the source. */
    method MoveDown()
      requires Valid() && CHEAP_PREPEND < readerIndex
      modifies this`readerIndex, this`writerIndex, buf
      ensures Valid() && Contents() == old(Contents()) && readerIndex == CHEAP_PREPEND
    {
      var readable := writerIndex - readerIndex;
      var k := 0;
      while k < readable
        invariant 0 <= k <= readable
        invariant readerIndex == old(readerIndex) && writerIndex == old(writerIndex)
        invariant buf[CHEAP_PREPEND..CHEAP_PREPEND + k] == old(buf[readerIndex..readerIndex + k])
        invariant buf[readerIndex + k..writerIndex] == old(buf[readerIndex + k..writerIndex])
      {
        ghost var tail := buf[readerIndex + k..writerIndex];
        assert tail[0] == old(buf[readerIndex + k]) && buf[readerIndex + k] == tail[0];
        buf[CHEAP_PREPEND + k] := buf[readerIndex + k];
        assert buf[readerIndex + k + 1..writerIndex] == tail[1..];
        k := k + 1;
      }
      readerIndex := CHEAP_PREPEND;
      writerIndex := readerIndex + readable;
    }

    /** `makeSpace`.  It is called only when the writable bytes are too few, and then its assert holds. */
    method MakeSpace(len: nat)
      requires Valid() && WritableBytes() < len
      modifies this, buf
      ensures Valid() && (buf == old(buf) || fresh(buf))
      ensures Contents() == old(Contents()) && WritableBytes() >= len
      ensures old(buf.Length) <= buf.Length <= Max(old(buf.Length), 2 * (|old(Contents())| + len) + 7)
      ensures buf != old(buf) ==> buf.Length == old(writerIndex) + len
    {
      if WritableBytes() + readerIndex < len + CHEAP_PREPEND {
        Resize(writerIndex + len);
      } else {
        assert CHEAP_PREPEND < readerIndex;
        MoveDown();
      }
    }

    method EnsureWritableBytes(len: nat)
      requires Valid()
      modifies this, buf
      ensures Valid() && (buf == old(buf) || fresh(buf))
      ensures Contents() == old(Contents()) && WritableBytes() >= len
      ensures old(buf.Length) <= buf.Length <= Max(old(buf.Length), 2 * (|old(Contents())| + len) + 7)
      ensures old(WritableBytes()) >= len ==> buf == old(buf) && WritableBytes() == old(WritableBytes())
    {
      if WritableBytes() < len {
        MakeSpace(len);
      }
    }

    // -------------------------------------------------------------- writing

    /** Copy into the writable bytes and advance. */
    method WriteHere(data: seq<Byte>)
      requires Valid() && |data| <= WritableBytes()
      modifies this`writerIndex, buf
      ensures Valid() && Contents() == old(Contents()) + data && writerIndex == old(writerIndex) + |data|
    {
      var i := 0;
      while i < |data|
        invariant 0 <= i <= |data| && writerIndex == old(writerIndex)
        invariant buf[readerIndex..writerIndex] == old(Contents())
        invariant buf[writerIndex..writerIndex + i] == data[..i]
      {
        buf[writerIndex + i] := data[i];
        i := i + 1;
      }
      assert buf[readerIndex..writerIndex + i] == buf[readerIndex..writerIndex] + buf[writerIndex..writerIndex + i];
      writerIndex := writerIndex + |data|;
    }

    method Append(data: seq<Byte>)
      requires Valid()
      modifies this, buf
      ensures Valid() && (buf == old(buf) || fresh(buf))
      ensures Contents() == old(Contents()) + data
      ensures old(buf.Length) <= buf.Length <= Max(old(buf.Length), 2 * (|old(Contents())| + |data|) + 7)
      ensures old(WritableBytes()) >= |data| ==> buf == old(buf) && WritableBytes() == old(WritableBytes()) - |data|
    {
      EnsureWritableBytes(|data|);
      WriteHere(data);
    }

    method Prepend(data: seq<Byte>)
      requires Valid() && |data| <= readerIndex
      modifies this`readerIndex, buf
      ensures Valid() && Contents() == data + old(Contents())
    {
      var from := readerIndex;
      readerIndex := readerIndex - |data|;
      var i := 0;
      while i < |data|
        invariant 0 <= i <= |data| && readerIndex == from - |data|
        invariant buf[readerIndex..readerIndex + i] == data[..i]
        invariant buf[from..writerIndex] == old(Contents())
      {
        buf[readerIndex + i] := data[i];
        i := i + 1;
      }
      assert data[..i] == data;
      assert buf[readerIndex..from] == data;
      SliceSplits(buf, readerIndex, from, writerIndex);
    }

    /** `shrink`: a buffer just large enough takes over. */
    method Shrink(reserve: nat)
      requires Valid()
      modifies this, buf
      ensures Valid() && fresh(buf) && Contents() == old(Contents()) && WritableBytes() >= reserve
      ensures buf.Length <= Max(8 + 1024, 2 * (|Contents()| + reserve) + 7)
    {
      var other := new Bufferff(INITIAL_SIZE);
      other.EnsureWritableBytes(ReadableBytes() + reserve);
      other.Append(buf[readerIndex..writerIndex]);
      buf, readerIndex, writerIndex := other.buf, other.readerIndex, other.writerIndex;
    }

    /** `readFd`: scatter into the writable bytes and, when they are few, a spare area; what spilled is appended. */
    method ReadFd(r: ReadResult) returns (n: int, savedErrno: Option<int>)
      requires Valid()
      requires r.Bytes? ==> |r.bytes| <= WritableBytes() + (if WritableBytes() < EXTRA_SIZE then EXTRA_SIZE else 0)
      modifies this, buf
      ensures Valid() && (buf == old(buf) || fresh(buf))
      ensures r.Bytes? ==> n == |r.bytes| && savedErrno == None && Contents() == old(Contents()) + r.bytes
      ensures old(buf.Length) <= buf.Length <= Max(old(buf.Length), 2 * |Contents()| + 7)
      ensures r.Failed? ==> n < 0 && savedErrno == Some(r.errno) && Contents() == old(Contents())
    {
      var writable := WritableBytes();
      match r
      case Failed(errno) =>
        return -1, Some(errno);
      case Bytes(bytes) =>
        n, savedErrno := |bytes|, None;
        if |bytes| <= writable {
          WriteHere(bytes);
        } else {
          WriteHere(bytes[..writable]);
          Append(bytes[writable..]);
          assert bytes == bytes[..writable] + bytes[writable..];
        }
    }

    // -------------------------------------------------------------- integers

    method AppendInt(x: int, width: nat)
      requires Valid() && IntFits(x, width)
      modifies this, buf
      ensures Valid() && (buf == old(buf) || fresh(buf)) && Contents() == old(Contents()) + Encode(x, width)
      ensures old(Contents()) <= Contents() && NetworkBytes(Contents()[|old(Contents())|..], x, width)
    {
      EncodeIsNetworkBytes(x, width);
      Append(Encode(x, width));
    }

    method PrependInt(x: int, width: nat)
      requires Valid() && IntFits(x, width) && width <= readerIndex
      modifies this`readerIndex, buf
      ensures Valid() && Contents() == Encode(x, width) + old(Contents())
      ensures |Contents()| == width + |old(Contents())| && NetworkBytes(Contents()[..width], x, width)
    {
      EncodeIsNetworkBytes(x, width);
      Prepend(Encode(x, width));
    }

    /** Undoes `appendInt` and `prependInt` of the same width. */
    method ReadInt(width: nat) returns (x: int)
      requires Valid() && width <= ReadableBytes()
      modifies this
      ensures Valid() && buf == old(buf) && Contents() == old(Contents())[width..]
      ensures x == Decode(old(Contents())[..width])
      ensures forall y :: IntFits(y, width) && Encode(y, width) <= old(Contents()) ==> x == y
      ensures forall y :: IntFits(y, width) && NetworkBytes(old(Contents())[..width], y, width) ==> x == y
    {
      ghost var head := Contents()[..width];
      assert head == buf[readerIndex..readerIndex + width];
      x := Decode(buf[readerIndex..readerIndex + width]);
      forall y | IntFits(y, width) && Encode(y, width) <= Contents() ensures x == y {
        IntRoundTrip(y, width);
        assert Encode(y, width) == head;
      }
      forall y | IntFits(y, width) && NetworkBytes(head, y, width) ensures x == y {
        IntRoundTrip(y, width);
        EncodeIsNetworkBytes(y, width);
        NetworkBytesUnique(head, Encode(y, width), y, width);
      }
      Retrieve(width);
    }
  }
}
