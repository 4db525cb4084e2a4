/** The file information of a ZFILE subpacket: a name, a zero byte, a decimal size, a zero byte. */
module FileInfo {
  import opened Bytes
  import opened Options

  const SPACE: byte := 32
  const PLUS: byte := 43
  const MINUS: byte := 45
  const MAX_INT64: int := 0x7fff_ffff_ffff_ffff

  // ----- splitting -----

  /** Everything before the first `b`. */
  function Before(data: seq<byte>, b: byte): seq<byte> {
    if data == [] || data[0] == b then [] else [data[0]] + Before(data[1..], b)
  }

  /** Everything after the first `b`, if there is one. */
  function After(data: seq<byte>, b: byte): Option<seq<byte>> {
    if data == [] then None
    else if data[0] == b then Some(data[1..])
    else After(data[1..], b)
  }

  // ----- decimal numbers -----

  predicate IsDigit(b: byte) { 48 <= b <= 57 }

  function Decimal(n: nat): seq<byte> {
    if n < 10 then [48 + n] else Decimal(n / 10) + [48 + n % 10]
  }

  /** The number written by a run of digits, read from the left. */
  function DigitsValue(s: seq<byte>): Option<nat> {
    if s == [] then Some(0)
    else
      var last := s[|s| - 1];
      match DigitsValue(s[..|s| - 1])
      case Some(v) => if IsDigit(last) then Some(10 * v + (last - 48)) else None
      case None => None
  }

  /** A signed decimal number of at most 64 bits. */
  function ParseInt(s: seq<byte>): Option<int> {
    var digits := if s != [] && (s[0] == PLUS || s[0] == MINUS) then s[1..] else s;
    if digits == [] then None
    else
      match DigitsValue(digits)
      case None => None
      case Some(v) =>
        var n: int := if s[0] == MINUS then -(v as int) else v;
        if -MAX_INT64 - 1 <= n <= MAX_INT64 then Some(n) else None
  }

  // ----- the whole record -----

  function Encode(name: seq<byte>, size: nat): seq<byte> { name + [0] + Decimal(size) + [0] }

  /** The size field: absent or empty counts as zero, and a space ends it. */
  function ParseSize(data: seq<byte>): (r: Result<int>)
    ensures r.Ok? ==> 0 <= r.value <= MAX_COUNT
  {
    var rest := After(data, 0);
    if rest.None? || Before(rest.value, 0) == [] then Ok(0)
    else
      match ParseInt(Before(Before(rest.value, 0), SPACE))
      case None => Err(MalformedFileSize)
      case Some(n) => if 0 <= n <= MAX_COUNT then Ok(n) else Err(CountOutOfRange)
  }

  // ----- parsing undoes encoding -----

  lemma {:induction false} BeforeAppend(a: seq<byte>, b: byte, rest: seq<byte>)
    requires b !in a
    ensures Before(a + [b] + rest, b) == a
    ensures After(a + [b] + rest, b) == Some(rest)
    ensures Before(a, b) == a
    decreases |a|
  {
    var whole := a + [b] + rest;
    if a == [] {
      assert whole == [b] + rest;
      assert whole[1..] == rest;
    } else {
      assert whole[1..] == a[1..] + [b] + rest;
      BeforeAppend(a[1..], b, rest);
      assert [a[0]] + a[1..] == a;
    }
  }

  lemma {:induction false} DecimalRoundTrip(n: nat)
    ensures Decimal(n) != [] && (forall i :: 0 <= i < |Decimal(n)| ==> IsDigit(Decimal(n)[i]))
    ensures DigitsValue(Decimal(n)) == Some(n)
    decreases n
  {
    var s := Decimal(n);
    if n >= 10 {
      DecimalRoundTrip(n / 10);
      assert s[..|s| - 1] == Decimal(n / 10);
    } else {
      assert s[..|s| - 1] == [];
    }
  }

  lemma ParseUndoesEncode(name: seq<byte>, size: nat)
    requires name != [] && 0 !in name && size <= MAX_COUNT
    ensures Before(Encode(name, size), 0) == name && ParseSize(Encode(name, size)) == Ok(size)
  {
    var digits := Decimal(size);
    DecimalRoundTrip(size);
    assert Encode(name, size) == name + [0] + (digits + [0]);
    BeforeAppend(name, 0, digits + [0]);
    assert digits + [0] == digits + [0] + [];
    BeforeAppend(digits, 0, []);
    BeforeAppend(digits, SPACE, []);
  }

  /** What follows the size behind a space, such as a modification time, does not matter. */
  lemma SizeEndsAtSpace(name: seq<byte>, size: nat, more: seq<byte>, rest: seq<byte>)
    requires 0 !in name && 0 !in more && size <= MAX_COUNT
    ensures ParseSize(name + [0] + (Decimal(size) + [32] + more) + [0] + rest) == Ok(size)
  {
    var field := Decimal(size) + [32] + more;
    DecimalRoundTrip(size);
    assert name + [0] + field + [0] + rest == name + [0] + (field + [0] + rest);
    BeforeAppend(name, 0, field + [0] + rest);
    BeforeAppend(field, 0, rest);
    BeforeAppend(Decimal(size), SPACE, more);
  }

  /** A size that is not there, or empty, is taken for zero. */
  lemma SizeMayBeMissing(name: seq<byte>, rest: seq<byte>)
    requires 0 !in name
    ensures ParseSize(name) == Ok(0) && ParseSize(name + [0]) == Ok(0) && ParseSize(name + [0] + [0] + rest) == Ok(0)
  {
    AfterNothing(name, 0);
    BeforeAppend(name, 0, []);
    BeforeAppend(name, 0, [0] + rest);
    assert name + [0] + [] == name + [0] && name + [0] + ([0] + rest) == name + [0] + [0] + rest;
  }

  lemma {:induction false} AfterNothing(data: seq<byte>, b: byte)
    requires b !in data
    ensures After(data, b).None?
    decreases |data|
  {
    if data != [] {
      AfterNothing(data[1..], b);
    }
  }

  /** A size with a sign in front of it: a plus changes nothing, and a number below zero is out of range. */
  lemma SizeMayBeSigned(name: seq<byte>, size: nat, rest: seq<byte>)
    requires 0 !in name && 0 < size <= MAX_COUNT
    ensures ParseSize(name + [0] + ([43] + Decimal(size)) + [0] + rest) == Ok(size)
    ensures ParseSize(name + [0] + ([45] + Decimal(size)) + [0] + rest) == Err(CountOutOfRange)
  {
    hide DigitsValue, Decimal;
    DecimalRoundTrip(size);
    forall sign: byte | sign == 43 || sign == 45
      ensures ParseSize(name + [0] + ([sign] + Decimal(size)) + [0] + rest) ==
        if sign == 43 then Ok(size) else Err(CountOutOfRange)
    {
      var field := [sign] + Decimal(size);
      assert name + [0] + field + [0] + rest == name + [0] + (field + [0] + rest);
      BeforeAppend(name, 0, field + [0] + rest);
      BeforeAppend(field, 0, rest);
      BeforeAppend(field, SPACE, []);
      assert field[1..] == Decimal(size);
    }
  }

  /** What the record of a file `a` of 4096 bytes looks like. */
  lemma RecordOnTheLine()
    ensures Encode([0x61], 4096) == [0x61, 0, 0x34, 0x30, 0x39, 0x36, 0]
  {
    assert Decimal(4) == [0x34] && Decimal(40) == [0x34, 0x30] && Decimal(409) == [0x34, 0x30, 0x39];
    assert Decimal(4096) == [0x34, 0x30, 0x39, 0x36];
  }

  lemma DecimalLength(n: nat)
    requires n <= MAX_COUNT
    ensures 1 <= |Decimal(n)| <= 10
  {
    DecimalBound(n, 10, 10_000_000_000);
  }

  /** A name of up to 8180 bytes fits a metadata subpacket with any size. */
  lemma MetadataFits(name: seq<byte>, size: nat)
    requires |name| <= 8180 && size <= MAX_COUNT
    ensures |Encode(name, size)| <= 8192
  {
    DecimalLength(size);
  }

  lemma {:induction false} DecimalBound(n: nat, k: nat, bound: nat)
    requires k > 0 && bound == PowerOf10(k) && n < bound
    ensures 1 <= |Decimal(n)| <= k
    decreases k
  {
    if n >= 10 {
      DecimalBound(n / 10, k - 1, PowerOf10(k - 1));
    }
  }

  function PowerOf10(k: nat): nat { if k == 0 then 1 else 10 * PowerOf10(k - 1) }
}
