/** Little-endian integers, length-prefixed strings and sorted maps of the token byte format.
    Each Read function consumes a prefix of its input; a failed read leaves an empty reader behind,
    because a short read takes whatever was left. */
module TokenBytes {
  type byte = x: int | 0 <= x < 256
  type u16 = x: int | 0 <= x < 0x1_0000
  type u32 = x: int | 0 <= x < 0x1_0000_0000
  type i16 = x: int | -0x8000 <= x < 0x8000
  type Bytes = seq<byte>

  const LIMIT16: nat := 0x1_0000

  datatype Parsed<+T> = Ok(value: T, rest: Bytes) | Fail {
    /** The reader's remaining bytes after this read. */
    function After(): Bytes {
      if Ok? then rest else []
    }

    /** The value a caller sees, which is the zero value when the read failed. */
    function ValueOr(zero: T): T {
      if Ok? then value else zero
    }
  }

  lemma Assoc(a: Bytes, b: Bytes, c: Bytes)
    ensures (a + b) + c == a + (b + c)
  {
  }

  lemma Assoc3(a: Bytes, b: Bytes, c: Bytes, d: Bytes)
    ensures a + b + c + d == a + (b + (c + d))
  {
  }

  // ----- integers -----

  /** The two-byte number at position i, least significant byte first. */
  function At16(bs: Bytes, i: nat): int
    requires i + 2 <= |bs|
  {
    var low: int, high: int := bs[i], bs[i + 1];
    low + 0x100 * high
  }

  /** The four-byte number at position i, least significant byte first. */
  function At32(bs: Bytes, i: nat): int
    requires i + 4 <= |bs|
  {
    At16(bs, i) + 0x1_0000 * At16(bs, i + 2)
  }

  function PackU16(n: u16): (r: Bytes)
    ensures |r| == 2 && At16(r, 0) == n
  {
    [n % 256, n / 256]
  }

  function ReadU16(bs: Bytes): (p: Parsed<u16>)
    ensures p.Ok? <==> |bs| >= 2
  {
    if |bs| < 2 then Fail else
      var b0: int, b1: int := bs[0], bs[1];
      Ok(b0 + 0x100 * b1, bs[2..])
  }

  function PackU32(n: u32): (r: Bytes)
    ensures |r| == 4 && At32(r, 0) == n
  {
    assert n / 0x100 == 0x100 * (n / 0x1_0000) + n / 0x100 % 0x100;
    assert n / 0x1_0000 == 0x100 * (n / 0x100_0000) + n / 0x1_0000 % 0x100;
    [n % 256, n / 0x100 % 256, n / 0x1_0000 % 256, n / 0x100_0000]
  }

  function ReadU32(bs: Bytes): (p: Parsed<u32>)
    ensures p.Ok? <==> |bs| >= 4
  {
    if |bs| < 4 then Fail
    else
      var b0: int, b1: int, b2: int, b3: int := bs[0], bs[1], bs[2], bs[3];
      Ok(b0 + 0x100 * b1 + 0x1_0000 * b2 + 0x100_0000 * b3, bs[4..])
  }

  /** Two's complement. */
  function PackI16(n: i16): (r: Bytes)
    ensures |r| == 2 && At16(r, 0) == n % 0x1_0000
  {
    PackU16(if n < 0 then n + 0x1_0000 else n)
  }

  function ReadI16(bs: Bytes): Parsed<i16> {
    match ReadU16(bs)
    case Fail => Fail
    case Ok(n, rest) => Ok(if n >= 0x8000 then n - 0x1_0000 else n, rest)
  }

  lemma U16RoundTrip(n: u16, rest: Bytes)
    ensures ReadU16(PackU16(n) + rest) == Ok(n, rest)
  {
    assert (PackU16(n) + rest)[2..] == rest;
  }

  lemma U32RoundTrip(n: u32, rest: Bytes)
    ensures ReadU32(PackU32(n) + rest) == Ok(n, rest)
  {
    assert (PackU32(n) + rest)[4..] == rest;
    assert n == n % 256 + 256 * (n / 256);
    assert n / 256 == n / 256 % 256 + 256 * (n / 0x1_0000);
    assert n / 0x1_0000 == n / 0x1_0000 % 256 + 256 * (n / 0x100_0000);
  }

  lemma I16RoundTrip(n: i16, rest: Bytes)
    ensures ReadI16(PackI16(n) + rest) == Ok(n, rest)
  {
    U16RoundTrip(if n < 0 then n + 0x1_0000 else n, rest);
  }

  /** A read that succeeds is not disturbed by bytes appended to its input. */
  lemma U16Extends(bs: Bytes, more: Bytes)
    requires ReadU16(bs).Ok?
    ensures ReadU16(bs + more) == Ok(ReadU16(bs).value, ReadU16(bs).rest + more)
  {
    assert (bs + more)[2..] == bs[2..] + more;
  }

  lemma U32Extends(bs: Bytes, more: Bytes)
    requires ReadU32(bs).Ok?
    ensures ReadU32(bs + more) == Ok(ReadU32(bs).value, ReadU32(bs).rest + more)
  {
    assert (bs + more)[4..] == bs[4..] + more;
  }

  lemma I16Extends(bs: Bytes, more: Bytes)
    requires ReadI16(bs).Ok?
    ensures ReadI16(bs + more) == Ok(ReadI16(bs).value, ReadI16(bs).rest + more)
  {
    U16Extends(bs, more);
  }

  // ----- strings -----

  /** The length prefix wraps at 65536; the bytes do not. */
  function PackString(s: Bytes): Bytes {
    PackU16(|s| % LIMIT16) + s
  }

  function ReadString(bs: Bytes): Parsed<Bytes> {
    match ReadU16(bs)
    case Fail => Fail
    case Ok(n, rest) => if |rest| < n then Fail else Ok(rest[..n], rest[n..])
  }

  lemma StringRoundTrip(s: Bytes, rest: Bytes)
    requires |s| < LIMIT16
    ensures ReadString(PackString(s) + rest) == Ok(s, rest)
  {
    U16RoundTrip(|s|, s + rest);
    Assoc(PackU16(|s|), s, rest);
    assert (s + rest)[..|s|] == s && (s + rest)[|s|..] == rest;
  }

  /** A string survives exactly when its length fits the prefix. */
  lemma StringRoundTripIff(s: Bytes, rest: Bytes)
    ensures ReadString(PackString(s) + rest) == Ok(s, rest) <==> |s| < LIMIT16
  {
    if |s| < LIMIT16 {
      StringRoundTrip(s, rest);
    } else {
      U16RoundTrip(|s| % LIMIT16, s + rest);
      Assoc(PackU16(|s| % LIMIT16), s, rest);
    }
  }

  lemma StringExtends(bs: Bytes, more: Bytes)
    requires ReadString(bs).Ok?
    ensures ReadString(bs + more) == Ok(ReadString(bs).value, ReadString(bs).rest + more)
  {
    U16Extends(bs, more);
    var p := ReadU16(bs);
    assert (p.rest + more)[..p.value] == p.rest[..p.value];
    assert (p.rest + more)[p.value..] == p.rest[p.value..] + more;
  }

  // ----- ascending keys -----

  /** The members of `ks` from `lo` upwards, in ascending order. */
  function KeysFrom(ks: set<u16>, lo: nat): (r: seq<u16>)
    requires lo <= LIMIT16
    ensures forall k :: k in r <==> k in ks && lo <= k
    ensures forall i, j :: 0 <= i < j < |r| ==> r[i] < r[j]
    decreases LIMIT16 - lo
  {
    if lo == LIMIT16 then []
    else if lo in ks then
      var tail := KeysFrom(ks, lo + 1);
      assert forall i :: 0 <= i < |tail| ==> tail[i] in tail;
      [lo] + tail
    else KeysFrom(ks, lo + 1)
  }

  function Keys<V>(m: map<u16, V>): seq<u16> {
    KeysFrom(m.Keys, 0)
  }

  predicate Distinct(ks: seq<u16>) {
    forall i, j :: 0 <= i < j < |ks| ==> ks[i] != ks[j]
  }

  lemma {:induction false} DistinctLength(ks: seq<u16>, s: set<u16>)
    requires Distinct(ks) && forall k :: k in ks <==> k in s
    ensures |ks| == |s|
  {
    if ks == [] {
      assert s == {};
    } else {
      assert ks == [ks[0]] + ks[1..];
      forall k
        ensures k in ks[1..] <==> k in s - {ks[0]}
      {
      }
      DistinctLength(ks[1..], s - {ks[0]});
    }
  }

  lemma KeysFacts<V>(m: map<u16, V>)
    ensures |Keys(m)| == |m| && Distinct(Keys(m))
    ensures forall i, j :: 0 <= i < j < |m| ==> Keys(m)[i] < Keys(m)[j]
    ensures forall k :: k in Keys(m) <==> k in m
  {
    DistinctLength(Keys(m), m.Keys);
    assert |m.Keys| == |m|;
  }

  /** Ascending order makes the key list unique: any other ascending listing of the keys is the same. */
  lemma {:induction false} AscendingIsUnique(a: seq<u16>, b: seq<u16>)
    requires forall i, j :: 0 <= i < j < |a| ==> a[i] < a[j]
    requires forall i, j :: 0 <= i < j < |b| ==> b[i] < b[j]
    requires forall k :: k in a <==> k in b
    ensures a == b
  {
    var first := if b == [] then 0 else b[0];
    assert b != [] ==> first in b;
    if a != [] {
      assert a[0] in a && b != [];
      assert b[0] in b;
      assert a[0] == b[0] by {
        var i :| 0 <= i < |a| && a[i] == b[0];
        var j :| 0 <= j < |b| && b[j] == a[0];
      }
      forall k
        ensures k in a[1..] <==> k in b[1..]
      {
        assert a == [a[0]] + a[1..] && b == [b[0]] + b[1..];
        assert (k in a <==> k in b) && a[0] !in a[1..] && b[0] !in b[1..];
      }
      AscendingIsUnique(a[1..], b[1..]);
    }
  }

  // ----- privilege maps -----

  type Privileges = map<u16, u32>

  function PackEntries(m: Privileges, ks: seq<u16>): Bytes
    requires forall k :: k in ks ==> k in m
  {
    if ks == [] then [] else PackU16(ks[0]) + PackU32(m[ks[0]]) + PackEntries(m, ks[1..])
  }

  function PackMap(m: Privileges): Bytes {
    PackU16(|m| % LIMIT16) + PackEntries(m, Keys(m))
  }

  function ReadEntries(n: nat, bs: Bytes, m: Privileges): Parsed<Privileges> {
    if n == 0 then Ok(m, bs)
    else
      var key := ReadU16(bs);
      if key.Fail? then Fail else
      var value := ReadU32(key.rest);
      if value.Fail? then Fail else
      ReadEntries(n - 1, value.rest, m[key.value := value.value])
  }

  function ReadMap(bs: Bytes): Parsed<Privileges> {
    match ReadU16(bs)
    case Fail => Fail
    case Ok(n, rest) => ReadEntries(n, rest, map[])
  }

  /** `acc` overwritten with the entries of m at the keys ks. */
  function PutAll(acc: Privileges, m: Privileges, ks: seq<u16>): Privileges
    requires forall k :: k in ks ==> k in m
    decreases |ks|
  {
    if ks == [] then acc else PutAll(acc[ks[0] := m[ks[0]]], m, ks[1..])
  }

  lemma {:induction false} PutAllEntries(acc: Privileges, m: Privileges, ks: seq<u16>, k: u16)
    requires forall k :: k in ks ==> k in m
    ensures k in PutAll(acc, m, ks) <==> k in acc || k in ks
    ensures k in ks ==> PutAll(acc, m, ks)[k] == m[k]
    ensures k in acc && k !in ks ==> PutAll(acc, m, ks)[k] == acc[k]
    decreases |ks|
  {
    if ks != [] {
      PutAllEntries(acc[ks[0] := m[ks[0]]], m, ks[1..], k);
      assert ks == [ks[0]] + ks[1..];
    }
  }

  lemma {:induction false} EntriesRoundTrip(m: Privileges, ks: seq<u16>, acc: Privileges, rest: Bytes)
    requires forall k :: k in ks ==> k in m
    ensures ReadEntries(|ks|, PackEntries(m, ks) + rest, acc) == Ok(PutAll(acc, m, ks), rest)
    decreases |ks|
  {
    if ks == [] {
      assert PackEntries(m, ks) + rest == rest;
    } else {
      var tail := PackEntries(m, ks[1..]) + rest;
      U16RoundTrip(ks[0], PackU32(m[ks[0]]) + tail);
      U32RoundTrip(m[ks[0]], tail);
      Assoc3(PackU16(ks[0]), PackU32(m[ks[0]]), PackEntries(m, ks[1..]), rest);
      EntriesRoundTrip(m, ks[1..], acc[ks[0] := m[ks[0]]], rest);
    }
  }

  lemma PutAllKeys(m: Privileges)
    ensures forall k :: k in Keys(m) <==> k in m
    ensures PutAll(map[], m, Keys(m)) == m
  {
    KeysFacts(m);
    forall k
      ensures k in PutAll(map[], m, Keys(m)) <==> k in m
      ensures k in m ==> PutAll(map[], m, Keys(m))[k] == m[k]
    {
      PutAllEntries(map[], m, Keys(m), k);
    }
  }

  lemma AllEntriesRoundTrip(m: Privileges, rest: Bytes)
    ensures ReadEntries(|m|, PackEntries(m, Keys(m)) + rest, map[]) == Ok(m, rest)
  {
    KeysFacts(m);
    PutAllKeys(m);
    EntriesRoundTrip(m, Keys(m), map[], rest);
  }

  /** A count and the items after it. */
  lemma CountRoundTrip(n: nat, items: Bytes, rest: Bytes)
    requires n < LIMIT16
    ensures ReadU16(PackU16(n % LIMIT16) + items + rest) == Ok(n, items + rest)
  {
    hide ReadU16, PackU16;
    U16RoundTrip(n, items + rest);
    Assoc(PackU16(n), items, rest);
  }

  lemma MapRoundTrip(m: Privileges, rest: Bytes)
    requires |m| < LIMIT16
    ensures ReadMap(PackMap(m) + rest) == Ok(m, rest)
  {
    AllEntriesRoundTrip(m, rest);
    CountRoundTrip(|m|, PackEntries(m, Keys(m)), rest);
  }

  lemma {:induction false} EntriesExtend(n: nat, bs: Bytes, m: Privileges, more: Bytes)
    requires ReadEntries(n, bs, m).Ok?
    ensures ReadEntries(n, bs + more, m) == Ok(ReadEntries(n, bs, m).value, ReadEntries(n, bs, m).rest + more)
  {
    if n > 0 {
      U16Extends(bs, more);
      var key := ReadU16(bs);
      U32Extends(key.rest, more);
      EntriesExtend(n - 1, ReadU32(key.rest).rest, m[key.value := ReadU32(key.rest).value], more);
    }
  }

  lemma MapExtends(bs: Bytes, more: Bytes)
    requires ReadMap(bs).Ok?
    ensures ReadMap(bs + more) == Ok(ReadMap(bs).value, ReadMap(bs).rest + more)
  {
    U16Extends(bs, more);
    EntriesExtend(ReadU16(bs).value, ReadU16(bs).rest, map[], more);
  }
}
