/**
  Session ids: the 16-byte UUID and its fields (src/uuid/_uuid_impl.c, src/uuid/uuid.c), in the
  layout of section 4.1.2 of RFC 4122.  Integers of a fixed width are naturals below a bound;
  a shift right is a division, a mask of low bits a remainder.
 */
module UuidLayout {

  type Octet = x: int | 0 <= x < 0x100
  type Word16 = x: int | 0 <= x < 0x1_0000
  type Word32 = x: int | 0 <= x < 0x1_0000_0000

  type NodeId = s: seq<Octet> | |s| == 6 witness [0, 0, 0, 0, 0, 0]

  type Uuid = s: seq<Octet> | |s| == 16 witness [0, 0, 0, 0, 0, 0, 0, 0, 0, 0, 0, 0, 0, 0, 0, 0]

  /** _uuid_t */
  datatype Fields = Fields(
    timeLow: Word32, timeMid: Word16, timeHiAndVersion: Word16,
    clockHiAndReserved: Octet, clockLow: Octet, node: NodeId)

  /** _uuid_pack */
  function Pack(f: Fields): Uuid {
    [f.timeLow / 0x100_0000 % 0x100, f.timeLow / 0x1_0000 % 0x100, f.timeLow / 0x100 % 0x100, f.timeLow % 0x100,
     f.timeMid / 0x100 % 0x100, f.timeMid % 0x100,
     f.timeHiAndVersion / 0x100 % 0x100, f.timeHiAndVersion % 0x100,
     f.clockHiAndReserved, f.clockLow]
    + f.node
  }

  /** The number that bytes denote, most significant byte first. */
  function BigEndian(s: seq<Octet>): nat {
    if s == [] then 0 else BigEndian(s[..|s| - 1]) * 0x100 + s[|s| - 1]
  }

  function Power256(n: nat): nat {
    if n == 0 then 1 else Power256(n - 1) * 0x100
  }

  lemma {:induction false} BigEndianBound(s: seq<Octet>)
    ensures BigEndian(s) < Power256(|s|)
  {
    if s != [] {
      BigEndianBound(s[..|s| - 1]);
    }
  }

  lemma FieldBounds(u: Uuid)
    ensures BigEndian(u[0..4]) < 0x1_0000_0000
    ensures BigEndian(u[4..6]) < 0x1_0000 && BigEndian(u[6..8]) < 0x1_0000
  {
    BigEndianBound(u[0..4]);
    BigEndianBound(u[4..6]);
    BigEndianBound(u[6..8]);
    assert Power256(2) == 0x1_0000;
    assert Power256(4) == Power256(3) * 0x100 && Power256(3) == Power256(2) * 0x100;
  }

  /** _uuid_unpack: the fields are the big-endian numbers of their bytes. */
  function Unpack(u: Uuid): Fields {
    FieldBounds(u);
    Fields(BigEndian(u[0..4]), BigEndian(u[4..6]), BigEndian(u[6..8]), u[8], u[9], u[10..16])
  }

  // ---------- pack and unpack are inverse to each other ----------

  /** Shifting `x` by one byte and adding `b`. */
  function Shifted(x: int, b: int): int {
    x * 0x100 + b
  }

  lemma BigEndian2(s: seq<Octet>)
    requires |s| == 2
    ensures BigEndian(s) == Shifted(s[0], s[1])
  {
    assert s[..1][..0] == [];
    assert BigEndian(s[..1]) == s[0];
  }

  lemma BigEndian4(s: seq<Octet>)
    requires |s| == 4
    ensures BigEndian(s) == Shifted(Shifted(Shifted(s[0], s[1]), s[2]), s[3])
  {
    BigEndian2(s[..2]);
    assert s[..3][..2] == s[..2];
  }

  lemma PackedField2(x: Word16)
    ensures (x / 0x100 % 0x100) * 0x100 + x % 0x100 == x
  {
  }

  lemma PackedField4(x: Word32)
    ensures (((x / 0x100_0000 % 0x100) * 0x100 + x / 0x1_0000 % 0x100) * 0x100 + x / 0x100 % 0x100) * 0x100
            + x % 0x100 == x
  {
    assert x / 0x1_0000 == x / 0x100 / 0x100 && x / 0x100_0000 == x / 0x1_0000 / 0x100;
  }

  lemma UnpackPack(f: Fields)
    ensures Unpack(Pack(f)) == f
  {
    var u := Pack(f);
    BigEndian4(u[0..4]);
    BigEndian2(u[4..6]);
    BigEndian2(u[6..8]);
    PackedField4(f.timeLow);
    PackedField2(f.timeMid);
    PackedField2(f.timeHiAndVersion);
    assert u[10..16] == f.node;
  }

  lemma UnpackedField2(a: Octet, b: Octet)
    ensures var x := a * 0x100 + b;
            x / 0x100 % 0x100 == a && x % 0x100 == b
  {
  }

  lemma UnpackedField4(a: Octet, b: Octet, c: Octet, d: Octet)
    ensures var x := ((a * 0x100 + b) * 0x100 + c) * 0x100 + d;
            && x / 0x100_0000 % 0x100 == a && x / 0x1_0000 % 0x100 == b
            && x / 0x100 % 0x100 == c && x % 0x100 == d
  {
    var y := (a * 0x100 + b) * 0x100 + c;
    UnpackedByte(y, d);
    UnpackedByte(a * 0x100 + b, c);
    UnpackedByte(a, b);
    var x := y * 0x100 + d;
    assert x / 0x1_0000 == x / 0x100 / 0x100 && x / 0x100_0000 == x / 0x1_0000 / 0x100;
  }

  lemma UnpackedByte(x: nat, b: Octet)
    ensures (x * 0x100 + b) / 0x100 == x && (x * 0x100 + b) % 0x100 == b
  {
  }

  lemma PackUnpack(u: Uuid)
    ensures Pack(Unpack(u)) == u
  {
    BigEndian4(u[0..4]);
    BigEndian2(u[4..6]);
    BigEndian2(u[6..8]);
    UnpackedField4(u[0], u[1], u[2], u[3]);
    UnpackedField2(u[4], u[5]);
    UnpackedField2(u[6], u[7]);
  }

  // ---------- the loops of the source ----------

  /** Writes the bytes of the fields into `dst`. */
  method PackInto(dst: array<Octet>, src: Fields)
    requires dst.Length == 16
    modifies dst
    ensures dst[..] == Pack(src)
  {
    dst[0] := src.timeLow / 0x100_0000 % 0x100;
    dst[1] := src.timeLow / 0x1_0000 % 0x100;
    dst[2] := src.timeLow / 0x100 % 0x100;
    dst[3] := src.timeLow % 0x100;
    dst[4] := src.timeMid / 0x100 % 0x100;
    dst[5] := src.timeMid % 0x100;
    dst[6] := src.timeHiAndVersion / 0x100 % 0x100;
    dst[7] := src.timeHiAndVersion % 0x100;
    dst[8] := src.clockHiAndReserved;
    dst[9] := src.clockLow;
    forall k | 0 <= k < 6 {
      dst[10 + k] := src.node[k];
    }
  }

  /** Shifts and adds the bytes `from` up to `to` into a field of `width` bits; nothing is shifted out. */
  method ShiftIn(src: array<Octet>, from: nat, to: nat, width: nat) returns (x: nat)
    requires from <= to <= src.Length && width == Power256(to - from)
    ensures x == BigEndian(src[from..to])
  {
    x := 0;
    for i := from to to
      invariant x == BigEndian(src[from..i])
    {
      BigEndianBound(src[from..i + 1]);
      PowerMonotone(i + 1 - from, to - from);
      assert src[from..i + 1][..i - from] == src[from..i];
      Fits(x * 0x100, width);
      x := x * 0x100 % width;
      Fits(x + src[i], width);
      x := (x + src[i]) % width;
    }
  }

  lemma Fits(x: nat, width: nat)
    requires x < width
    ensures x % width == x
  {
  }

  lemma {:induction false} PowerMonotone(a: nat, b: nat)
    requires a <= b
    ensures 1 <= Power256(a) <= Power256(b)
    decreases b
  {
    if a < b {
      PowerMonotone(a, b - 1);
    } else if b > 0 {
      PowerMonotone(a - 1, b - 1);
    }
  }

  method UnpackFrom(src: array<Octet>) returns (f: Fields)
    requires src.Length == 16
    ensures f == Unpack(src[..])
  {
    FieldBounds(src[..]);
    assert src[..][0..4] == src[0..4] && src[..][4..6] == src[4..6] && src[..][6..8] == src[6..8];
    assert Power256(2) == 0x1_0000;
    assert Power256(4) == Power256(3) * 0x100 && Power256(3) == Power256(2) * 0x100;
    var timeLow := ShiftIn(src, 0, 4, 0x1_0000_0000);
    var timeMid := ShiftIn(src, 4, 6, 0x1_0000);
    var timeHi := ShiftIn(src, 6, 8, 0x1_0000);
    f := Fields(timeLow, timeMid, timeHi, src[8], src[9], src[10..16]);
  }

  // ---------- comparison ----------

  /** Byte-lexicographic order: -1, 0 or 1.  This is what memcmp guarantees of its sign. */
  function Lex(a: seq<Octet>, b: seq<Octet>): int
    requires |a| == |b|
  {
    if a == [] then 0
    else if a[0] != b[0] then (if a[0] < b[0] then -1 else 1)
    else Lex(a[1..], b[1..])
  }

  /** _uuid_compare */
  function CompareFields(u: Fields, v: Fields): int {
    if u.timeLow != v.timeLow then (if u.timeLow < v.timeLow then -1 else 1)
    else if u.timeMid != v.timeMid then (if u.timeMid < v.timeMid then -1 else 1)
    else if u.timeHiAndVersion != v.timeHiAndVersion then
      (if u.timeHiAndVersion < v.timeHiAndVersion then -1 else 1)
    else if u.clockHiAndReserved != v.clockHiAndReserved then
      (if u.clockHiAndReserved < v.clockHiAndReserved then -1 else 1)
    else if u.clockLow != v.clockLow then (if u.clockLow < v.clockLow then -1 else 1)
    else Lex(u.node, v.node)
  }

  /** uuid_compare */
  function Compare(u: Uuid, v: Uuid): int {
    CompareFields(Unpack(u), Unpack(v))
  }

  lemma {:induction false} LexConcat(a: seq<Octet>, b: seq<Octet>, c: seq<Octet>, d: seq<Octet>)
    requires |a| == |b| && |c| == |d|
    ensures Lex(a + c, b + d) == if Lex(a, b) != 0 then Lex(a, b) else Lex(c, d)
  {
    if a == [] {
      assert a + c == c && b + d == d;
    } else {
      assert (a + c)[1..] == a[1..] + c && (b + d)[1..] == b[1..] + d;
      LexConcat(a[1..], b[1..], c, d);
    }
  }

  function Order(x: int, y: int): int {
    if x < y then -1 else if x > y then 1 else 0
  }

  /** On byte strings of one length, the lexicographic order is the order of the numbers. */
  lemma {:induction false} LexIsNumeric(a: seq<Octet>, b: seq<Octet>)
    requires |a| == |b|
    ensures Lex(a, b) == Order(BigEndian(a), BigEndian(b))
  {
    if a != [] {
      var n := |a| - 1;
      LexIsNumeric(a[..n], b[..n]);
      LexConcat(a[..n], b[..n], a[n..], b[n..]);
      assert a == a[..n] + a[n..] && b == b[..n] + b[n..];
      assert Lex(a[n..], b[n..]) == Order(a[n], b[n]) by {
        assert a[n..][1..] == [] && b[n..][1..] == [];
      }
    }
  }

  /** Comparing 16 bytes in the groups of the fields. */
  lemma LexByGroups(u: seq<Octet>, v: seq<Octet>)
    requires |u| == |v| == 16
    ensures Lex(u, v) ==
              if Lex(u[0..4], v[0..4]) != 0 then Lex(u[0..4], v[0..4])
              else if Lex(u[4..6], v[4..6]) != 0 then Lex(u[4..6], v[4..6])
              else if Lex(u[6..8], v[6..8]) != 0 then Lex(u[6..8], v[6..8])
              else Lex(u[8..], v[8..])
  {
    LexSplit(u, v, 4);
    LexSplit(u[4..], v[4..], 2);
    LexSplit(u[6..], v[6..], 2);
    assert u[4..][..2] == u[4..6] && v[4..][..2] == v[4..6] && u[4..][2..] == u[6..] && v[4..][2..] == v[6..];
    assert u[6..][..2] == u[6..8] && v[6..][..2] == v[6..8] && u[6..][2..] == u[8..] && v[6..][2..] == v[8..];
    assert u[0..4] == u[..4] && v[0..4] == v[..4];
  }

  lemma LexSplit(u: seq<Octet>, v: seq<Octet>, n: nat)
    requires |u| == |v| >= n
    ensures Lex(u, v) == if Lex(u[..n], v[..n]) != 0 then Lex(u[..n], v[..n]) else Lex(u[n..], v[n..])
  {
    LexConcat(u[..n], v[..n], u[n..], v[n..]);
    assert u[..n] + u[n..] == u && v[..n] + v[n..] == v;
  }

  lemma LexByBytes(u: seq<Octet>, v: seq<Octet>)
    requires |u| == |v| == 16
    ensures Lex(u[8..], v[8..]) ==
              if u[8] != v[8] then Order(u[8], v[8])
              else if u[9] != v[9] then Order(u[9], v[9])
              else Lex(u[10..16], v[10..16])
  {
    assert u[8..][1..] == u[9..] && v[8..][1..] == v[9..];
    assert u[9..][1..] == u[10..16] && v[9..][1..] == v[10..16];
  }

  /** uuid_compare orders ids as the comparison of their 16 bytes does. */
  lemma CompareIsLex(u: Uuid, v: Uuid)
    ensures Compare(u, v) == Lex(u, v)
  {
    LexIsNumeric(u[0..4], v[0..4]);
    LexIsNumeric(u[4..6], v[4..6]);
    LexIsNumeric(u[6..8], v[6..8]);
    LexByGroups(u, v);
    LexByBytes(u, v);
  }

  lemma {:induction false} LexZero(a: seq<Octet>, b: seq<Octet>)
    requires |a| == |b|
    ensures Lex(a, b) == 0 <==> a == b
    ensures Lex(a, b) == -Lex(b, a)
  {
    if a != [] {
      LexZero(a[1..], b[1..]);
      assert a == [a[0]] + a[1..] && b == [b[0]] + b[1..];
    }
  }

  /** `a` is smaller than `b` at the first place where they differ. */
  ghost predicate FirstSmaller(a: seq<Octet>, b: seq<Octet>, k: nat)
    requires k < |a| == |b|
  {
    a[..k] == b[..k] && a[k] < b[k]
  }

  lemma {:induction false} LexIsFirstDifference(a: seq<Octet>, b: seq<Octet>)
    requires |a| == |b|
    ensures Lex(a, b) in {-1, 0, 1}
    ensures Lex(a, b) < 0 <==> exists k :: 0 <= k < |a| && FirstSmaller(a, b, k)
  {
    if a != [] {
      LexIsFirstDifference(a[1..], b[1..]);
      if a[0] < b[0] {
        assert FirstSmaller(a, b, 0);
      } else if a[0] == b[0] && Lex(a[1..], b[1..]) < 0 {
        var k :| 0 <= k < |a[1..]| && FirstSmaller(a[1..], b[1..], k);
        assert a[..k + 1] == [a[0]] + a[1..][..k] && b[..k + 1] == [b[0]] + b[1..][..k];
        assert FirstSmaller(a, b, k + 1);
      }
      forall k | 0 <= k < |a| && FirstSmaller(a, b, k) ensures Lex(a, b) < 0 {
        if k > 0 {
          assert a[..k][0] == b[..k][0] && a[1..][..k - 1] == a[..k][1..] && b[1..][..k - 1] == b[..k][1..];
          assert FirstSmaller(a[1..], b[1..], k - 1);
        }
      }
    }
  }

  lemma {:induction false} LexTransitive(a: seq<Octet>, b: seq<Octet>, c: seq<Octet>)
    requires |a| == |b| == |c| && Lex(a, b) <= 0 && Lex(b, c) <= 0
    ensures Lex(a, c) <= 0
  {
    if a != [] && a[0] == b[0] == c[0] {
      LexTransitive(a[1..], b[1..], c[1..]);
    }
  }

  /** uuid_compare answers -1 exactly if the first byte in which the two ids differ is smaller in the first one. */
  lemma CompareExactly(u: Uuid, v: Uuid)
    ensures Compare(u, v) in {-1, 0, 1}
    ensures Compare(u, v) == -1 <==> exists k :: 0 <= k < 16 && FirstSmaller(u, v, k)
  {
    CompareIsLex(u, v);
    LexIsFirstDifference(u, v);
  }

  /** A total order in which only equal ids compare as 0. */
  lemma CompareIsTotalOrder(u: Uuid, v: Uuid, w: Uuid)
    ensures Compare(u, v) == 0 <==> u == v
    ensures Compare(u, v) == -Compare(v, u)
    ensures Compare(u, v) <= 0 && Compare(v, w) <= 0 ==> Compare(u, w) <= 0
  {
    CompareIsLex(u, v);
    CompareIsLex(v, u);
    CompareIsLex(v, w);
    CompareIsLex(u, w);
    LexZero(u, v);
    if Compare(u, v) <= 0 && Compare(v, w) <= 0 {
      LexTransitive(u, v, w);
    }
  }

  // ---------- the null id ----------

  const NULL_UUID: Uuid := [0, 0, 0, 0, 0, 0, 0, 0, 0, 0, 0, 0, 0, 0, 0, 0]

  /** uuid_is_null */
  method IsNull(uu: array<Octet>) returns (r: bool)
    requires uu.Length == 16
    ensures r <==> uu[..] == NULL_UUID
  {
    for i := 0 to 16
      invariant forall k :: 0 <= k < i ==> uu[k] == 0
    {
      if uu[i] != 0 {
        assert uu[..][i] != NULL_UUID[i];
        return false;
      }
    }
    assert uu[..] == NULL_UUID;
    return true;
  }
}
