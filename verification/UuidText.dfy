/**
  The text form of session ids: _uuid_parse and _uuid_unparse of src/uuid/_uuid_impl.c, and
  uuid_parse and uuid_unparse of src/uuid/uuid.c.  A C string is a sequence of characters
  followed by the terminating NUL, which `CharAt` supplies.
 */
module UuidText {
  import opened Options
  import opened UuidLayout

  // ---------- characters ----------

  /** isxdigit */
  predicate IsXDigit(c: char) {
    '0' <= c <= '9' || 'a' <= c <= 'f' || 'A' <= c <= 'F'
  }

  /** The value of a hexadecimal digit. */
  function DigitValue(c: char): (v: int)
    ensures 0 <= v < 16
  {
    if '0' <= c <= '9' then c as int - '0' as int
    else if 'a' <= c <= 'f' then c as int - 'a' as int + 10
    else if 'A' <= c <= 'F' then c as int - 'A' as int + 10
    else 0
  }

  /** A hexadecimal digit as printf's %x writes it. */
  function Digit(v: int): (c: char)
    requires 0 <= v < 16
    ensures IsXDigit(c) && DigitValue(c) == v
  {
    if v < 10 then ('0' as int + v) as char else ('a' as int + v - 10) as char
  }

  function LowerChar(c: char): char {
    if 'A' <= c <= 'F' then (c as int - 'A' as int + 'a' as int) as char else c
  }

  function Lower(s: string): string {
    if s == "" then "" else Lower(s[..|s| - 1]) + [LowerChar(s[|s| - 1])]
  }

  function CharAt(s: string, i: nat): char {
    if i < |s| then s[i] else '\0'
  }

  // ---------- printing ----------

  /** printf's %0<width>x: at least `width` digits, more if the number needs them. */
  function Hex(x: nat, width: nat): string {
    if x == 0 && width == 0 then ""
    else Hex(x / 16, if width == 0 then 0 else width - 1) + [Digit(x % 16)]
  }

  function HexOctets(s: seq<Octet>): string {
    if s == [] then "" else Hex(s[0], 2) + HexOctets(s[1..])
  }

  /** _uuid_unparse; sizeof(uuid_string_t) leaves room for 36 characters. */
  function UnparseFields(f: Fields): string {
    Truncate(Hex(f.timeLow, 8) + "-" + Hex(f.timeMid, 4) + "-" + Hex(f.timeHiAndVersion, 4) + "-"
             + Hex(f.clockHiAndReserved, 2) + Hex(f.clockLow, 2) + "-" + HexOctets(f.node), 36)
  }

  /** snprintf into a buffer for `n` characters and the NUL. */
  function Truncate(s: string, n: nat): string {
    if |s| <= n then s else s[..n]
  }

  // ---------- parsing ----------

  /** The value of a string of hexadecimal digits. */
  function HexValue(s: string): nat {
    if s == "" then 0 else HexValue(s[..|s| - 1]) * 16 + DigitValue(s[|s| - 1])
  }

  predicate AllXDigits(s: string) {
    forall i :: 0 <= i < |s| ==> IsXDigit(s[i])
  }

  /** The longest run of hexadecimal digits that `s` starts with. */
  function XDigitPrefix(s: string): string {
    if s == "" || !IsXDigit(s[0]) then "" else [s[0]] + XDigitPrefix(s[1..])
  }

  const ULONG_MAX: nat := 0xFFFF_FFFF_FFFF_FFFF

  /**
    strtoul(s, NULL, 16) for a string that starts with a hexadecimal digit (so without white
    space or sign): an optional 0x prefix, then the longest run of digits, saturated.
   */
  function StrToUl(s: string): nat
    requires IsXDigit(CharAt(s, 0))
  {
    var digits :=
      if s[0] == '0' && (CharAt(s, 1) == 'x' || CharAt(s, 1) == 'X') && IsXDigit(CharAt(s, 2)) then s[2..] else s;
    var v := HexValue(XDigitPrefix(digits));
    if v <= ULONG_MAX then v else ULONG_MAX
  }

  /** strtoul on the string that starts `i` characters in, reduced to an integer type of `bound` values. */
  function ReadAt(s: string, i: nat, bound: nat): (v: nat)
    requires IsXDigit(CharAt(s, i)) && bound > 0
    ensures v < bound
  {
    assert CharAt(s[i..], 0) == CharAt(s, i);
    StrToUl(s[i..]) % bound
  }

  predicate IsDash(i: int) {
    i == 8 || i == 13 || i == 18 || i == 23
  }

  /** Character `i` of the 8-4-4-4-12 shape of section 3 of RFC 4122. */
  predicate CharOk(s: string, i: nat) {
    if IsDash(i) then CharAt(s, i) == '-' else IsXDigit(CharAt(s, i))
  }

  predicate WellShaped(s: string) {
    forall i :: 0 <= i < 36 ==> CharOk(s, i)
  }

  lemma WellShapedAt(s: string, i: nat)
    requires WellShaped(s) && i < 36 && !IsDash(i)
    ensures IsXDigit(CharAt(s, i)) && i < |s|
  {
    assert CharOk(s, i);
  }

  /** Byte `i` of the node: tmp holds two characters and a NUL. */
  function NodeAt(s: string, i: nat): (b: Octet)
    requires WellShaped(s) && i < 6
  {
    WellShapedAt(s, 24 + 2 * i);
    WellShapedAt(s, 25 + 2 * i);
    ReadAt(s[24 + 2 * i..26 + 2 * i], 0, 0x100)
  }

  /** strtoul(in + 19): both bytes of the clock sequence. */
  function ClockAt(s: string): (v: Word16)
    requires WellShaped(s)
  {
    WellShapedAt(s, 19);
    ReadAt(s, 19, 0x1_0000)
  }

  function TimeLowAt(s: string): (v: Word32)
    requires WellShaped(s)
  {
    WellShapedAt(s, 0);
    ReadAt(s, 0, 0x1_0000_0000)
  }

  function TimeMidAt(s: string): (v: Word16)
    requires WellShaped(s)
  {
    WellShapedAt(s, 9);
    ReadAt(s, 9, 0x1_0000)
  }

  function TimeHiAt(s: string): (v: Word16)
    requires WellShaped(s)
  {
    WellShapedAt(s, 14);
    ReadAt(s, 14, 0x1_0000)
  }

  /** The bytes of the node from the i-th on. */
  function NodeFrom(s: string, i: nat): (node: seq<Octet>)
    requires WellShaped(s) && i <= 6
    ensures |node| == 6 - i
    decreases 6 - i
  {
    if i == 6 then [] else [NodeAt(s, i)] + NodeFrom(s, i + 1)
  }

  /** The fields that _uuid_parse reads from a string of the right shape. */
  function FieldsOf(s: string): Fields
    requires WellShaped(s)
  {
    Fields(TimeLowAt(s), TimeMidAt(s), TimeHiAt(s), ClockAt(s) / 0x100, ClockAt(s) % 0x100, NodeFrom(s, 0))
  }

  /** The first loop of _uuid_parse. */
  method HasShape(s: string) returns (ok: bool)
    ensures ok <==> WellShaped(s)
  {
    for i := 0 to 36
      invariant forall k :: 0 <= k < i ==> CharOk(s, k)
    {
      if i == 8 || i == 13 || i == 18 || i == 23 {
        if CharAt(s, i) == '-' {
          continue;
        } else {
          assert !CharOk(s, i);
          return false;
        }
      }
      if !IsXDigit(CharAt(s, i)) {
        assert !CharOk(s, i);
        return false;
      }
    }
    return true;
  }

  /** The second loop: two characters for each byte of the node. */
  method ParseNode(s: string) returns (node: NodeId)
    requires WellShaped(s)
    ensures node == NodeFrom(s, 0)
  {
    var bytes: seq<Octet> := [];
    for i := 0 to 6
      invariant bytes + NodeFrom(s, i) == NodeFrom(s, 0)
    {
      bytes := bytes + [NodeAt(s, i)];
    }
    node := bytes;
  }

  /** _uuid_parse: accepts exactly the strings whose first 36 characters have the shape. */
  method ParseFields(s: string) returns (r: Option<Fields>)
    ensures r.Some? <==> WellShaped(s)
    ensures r.Some? ==> r.value == FieldsOf(s)
  {
    var ok := HasShape(s);
    if !ok {
      return None;
    }
    var node := ParseNode(s);
    var clock := ClockAt(s);
    r := Some(Fields(TimeLowAt(s), TimeMidAt(s), TimeHiAt(s), clock / 0x100, clock % 0x100, node));
  }

  /** uuid_unparse */
  function Unparse(u: Uuid): string {
    UnparseFields(Unpack(u))
  }

  /** uuid_parse, as a function. */
  function Parse(s: string): Option<Uuid> {
    if WellShaped(s) then Some(Pack(FieldsOf(s))) else None
  }

  method ParseInto(s: string, out: array<Octet>) returns (ok: bool)
    requires out.Length == 16
    modifies out
    ensures ok <==> Parse(s).Some?
    ensures ok ==> out[..] == Parse(s).value
    ensures !ok ==> out[..] == old(out[..])
  {
    var f := ParseFields(s);
    if f.Some? {
      PackInto(out, f.value);
      ok := true;
    } else {
      ok := false;
    }
  }

  // ---------- digits and numbers ----------

  function Power16(n: nat): nat {
    if n == 0 then 1 else Power16(n - 1) * 16
  }

  lemma {:induction false} HexLength(x: nat, width: nat)
    requires x < Power16(width)
    ensures |Hex(x, width)| == width && AllXDigits(Hex(x, width))
    ensures HexValue(Hex(x, width)) == x
  {
    if width > 0 {
      HexLength(x / 16, width - 1);
      assert Hex(x, width)[..width - 1] == Hex(x / 16, width - 1);
    }
  }

  lemma {:induction false} HexOfValue(s: string)
    requires AllXDigits(s)
    ensures HexValue(s) < Power16(|s|)
    ensures Hex(HexValue(s), |s|) == Lower(s)
  {
    if s != "" {
      var n := |s| - 1;
      HexOfValue(s[..n]);
      var v, d := HexValue(s[..n]), DigitValue(s[n]);
      assert (v * 16 + d) / 16 == v && (v * 16 + d) % 16 == d;
      assert Digit(d) == LowerChar(s[n]);
    }
  }

  /** strtoul on `n` digits that a non-digit other than x, or the end, follows. */
  lemma StrToUlReads(s: string, n: nat)
    requires 0 < n <= |s| && n <= 16 && AllXDigits(s[..n]) && !IsXDigit(CharAt(s, n))
    requires n == 1 ==> CharAt(s, 1) != 'x' && CharAt(s, 1) != 'X'
    ensures CharAt(s, 0) == s[..n][0]
    ensures StrToUl(s) == HexValue(s[..n])
  {
    assert forall i :: 0 <= i < n ==> s[i] == s[..n][i];
    PrefixIs(s, n);
    HexOfValue(s[..n]);
    Power16Monotone(n, 16);
    Power16Is();
  }

  lemma {:induction false} PrefixIs(s: string, n: nat)
    requires n <= |s| && (forall i :: 0 <= i < n ==> IsXDigit(s[i])) && !IsXDigit(CharAt(s, n))
    ensures XDigitPrefix(s) == s[..n]
  {
    if n > 0 {
      PrefixIs(s[1..], n - 1);
      assert [s[0]] + s[1..][..n - 1] == s[..n];
    }
  }

  lemma {:induction false} Power16Monotone(a: nat, b: nat)
    requires a <= b
    ensures Power16(a) <= Power16(b)
  {
    if a < b {
      Power16Monotone(a, b - 1);
    }
  }

  lemma Power16Is()
    ensures Power16(2) == 0x100 && Power16(4) == 0x1_0000 && Power16(8) == 0x1_0000_0000
    ensures Power16(16) == ULONG_MAX + 1
  {
    assert Power16(2) == 0x100;
    assert Power16(3) == 0x1000;
    assert Power16(4) == 0x1_0000;
    assert Power16(5) == 0x10_0000;
    assert Power16(6) == 0x100_0000;
    assert Power16(7) == 0x1000_0000;
    assert Power16(8) == 0x1_0000_0000;
    assert Power16(9) == 0x10_0000_0000;
    assert Power16(10) == 0x100_0000_0000;
    assert Power16(11) == 0x1000_0000_0000;
    assert Power16(12) == 0x1_0000_0000_0000;
    assert Power16(13) == 0x10_0000_0000_0000;
    assert Power16(14) == 0x100_0000_0000_0000;
    assert Power16(15) == 0x1000_0000_0000_0000;
  }

  // ---------- parse, then print ----------

  lemma {:induction false} LowerConcat(a: string, b: string)
    ensures Lower(a + b) == Lower(a) + Lower(b)
  {
    if b == "" {
      assert a + b == a;
    } else {
      var n := |b| - 1;
      assert (a + b)[..|a + b| - 1] == a + b[..n];
      LowerConcat(a, b[..n]);
    }
  }

  /** A field of `n` digits that a dash or the end follows is read back as its value. */
  lemma FieldReads(s: string, i: nat, n: nat, bound: nat)
    requires 2 <= n <= 8 && i + n <= |s| && AllXDigits(s[i..i + n])
    requires CharAt(s, i + n) == '-' || i + n == |s|
    requires 0 < bound == Power16(n)
    ensures IsXDigit(CharAt(s, i))
    ensures ReadAt(s, i, bound) == HexValue(s[i..i + n])
    ensures Hex(ReadAt(s, i, bound), n) == Lower(s[i..i + n])
  {
    TailReads(s, i, n);
    HexOfValue(s[i..i + n]);
    Fits(StrToUl(s[i..]), bound);
  }

  lemma TailReads(s: string, i: nat, n: nat)
    requires 2 <= n <= 8 && i + n <= |s| && AllXDigits(s[i..i + n])
    requires CharAt(s, i + n) == '-' || i + n == |s|
    ensures IsXDigit(CharAt(s, i)) && IsXDigit(CharAt(s[i..], 0))
    ensures StrToUl(s[i..]) == HexValue(s[i..i + n])
  {
    var t := s[i..];
    assert t[..n] == s[i..i + n];
    assert CharAt(t, n) == CharAt(s, i + n);
    assert t[..n][0] == s[i];
    StrToUlReads(t, n);
  }

  /** Characters `i` to `j` of a well-shaped string, none of them a dash position. */
  lemma ShapeDigits(s: string, i: nat, j: nat)
    requires WellShaped(s) && i <= j <= 36 <= |s|
    requires forall k :: i <= k < j ==> !IsDash(k)
    ensures AllXDigits(s[i..j])
  {
    forall k | 0 <= k < j - i ensures IsXDigit(s[i..j][k]) {
      assert !IsDash(i + k);
      WellShapedAt(s, i + k);
    }
  }

  lemma ShapedFields(s: string)
    requires WellShaped(s) && |s| >= 36
    ensures Hex(TimeLowAt(s), 8) == Lower(s[0..8])
    ensures Hex(TimeMidAt(s), 4) == Lower(s[9..13])
    ensures Hex(TimeHiAt(s), 4) == Lower(s[14..18])
    ensures Hex(ClockAt(s), 4) == Lower(s[19..23])
  {
    Power16Is();
    assert CharOk(s, 8) && CharOk(s, 13) && CharOk(s, 18) && CharOk(s, 23);
    ShapeDigits(s, 0, 8);
    ShapeDigits(s, 9, 13);
    ShapeDigits(s, 14, 18);
    ShapeDigits(s, 19, 23);
    FieldReads(s, 0, 8, 0x1_0000_0000);
    FieldReads(s, 9, 4, 0x1_0000);
    FieldReads(s, 14, 4, 0x1_0000);
    FieldReads(s, 19, 4, 0x1_0000);
  }

  lemma NodeReads(s: string, i: nat)
    requires WellShaped(s) && |s| >= 36 && i < 6
    ensures Hex(NodeAt(s, i), 2) == Lower(s[24 + 2 * i..26 + 2 * i])
    ensures AllXDigits(s[24 + 2 * i..26 + 2 * i])
    ensures NodeAt(s, i) == HexValue(s[24 + 2 * i..26 + 2 * i])
  {
    var t := s[24 + 2 * i..26 + 2 * i];
    ShapeDigits(s, 24 + 2 * i, 26 + 2 * i);
    Power16Is();
    assert t[0..2] == t;
    FieldReads(t, 0, 2, 0x100);
  }

  lemma {:induction false} NodeText(s: string, i: nat)
    requires WellShaped(s) && |s| >= 36 && i <= 6
    ensures HexOctets(NodeFrom(s, i)) == Lower(s[24 + 2 * i..36])
    decreases 6 - i
  {
    if i == 6 {
      assert s[36..36] == "";
    } else {
      NodeText(s, i + 1);
      NodeReads(s, i);
      HexOctetsCons(NodeAt(s, i), NodeFrom(s, i + 1));
      LowerCut(s, 24 + 2 * i, 26 + 2 * i, 36);
    }
  }

  lemma LowerCut(s: string, i: nat, j: nat, n: nat)
    requires i <= j <= n <= |s|
    ensures Lower(s[i..n]) == Lower(s[i..j]) + Lower(s[j..n])
  {
    LowerConcat(s[i..j], s[j..n]);
    assert s[i..n] == s[i..j] + s[j..n];
  }

  lemma HexOctetsCons(b: Octet, rest: seq<Octet>)
    ensures HexOctets([b] + rest) == Hex(b, 2) + HexOctets(rest)
  {
    assert ([b] + rest)[1..] == rest;
  }

  lemma HexSplit(x: Word16)
    ensures Hex(x, 4) == Hex(x / 0x100, 2) + Hex(x % 0x100, 2)
  {
    var h, l := x / 0x100, x % 0x100;
    assert Hex(x, 4) == Hex(x / 16, 3) + [Digit(x % 16)];
    assert Hex(x / 16, 3) == Hex(x / 16 / 16, 2) + [Digit(x / 16 % 16)];
    assert x / 16 / 16 == h && l % 16 == x % 16 && l / 16 == x / 16 % 16;
    assert Hex(l, 2) == Hex(l / 16, 1) + [Digit(l % 16)];
    assert Hex(l / 16, 1) == Hex(0, 0) + [Digit(l / 16)];
  }

  /** The last three groups of a 36-character string of the right shape. */
  lemma LowerTail(s: string)
    requires |s| >= 36 && s[18] == s[23] == '-'
    ensures Lower(s[14..36]) == Lower(s[14..18]) + "-" + (Lower(s[19..23]) + "-" + Lower(s[24..36]))
  {
    LowerDash(s, 14, 18, 36);
    LowerDash(s, 19, 23, 36);
  }

  /** All five groups. */
  lemma LowerGroups(s: string)
    requires |s| >= 36 && s[8] == s[13] == s[18] == s[23] == '-'
    ensures Lower(s[..36]) == Lower(s[0..8]) + "-" + Lower(s[9..13]) + "-" + Lower(s[14..18]) + "-"
                              + Lower(s[19..23]) + "-" + Lower(s[24..36])
  {
    LowerDash(s, 0, 8, 36);
    LowerDash(s, 9, 13, 36);
    LowerTail(s);
    assert s[..36] == s[0..36];
    Regroup(Lower(s[0..8]), Lower(s[9..13]), Lower(s[14..18]), Lower(s[19..23]), Lower(s[24..36]));
  }

  lemma Regroup(a: string, b: string, c: string, d: string, e: string)
    ensures a + "-" + (b + "-" + (c + "-" + (d + "-" + e))) == a + "-" + b + "-" + c + "-" + d + "-" + e
  {
  }

  lemma LowerDash(s: string, i: nat, j: nat, n: nat)
    requires i <= j < n <= |s| && s[j] == '-'
    ensures Lower(s[i..n]) == Lower(s[i..j]) + "-" + Lower(s[j + 1..n])
  {
    assert s[i..n] == (s[i..j] + "-") + s[j + 1..n];
    LowerConcat(s[i..j] + "-", s[j + 1..n]);
    LowerConcat(s[i..j], "-");
    assert "-"[..0] == "";
    assert Lower("-") == "-";
  }

  /** Both bytes of the clock sequence, printed. */
  function ClockText(f: Fields): string {
    Hex(f.clockHiAndReserved, 2) + Hex(f.clockLow, 2)
  }

  /** The text of fields whose groups are given. */
  lemma TextOf(f: Fields, a: string, b: string, c: string, d: string, e: string)
    requires Hex(f.timeLow, 8) == a && Hex(f.timeMid, 4) == b && Hex(f.timeHiAndVersion, 4) == c
    requires ClockText(f) == d && HexOctets(f.node) == e
    ensures UnparseFields(f) == Truncate(a + "-" + b + "-" + c + "-" + d + "-" + e, 36)
  {
    UnparseJoins(f);
  }

  lemma ClockOf(s: string, f: Fields)
    requires WellShaped(s) && |s| >= 36 && f == FieldsOf(s)
    ensures ClockText(f) == Lower(s[19..23])
  {
    ShapedFields(s);
    HexSplit(ClockAt(s));
  }

  lemma NodeOf(s: string, f: Fields)
    requires WellShaped(s) && |s| >= 36 && f == FieldsOf(s)
    ensures HexOctets(f.node) == Lower(s[24..36])
  {
    NodeTextFrom(s, 0, 24);
  }

  lemma NodeTextFrom(s: string, i: nat, lo: nat)
    requires WellShaped(s) && |s| >= 36 && i <= 6 && lo == 24 + 2 * i
    ensures HexOctets(NodeFrom(s, i)) == Lower(s[lo..36])
  {
    NodeText(s, i);
  }

  lemma ShapedFieldsText(s: string, f: Fields)
    requires WellShaped(s) && |s| >= 36 && f == FieldsOf(s)
    ensures UnparseFields(f) == Lower(s[..36])
  {
    assert Hex(f.timeLow, 8) == Lower(s[0..8]) && Hex(f.timeMid, 4) == Lower(s[9..13])
           && Hex(f.timeHiAndVersion, 4) == Lower(s[14..18]) by {
      ShapedFields(s);
    }
    ClockOf(s, f);
    NodeOf(s, f);
    TextOf(f, Lower(s[0..8]), Lower(s[9..13]), Lower(s[14..18]), Lower(s[19..23]), Lower(s[24..36]));
    assert CharOk(s, 8) && CharOk(s, 13) && CharOk(s, 18) && CharOk(s, 23);
    LowerGroups(s);
    LowerLength(s[..36]);
  }

  /** Any accepted string is printed back as its first 36 characters in lower case. */
  lemma UnparseParse(s: string)
    requires WellShaped(s)
    ensures Parse(s).Some? && |s| >= 36 && Unparse(Parse(s).value) == Lower(s[..36])
  {
    WellShapedAt(s, 35);
    UnpackPack(FieldsOf(s));
    ShapedFieldsText(s, FieldsOf(s));
  }

  lemma UnparseJoins(f: Fields)
    ensures UnparseFields(f)
         == Truncate(Hex(f.timeLow, 8) + "-" + Hex(f.timeMid, 4) + "-" + Hex(f.timeHiAndVersion, 4) + "-"
                     + ClockText(f) + "-" + HexOctets(f.node), 36)
  {
    var a := Hex(f.timeLow, 8) + "-" + Hex(f.timeMid, 4) + "-" + Hex(f.timeHiAndVersion, 4) + "-";
    var hi, low := Hex(f.clockHiAndReserved, 2), Hex(f.clockLow, 2);
    assert a + hi + low == a + (hi + low);
  }

  lemma {:induction false} LowerLength(s: string)
    ensures |Lower(s)| == |s|
  {
    if s != "" {
      LowerLength(s[..|s| - 1]);
    }
  }

  // ---------- print, then parse ----------

  lemma {:induction false} HexOctetsLength(s: seq<Octet>)
    ensures |HexOctets(s)| == 2 * |s|
  {
    if s != [] {
      Power16Is();
      HexLength(s[0], 2);
      HexOctetsLength(s[1..]);
    }
  }

  lemma {:induction false} HexOctetsAt(s: seq<Octet>, i: nat)
    requires i < |s|
    ensures |HexOctets(s)| == 2 * |s|
    ensures HexOctets(s)[2 * i..2 * i + 2] == Hex(s[i], 2)
  {
    Power16Is();
    HexLength(s[0], 2);
    HexOctetsLength(s);
    HexOctetsLength(s[1..]);
    if i > 0 {
      HexOctetsAt(s[1..], i - 1);
      assert HexOctets(s)[2 * i..2 * i + 2] == HexOctets(s[1..])[2 * (i - 1)..2 * (i - 1) + 2];
    } else {
      assert HexOctets(s)[0..2] == Hex(s[0], 2);
    }
  }

  /** The group that starts at position `k` and the dash behind it. */
  lemma CutGroup(t: string, k: nat, group: string, rest: string)
    requires k <= |t| && t[k..] == group + "-" + rest
    ensures k + |group| < |t| && t[k..k + |group|] == group
    ensures t[k + |group|] == '-' && t[k + |group| + 1..] == rest
  {
    assert t[k..][..|group|] == group;
    assert t[k..][|group|] == '-';
    assert t[k..][|group| + 1..] == rest;
  }

  lemma Reassociate(a: string, b: string, c: string, d: string, n: string)
    ensures a + "-" + b + "-" + c + "-" + d + "-" + n == a + "-" + (b + "-" + (c + "-" + (d + "-" + n)))
  {
  }

  /** Five groups of known lengths and the dashes between them, cut apart again. */
  lemma Groups(a: string, b: string, c: string, d: string, n: string, t: string)
    requires |a| == 8 && |b| == |c| == |d| == 4 && |n| == 12
    requires t == a + "-" + b + "-" + c + "-" + d + "-" + n
    ensures |t| == 36 && t[8] == t[13] == t[18] == t[23] == '-'
    ensures t[0..8] == a && t[9..13] == b && t[14..18] == c && t[19..23] == d && t[24..36] == n
  {
    Reassociate(a, b, c, d, n);
    assert t[0..] == t;
    CutGroup(t, 0, a, b + "-" + (c + "-" + (d + "-" + n)));
    CutGroup(t, 9, b, c + "-" + (d + "-" + n));
    CutGroup(t, 14, c, d + "-" + n);
    CutGroup(t, 19, d, n);
    assert t[24..] == n;
  }

  lemma HexLengths(f: Fields)
    ensures |Hex(f.timeLow, 8)| == 8 && AllXDigits(Hex(f.timeLow, 8)) && HexValue(Hex(f.timeLow, 8)) == f.timeLow
    ensures |Hex(f.timeMid, 4)| == 4 && AllXDigits(Hex(f.timeMid, 4)) && HexValue(Hex(f.timeMid, 4)) == f.timeMid
    ensures |Hex(f.timeHiAndVersion, 4)| == 4 && AllXDigits(Hex(f.timeHiAndVersion, 4))
            && HexValue(Hex(f.timeHiAndVersion, 4)) == f.timeHiAndVersion
  {
    Power16Is();
    HexLength(f.timeLow, 8);
    HexLength(f.timeMid, 4);
    HexLength(f.timeHiAndVersion, 4);
  }

  lemma ClockTextIs(f: Fields)
    ensures |ClockText(f)| == 4 && AllXDigits(ClockText(f))
    ensures HexValue(ClockText(f)) == f.clockHiAndReserved * 0x100 + f.clockLow
  {
    Power16Is();
    HexLength(f.clockHiAndReserved, 2);
    HexLength(f.clockLow, 2);
    HexValueConcat(Hex(f.clockHiAndReserved, 2), Hex(f.clockLow, 2));
  }

  /** The printed string, cut into its fields. */
  lemma PrintedFields(f: Fields, t: string)
    requires t == UnparseFields(f)
    ensures |t| == 36 && t[8] == t[13] == t[18] == t[23] == '-'
    ensures t[0..8] == Hex(f.timeLow, 8) && t[9..13] == Hex(f.timeMid, 4) && t[14..18] == Hex(f.timeHiAndVersion, 4)
    ensures t[19..23] == ClockText(f) && t[24..36] == HexOctets(f.node)
  {
    HexLengths(f);
    ClockTextIs(f);
    HexOctetsLength(f.node);
    UnparseJoins(f);
    var all := Hex(f.timeLow, 8) + "-" + Hex(f.timeMid, 4) + "-" + Hex(f.timeHiAndVersion, 4) + "-" + ClockText(f)
               + "-" + HexOctets(f.node);
    Groups(Hex(f.timeLow, 8), Hex(f.timeMid, 4), Hex(f.timeHiAndVersion, 4), ClockText(f), HexOctets(f.node), all);
  }

  lemma PrintedNode(f: Fields, t: string, i: nat)
    requires t == UnparseFields(f) && i < 6
    ensures |t| == 36 && t[24 + 2 * i..26 + 2 * i] == Hex(f.node[i], 2)
    ensures |Hex(f.node[i], 2)| == 2 && AllXDigits(Hex(f.node[i], 2))
  {
    PrintedFields(f, t);
    HexOctetsAt(f.node, i);
    Power16Is();
    HexLength(f.node[i], 2);
    assert t[24..36][2 * i..2 * i + 2] == t[24 + 2 * i..26 + 2 * i];
  }

  lemma DigitAt(t: string, lo: nat, hi: nat, i: nat)
    requires lo <= i < hi <= |t| && AllXDigits(t[lo..hi])
    ensures IsXDigit(CharAt(t, i))
  {
    assert t[lo..hi][i - lo] == t[i];
  }

  lemma PrintedCharOk(f: Fields, t: string, i: nat)
    requires t == UnparseFields(f) && i < 36
    ensures CharOk(t, i)
  {
    PrintedFields(f, t);
    if !IsDash(i) {
      if i < 24 {
        HexLengths(f);
        ClockTextIs(f);
        var lo := if i < 8 then 0 else if i < 13 then 9 else if i < 18 then 14 else 19;
        DigitAt(t, lo, if i < 8 then 8 else lo + 4, i);
      } else {
        var k := (i - 24) / 2;
        PrintedNode(f, t, k);
        DigitAt(t, 24 + 2 * k, 26 + 2 * k, i);
      }
    }
  }

  lemma PrintedIsShaped(f: Fields)
    ensures WellShaped(UnparseFields(f))
  {
    forall i | 0 <= i < 36 ensures CharOk(UnparseFields(f), i) {
      PrintedCharOk(f, UnparseFields(f), i);
    }
  }

  lemma {:induction false} HexValueConcat(a: string, b: string)
    requires AllXDigits(a) && AllXDigits(b)
    ensures AllXDigits(a + b)
    ensures HexValue(a + b) == HexValue(a) * Power16(|b|) + HexValue(b)
  {
    if b == "" {
      assert a + b == a;
    } else {
      var n := |b| - 1;
      assert (a + b)[..|a + b| - 1] == a + b[..n];
      HexValueConcat(a, b[..n]);
      TimesSixteen(HexValue(a), Power16(n), HexValue(b[..n]), DigitValue(b[n]));
    }
  }

  lemma TimesSixteen(a: nat, p: nat, b: nat, d: nat)
    ensures (a * p + b) * 16 + d == a * (p * 16) + (b * 16 + d)
  {
    assert a * (p * 16) == a * p * 16;
  }

  lemma PrintedNodeReads(f: Fields, t: string, i: nat)
    requires t == UnparseFields(f) && WellShaped(t) && i < 6
    ensures NodeAt(t, i) == f.node[i]
  {
    PrintedNode(f, t, i);
    NodeReads(t, i);
    Power16Is();
    HexLength(f.node[i], 2);
  }

  lemma {:induction false} PrintedNodeFrom(f: Fields, t: string, i: nat)
    requires t == UnparseFields(f) && WellShaped(t) && i <= 6
    ensures NodeFrom(t, i) == f.node[i..]
    decreases 6 - i
  {
    if i < 6 {
      PrintedNodeReads(f, t, i);
      PrintedNodeFrom(f, t, i + 1);
    }
  }

  lemma PrintedReads(f: Fields, t: string)
    requires t == UnparseFields(f) && WellShaped(t)
    ensures TimeLowAt(t) == f.timeLow && TimeMidAt(t) == f.timeMid && TimeHiAt(t) == f.timeHiAndVersion
    ensures ClockAt(t) == f.clockHiAndReserved * 0x100 + f.clockLow
  {
    PrintedFields(f, t);
    HexLengths(f);
    ClockTextIs(f);
    Power16Is();
    FieldReads(t, 0, 8, 0x1_0000_0000);
    FieldReads(t, 9, 4, 0x1_0000);
    FieldReads(t, 14, 4, 0x1_0000);
    FieldReads(t, 19, 4, 0x1_0000);
  }

  lemma PrintedFieldsRead(f: Fields)
    ensures WellShaped(UnparseFields(f)) && FieldsOf(UnparseFields(f)) == f
  {
    PrintedIsShaped(f);
    PrintedReads(f, UnparseFields(f));
    PrintedNodeFrom(f, UnparseFields(f), 0);
  }

  /** Every session id survives being printed and parsed again. */
  lemma ParseUnparse(u: Uuid)
    ensures Parse(Unparse(u)) == Some(u)
  {
    PrintedFieldsRead(Unpack(u));
    PackUnpack(u);
  }

  // ---------- the text, character by character ----------

  const LOWER_DIGITS: string := "0123456789abcdef"
  const UPPER_DIGITS: string := "0123456789ABCDEF"

  /** `c` is the hexadecimal digit, of either case, for the value `v`. */
  predicate IsDigitFor(c: char, v: int) {
    0 <= v < 16 && (c == LOWER_DIGITS[v] || c == UPPER_DIGITS[v])
  }

  lemma DigitsByPlace(c: char, v: int)
    requires 0 <= v < 16
    ensures Digit(v) == LOWER_DIGITS[v]
    ensures IsDigitFor(c, v) <==> IsXDigit(c) && DigitValue(c) == v
  {
  }

  predicate IsAnyDigit(c: char) {
    exists v :: 0 <= v < 16 && IsDigitFor(c, v)
  }

  lemma AnyDigit(c: char)
    ensures IsAnyDigit(c) <==> IsXDigit(c)
  {
    if IsXDigit(c) {
      DigitsByPlace(c, DigitValue(c));
    } else {
      forall v | 0 <= v < 16 ensures !IsDigitFor(c, v) {
        DigitsByPlace(c, v);
      }
    }
  }

  /** uuid_parse accepts exactly this: 8-4-4-4-12 digits of either case, and then anything. */
  lemma ShapeExactly(s: string)
    ensures WellShaped(s) <==>
            && |s| >= 36
            && s[8] == s[13] == s[18] == s[23] == '-'
            && forall i :: 0 <= i < 36 && i != 8 && i != 13 && i != 18 && i != 23 ==> IsAnyDigit(s[i])
  {
    if WellShaped(s) {
      WellShapedAt(s, 35);
      assert CharOk(s, 8) && CharOk(s, 13) && CharOk(s, 18) && CharOk(s, 23);
      forall i | 0 <= i < 36 && i != 8 && i != 13 && i != 18 && i != 23 ensures IsAnyDigit(s[i]) {
        WellShapedAt(s, i);
        AnyDigit(s[i]);
      }
    } else if |s| >= 36 {
      var i :| 0 <= i < 36 && !CharOk(s, i);
      AnyDigit(s[i]);
    }
  }

  /** Where the two digits of byte `k` stand in the text. */
  function Place(k: nat): nat {
    2 * k + if k < 4 then 0 else if k < 6 then 1 else if k < 8 then 2 else if k < 10 then 3 else 4
  }

  lemma HexByte(b: Octet)
    ensures Hex(b, 2) == [LOWER_DIGITS[b / 16], LOWER_DIGITS[b % 16]]
  {
    DigitsByPlace('0', b / 16);
    DigitsByPlace('0', b % 16);
    assert Hex(b, 2) == Hex(b / 16, 1) + [Digit(b % 16)];
    assert Hex(b / 16, 1) == Hex(0, 0) + [Digit(b / 16)];
  }

  /** The last four digits of a number. */
  function LastFour(x: nat): string {
    [Digit(x / 0x1000 % 16), Digit(x / 0x100 % 16), Digit(x / 16 % 16), Digit(x % 16)]
  }

  lemma HexLastFour(x: nat, width: nat)
    ensures Hex(x, width + 4) == Hex(x / 0x1_0000, width) + LastFour(x)
  {
    var y := x / 16;
    var z := y / 16;
    assert y / 16 == x / 0x100 && z / 16 == x / 0x1000 && z / 16 / 16 == x / 0x1_0000;
    assert Hex(x, width + 4) == Hex(y, width + 3) + [Digit(x % 16)];
    assert Hex(y, width + 3) == Hex(z, width + 2) + [Digit(y % 16)];
    assert Hex(z, width + 2) == Hex(z / 16, width + 1) + [Digit(z % 16)];
    assert Hex(z / 16, width + 1) == Hex(z / 16 / 16, width) + [Digit(z / 16 % 16)];
  }

  /** The last four digits do not depend on what is above them. */
  lemma SameLastFour(x: nat)
    ensures LastFour(x % 0x1_0000) == LastFour(x)
  {
    var h, l := x / 0x1_0000, x % 0x1_0000;
    assert x == h * 16 * 0x1000 + l && x == h * 0x100 * 0x100 + l && x == h * 0x1000 * 16 + l;
    Div1000(h * 16, l);
    Div100(h * 0x100, l);
    Div10(h * 0x1000, l);
    Mod10(h, l / 0x1000);
    Mod10(h * 16, l / 0x100);
    Mod10(h * 0x100, l / 16);
    Mod10(h * 0x1000, l);
  }

  lemma Div1000(k: nat, r: nat)
    ensures (k * 0x1000 + r) / 0x1000 == k + r / 0x1000
  {
  }

  lemma Div100(k: nat, r: nat)
    ensures (k * 0x100 + r) / 0x100 == k + r / 0x100
  {
  }

  lemma Div10(k: nat, r: nat)
    ensures (k * 0x10 + r) / 0x10 == k + r / 0x10
  {
  }

  lemma Mod10(k: nat, r: nat)
    ensures (k * 0x10 + r) % 0x10 == r % 0x10
  {
  }

  /** Eight digits are four and four. */
  lemma HexHalves(x: Word32)
    ensures Hex(x, 8) == Hex(x / 0x1_0000, 4) + Hex(x % 0x1_0000, 4)
  {
    HexLastFour(x, 4);
    HexLastFour(x % 0x1_0000, 0);
    SameLastFour(x);
    assert Hex(0, 0) + LastFour(x) == LastFour(x);
  }

  /** The two digits of byte `k` of a text. */
  function PairAt(t: string, k: nat): string
    requires k < 16 && |t| == 36
  {
    t[Place(k)..Place(k) + 2]
  }

  /**
    The text of a session id: 36 characters, dashes between the groups, and every byte, in the
    order of section 4.1.2 of RFC 4122, as two lower-case digits.
   */
  lemma TextExactly(u: Uuid, k: nat)
    requires k < 16
    ensures var t := Unparse(u);
            && |t| == 36 && t[8] == t[13] == t[18] == t[23] == '-'
            && t[Place(k)] == LOWER_DIGITS[u[k] / 16] && t[Place(k) + 1] == LOWER_DIGITS[u[k] % 16]
  {
    var f, t := Unpack(u), Unparse(u);
    PackUnpack(u);
    PrintedPair(f, t, k);
    HexByte(u[k]);
    assert PairAt(t, k)[0] == t[Place(k)] && PairAt(t, k)[1] == t[Place(k) + 1];
  }

  lemma PrintedPair(f: Fields, t: string, k: nat)
    requires t == UnparseFields(f) && k < 16
    ensures |t| == 36 && t[8] == t[13] == t[18] == t[23] == '-'
    ensures PairAt(t, k) == Hex(Pack(f)[k], 2)
  {
    PrintedFields(f, t);
    if k < 4 {
      PrintedLow(f, t, k);
    } else if k < 8 {
      PrintedFour(f, t, k);
    } else {
      PrintedRest(f, t, k);
    }
  }

  lemma PrintedLow(f: Fields, t: string, k: nat)
    requires |t| == 36 && t[0..8] == Hex(f.timeLow, 8) && k < 4
    ensures PairAt(t, k) == Hex(Pack(f)[k], 2)
  {
    TimeLowPairs(f.timeLow, k);
    PairInGroup(t, 0, 8, k, k);
    PackedAt(f, k);
  }

  lemma PrintedFour(f: Fields, t: string, k: nat)
    requires |t| == 36 && t[9..13] == Hex(f.timeMid, 4) && t[14..18] == Hex(f.timeHiAndVersion, 4) && 4 <= k < 8
    ensures PairAt(t, k) == Hex(Pack(f)[k], 2)
  {
    if k < 6 {
      PairInFour(t, 9, f.timeMid, k, k - 4);
    } else {
      PairInFour(t, 14, f.timeHiAndVersion, k, k - 6);
    }
    PackedAt(f, k);
  }

  lemma PrintedRest(f: Fields, t: string, k: nat)
    requires |t| == 36 && t[19..23] == ClockText(f) && t == UnparseFields(f) && 8 <= k < 16
    ensures PairAt(t, k) == Hex(Pack(f)[k], 2)
  {
    if k < 10 {
      ClockPairs(f, k - 8);
      PairInGroup(t, 19, 23, k, k - 8);
    } else {
      PrintedNode(f, t, k - 10);
    }
    PackedAt(f, k);
  }

  lemma PairInFour(t: string, lo: nat, x: Word16, k: nat, i: nat)
    requires |t| == 36 && k < 16 && i < 2 && Place(k) == lo + 2 * i && lo + 4 <= 36 && t[lo..lo + 4] == Hex(x, 4)
    ensures PairAt(t, k) == Hex(if i == 0 then x / 0x100 else x % 0x100, 2)
  {
    PairsOf(x, i);
    PairInGroup(t, lo, lo + 4, k, i);
  }

  /** The pair of byte `k` is the i-th of its group. */
  lemma PairInGroup(t: string, lo: nat, hi: nat, k: nat, i: nat)
    requires |t| == 36 && k < 16 && Place(k) == lo + 2 * i && lo + 2 * i + 2 <= hi <= 36
    ensures PairAt(t, k) == t[lo..hi][2 * i..2 * i + 2]
  {
    CutTwice(t, lo, hi, 2 * i, 2 * i + 2);
  }

  lemma CutTwice(t: string, lo: nat, hi: nat, i: nat, j: nat)
    requires i <= j <= hi - lo && lo <= hi <= |t|
    ensures t[lo..hi][i..j] == t[lo + i..lo + j]
  {
    forall k | 0 <= k < j - i ensures t[lo..hi][i..j][k] == t[lo + i..lo + j][k] {
      assert t[lo..hi][i + k] == t[lo + i + k];
    }
  }

  lemma PackedAt(f: Fields, k: nat)
    requires k < 16
    ensures k < 4 ==> Pack(f)[k] == TimeLowByte(f.timeLow, k)
    ensures Pack(f)[4] == f.timeMid / 0x100 && Pack(f)[5] == f.timeMid % 0x100
    ensures Pack(f)[6] == f.timeHiAndVersion / 0x100 && Pack(f)[7] == f.timeHiAndVersion % 0x100
    ensures Pack(f)[8] == f.clockHiAndReserved && Pack(f)[9] == f.clockLow
    ensures k >= 10 ==> Pack(f)[k] == f.node[k - 10]
  {
    HighByte(f.timeMid);
    HighByte(f.timeHiAndVersion);
  }

  lemma HighByte(x: Word16)
    ensures x / 0x100 % 0x100 == x / 0x100
  {
    assert 0 <= x / 0x100 < 0x100;
  }

  lemma ClockPairs(f: Fields, i: nat)
    requires i < 2
    ensures |ClockText(f)| == 4
    ensures ClockText(f)[2 * i..2 * i + 2] == Hex(if i == 0 then f.clockHiAndReserved else f.clockLow, 2)
  {
    HexByte(f.clockHiAndReserved);
    HexByte(f.clockLow);
  }

  /** The two digit pairs of a group of four. */
  lemma PairsOf(x: Word16, i: nat)
    requires i < 2
    ensures |Hex(x, 4)| == 4
    ensures Hex(x, 4)[2 * i..2 * i + 2] == Hex(if i == 0 then x / 0x100 else x % 0x100, 2)
  {
    HexSplit(x);
    HexByte(x / 0x100);
    HexByte(x % 0x100);
    Halves(Hex(x / 0x100, 2), Hex(x % 0x100, 2), 2, i);
  }

  lemma Halves(a: string, b: string, n: nat, i: nat)
    requires |a| == |b| == n && i < 2
    ensures (a + b)[n * i..n * i + n] == if i == 0 then a else b
  {
  }

  /** The four digit pairs of the first group. */
  lemma TimeLowPairs(x: Word32, k: nat)
    requires k < 4
    ensures |Hex(x, 8)| == 8
    ensures Hex(x, 8)[2 * k..2 * k + 2] == Hex(TimeLowByte(x, k), 2)
  {
    HexHalves(x);
    TimeLowBytes(x);
    var h, l := x / 0x1_0000, x % 0x1_0000;
    HexWidth(h);
    HexWidth(l);
    if k < 2 {
      PairsOf(h, k);
      FirstHalf(Hex(h, 4), Hex(l, 4), 2 * k);
    } else {
      PairsOf(l, k - 2);
      SecondHalf(Hex(h, 4), Hex(l, 4), 2 * k);
    }
  }

  function TimeLowByte(x: Word32, k: nat): Octet
    requires k < 4
  {
    if k == 0 then x / 0x100_0000 % 0x100 else if k == 1 then x / 0x1_0000 % 0x100
    else if k == 2 then x / 0x100 % 0x100 else x % 0x100
  }

  lemma HexWidth(x: Word16)
    ensures |Hex(x, 4)| == 4
  {
    PairsOf(x, 0);
  }

  lemma FirstHalf(a: string, b: string, i: nat)
    requires i + 2 <= |a|
    ensures (a + b)[i..i + 2] == a[i..i + 2]
  {
  }

  lemma SecondHalf(a: string, b: string, i: nat)
    requires |a| <= i && i + 2 <= |a| + |b|
    ensures (a + b)[i..i + 2] == b[i - |a|..i - |a| + 2]
  {
  }

  lemma TimeLowBytes(x: Word32)
    ensures x / 0x1_0000 / 0x100 == x / 0x100_0000 % 0x100 && x / 0x1_0000 % 0x100 == x / 0x1_0000 % 0x100
    ensures x % 0x1_0000 / 0x100 == x / 0x100 % 0x100 && x % 0x1_0000 % 0x100 == x % 0x100
  {
    var h, l := x / 0x1_0000, x % 0x1_0000;
    assert x == h * 0x100 * 0x100 + l;
    assert x / 0x100_0000 == h / 0x100 && x / 0x100 == h * 0x100 + l / 0x100;
  }
}
