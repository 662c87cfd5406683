/**
  url_encode and url_decode of src/urlendecode.c: the application/x-www-form-urlencoded form of
  section 17.13.4.1 of HTML 4.01 over the percent-encoding of section 2.1 of RFC 3986.
  `char` is a byte; arithmetic on it wraps as bv8 does.
 */
module UrlCodec {
  import opened Bytes

  const PERCENT: Byte := 0x25
  const PLUS: Byte := 0x2B
  const SPACE: Byte := 0x20

  predicate IsDigit(b: Byte) {
    0x30 <= b <= 0x39
  }

  /** isalnum in the C locale */
  predicate IsAlnum(b: Byte) {
    IsDigit(b) || 0x41 <= b <= 0x5A || 0x61 <= b <= 0x7A
  }

  /** Letters, digits, '-', '_' and '.' stand for themselves. */
  predicate IsPlain(b: Byte) {
    IsAlnum(b) || b == 0x2D || b == 0x5F || b == 0x2E
  }

  function ToLower(b: Byte): Byte {
    if 0x41 <= b <= 0x5A then b + 0x20 else b
  }

  /** Whatever the byte is: only hexadecimal digits give their value. */
  function FromHex(ch: Byte): Byte {
    if IsDigit(ch) then ch - 0x30 else ToLower(ch) - 0x61 + 10
  }

  function ToHex(code: Byte): Byte {
    if code & 15 < 10 then 0x30 + (code & 15) else 0x61 + (code & 15) - 10
  }

  /** The byte that the two characters after a '%' make, whatever they are. */
  function Joined(hi: Byte, lo: Byte): Byte {
    (FromHex(hi) << 4) | FromHex(lo)
  }

  // ---------- what the two functions compute ----------

  function EncodeByte(b: Byte): Bytes {
    if IsPlain(b) then [b]
    else if b == SPACE then [PLUS]
    else [PERCENT, ToHex(b >> 4), ToHex(b & 15)]
  }

  function Encode(s: Bytes): Bytes {
    if s == [] then [] else EncodeByte(s[0]) + Encode(s[1..])
  }

  /** A '%' that fewer than two bytes follow is dropped. */
  function Decode(s: Bytes): Bytes {
    if s == [] then []
    else if s[0] == PERCENT then
      if |s| >= 3 then [Joined(s[1], s[2])] + Decode(s[3..]) else Decode(s[1..])
    else if s[0] == PLUS then [SPACE] + Decode(s[1..])
    else [s[0]] + Decode(s[1..])
  }

  // ---------- the round trip ----------

  lemma HexRoundTrip(b: Byte)
    ensures Joined(ToHex(b >> 4), ToHex(b & 15)) == b
  {
    NibbleRoundTrip(b >> 4);
    NibbleRoundTrip(b & 15);
    assert (b >> 4) & 15 == b >> 4;
    assert (b & 15) & 15 == b & 15;
  }

  lemma NibbleRoundTrip(x: Byte)
    ensures FromHex(ToHex(x)) == x & 15
    ensures IsAlnum(ToHex(x))
  {
  }

  lemma DecodeEncodedByte(b: Byte, rest: Bytes)
    ensures Decode(EncodeByte(b) + rest) == [b] + Decode(rest)
  {
    var e := EncodeByte(b);
    if IsPlain(b) || b == SPACE {
      assert (e + rest)[1..] == rest;
    } else {
      HexRoundTrip(b);
      assert (e + rest)[3..] == rest;
    }
  }

  /** Decoding undoes encoding, for all byte strings. */
  lemma {:induction false} DecodeEncode(s: Bytes)
    ensures Decode(Encode(s)) == s
  {
    if s != [] {
      DecodeEncode(s[1..]);
      DecodeEncodedByte(s[0], Encode(s[1..]));
    }
  }

  // ---------- the two functions, character by character ----------

  /** The hexadecimal digits in the order of their values: 0 to 9, then a to f in one of the cases. */
  const LOWER: Bytes := [0x30, 0x31, 0x32, 0x33, 0x34, 0x35, 0x36, 0x37, 0x38, 0x39, 0x61, 0x62, 0x63, 0x64, 0x65, 0x66]
  const UPPER: Bytes := [0x30, 0x31, 0x32, 0x33, 0x34, 0x35, 0x36, 0x37, 0x38, 0x39, 0x41, 0x42, 0x43, 0x44, 0x45, 0x46]

  /** `d` is the hexadecimal digit, of either case, for the value `v`. */
  predicate IsHexDigit(d: Byte, v: Byte) {
    v < 16 && (d == LOWER[v as int] || d == UPPER[v as int])
  }

  lemma DigitValue(d: Byte, v: Byte)
    requires IsHexDigit(d, v)
    ensures FromHex(d) == v
  {
  }

  /** A '%' and two hexadecimal digits of any case are read as the byte that the digits spell. */
  lemma DecodeEscape(hi: Byte, lo: Byte, x: Byte, y: Byte, rest: Bytes)
    requires IsHexDigit(hi, x) && IsHexDigit(lo, y)
    ensures Decode([0x25, hi, lo] + rest) == [16 * x + y] + Decode(rest)
  {
    DigitValue(hi, x);
    DigitValue(lo, y);
    assert (x << 4) | y == 16 * x + y;
    assert ([0x25, hi, lo] + rest)[3..] == rest;
  }

  /** Characters that are no digits have a value as well: letters go on after f, and the rest wraps around. */
  lemma AnyValue(d: Byte)
    ensures FromHex(d) == if 0x30 <= d <= 0x39 then d - 0x30 else if 0x41 <= d <= 0x5A then d - 0x37 else d - 0x57
  {
    assert d + 0x20 - 0x61 + 10 == d - 0x37 && d - 0x61 + 10 == d - 0x57;
  }

  /** So any two characters after a '%' make one byte. */
  lemma DecodeAnyEscape(hi: Byte, lo: Byte, rest: Bytes)
    ensures Decode([0x25, hi, lo] + rest) == [(FromHex(hi) << 4) | FromHex(lo)] + Decode(rest)
  {
    assert ([0x25, hi, lo] + rest)[3..] == rest;
  }

  /** Everything else: '+' is a space, a '%' without two bytes after it is dropped, and other bytes stay. */
  lemma DecodeOther(b: Byte, rest: Bytes)
    ensures b == 0x2B ==> Decode([b] + rest) == [0x20] + Decode(rest)
    ensures b == 0x25 && |rest| < 2 ==> Decode([b] + rest) == Decode(rest)
    ensures b != 0x2B && b != 0x25 ==> Decode([b] + rest) == [b] + Decode(rest)
  {
    assert ([b] + rest)[1..] == rest;
  }

  function ToUpper(b: Byte): Byte {
    if 0x61 <= b <= 0x7A then b - 0x20 else b
  }

  /** The escapes of a string, written in upper case. */
  function UpperEscapes(s: Bytes): Bytes {
    if s == [] then []
    else if s[0] == PERCENT && |s| >= 3 then [s[0], ToUpper(s[1]), ToUpper(s[2])] + UpperEscapes(s[3..])
    else [s[0]] + UpperEscapes(s[1..])
  }

  /** The case of an escape does not matter, in any string. */
  lemma {:induction false} CaseIsIrrelevant(s: Bytes)
    ensures Decode(UpperEscapes(s)) == Decode(s)
    ensures |UpperEscapes(s)| == |s|
  {
    if s != [] {
      if s[0] == PERCENT && |s| >= 3 {
        CaseIsIrrelevant(s[3..]);
        assert UpperEscapes(s)[3..] == UpperEscapes(s[3..]);
        FromHexUpper(s[1]);
        FromHexUpper(s[2]);
      } else {
        CaseIsIrrelevant(s[1..]);
        assert UpperEscapes(s)[1..] == UpperEscapes(s[1..]);
      }
    }
  }

  lemma FromHexUpper(d: Byte)
    ensures FromHex(ToUpper(d)) == FromHex(d)
  {
  }

  /** So an encoding that spells its escapes in upper case is decoded as well. */
  lemma DecodeUpperEncode(s: Bytes)
    ensures Decode(UpperEscapes(Encode(s))) == s
  {
    CaseIsIrrelevant(Encode(s));
    DecodeEncode(s);
  }

  /**
    What a byte is encoded as: letters, digits, '-', '_' and '.' as themselves, a space as '+',
    and any other as '%' with the two lower-case digits that spell it.
   */
  lemma EncodeForms(b: Byte, rest: Bytes)
    ensures 0x30 <= b <= 0x39 || 0x41 <= b <= 0x5A || 0x61 <= b <= 0x7A || b == 0x2D || b == 0x5F || b == 0x2E <==>
            Encode([b] + rest) == [b] + Encode(rest)
    ensures b == 0x20 ==> Encode([b] + rest) == [0x2B] + Encode(rest)
    ensures b != 0x20 && Encode([b] + rest) != [b] + Encode(rest) ==>
              Encode([b] + rest) == [0x25, LOWER[(b / 16) as int], LOWER[(b % 16) as int]] + Encode(rest)
  {
    assert ([b] + rest)[1..] == rest;
    assert b >> 4 == b / 16 && b & 15 == b % 16;
    assert ToHex(b >> 4) == LOWER[(b >> 4) as int] && ToHex(b & 15) == LOWER[(b & 15) as int];
    var e := EncodeByte(b);
    assert Encode([b] + rest) == e + Encode(rest);
    if !IsPlain(b) {
      assert (e + Encode(rest))[0] == e[0] != b || |e + Encode(rest)| != |[b] + Encode(rest)|;
    }
  }

  /** The encoding consists of plain bytes, '%' and '+': no '&', no '=', no NUL. */
  lemma {:induction false} EncodedBytes(s: Bytes, i: nat)
    requires i < |Encode(s)|
    ensures IsPlain(Encode(s)[i]) || Encode(s)[i] == PERCENT || Encode(s)[i] == PLUS
  {
    var e := EncodeByte(s[0]);
    if i < |e| {
      assert Encode(s)[i] == e[i];
      NibbleRoundTrip(s[0] >> 4);
      NibbleRoundTrip(s[0] & 15);
    } else {
      EncodedBytes(s[1..], i - |e|);
      assert Encode(s)[i] == Encode(s[1..])[i - |e|];
    }
  }

  lemma {:induction false} EncodeLength(s: Bytes)
    ensures |s| <= |Encode(s)| <= 3 * |s|
  {
    if s != [] {
      EncodeLength(s[1..]);
    }
  }

  lemma {:induction false} DecodeLength(s: Bytes)
    ensures |Decode(s)| <= |s|
  {
    if s != [] {
      if s[0] == PERCENT && |s| >= 3 {
        DecodeLength(s[3..]);
      } else {
        DecodeLength(s[1..]);
      }
    }
  }

  // ---------- the loops of the source ----------

  /** The C string of length `n` at the start of `a`. */
  ghost predicate CString(a: array<Byte>, n: nat)
    reads a
  {
    n < a.Length && a[n] == 0 && forall i :: 0 <= i < n ==> a[i] != 0
  }

  method StrLen(a: array<Byte>, ghost n: nat) returns (len: nat)
    requires CString(a, n)
    ensures len == n
  {
    len := 0;
    while a[len] != 0
      invariant len <= n
      decreases n - len
    {
      len := len + 1;
    }
  }

  lemma EncodeStep(done: Bytes, s: Bytes, i: nat)
    requires i < |s|
    ensures done + Encode(s[i..]) == (done + EncodeByte(s[i])) + Encode(s[i + 1..])
  {
    assert s[i..][1..] == s[i + 1..];
  }

  /** Writes the code of `b` at `pbuf` and leaves what is before it alone. */
  method PutCode(buf: array<Byte>, pbuf: nat, b: Byte) returns (next: nat)
    requires pbuf + 3 < buf.Length
    modifies buf
    ensures pbuf < next <= pbuf + 3
    ensures buf[..next] == old(buf[..pbuf]) + EncodeByte(b)
  {
    if IsAlnum(b) || b == 0x2D || b == 0x5F || b == 0x2E {
      buf[pbuf] := b;
      next := pbuf + 1;
    } else if b == SPACE {
      buf[pbuf] := PLUS;
      next := pbuf + 1;
    } else {
      buf[pbuf] := PERCENT;
      buf[pbuf + 1] := ToHex(b >> 4);
      buf[pbuf + 2] := ToHex(b & 15);
      next := pbuf + 3;
    }
  }

  /** url_encode: `pstr` reads up to the NUL, `pbuf` stays inside the 3n + 1 bytes allocated. */
  method UrlEncode(str: array<Byte>, ghost n: nat) returns (buf: array<Byte>)
    requires CString(str, n)
    ensures fresh(buf) && buf.Length == 3 * n + 1
    ensures |Encode(str[..n])| < buf.Length
    ensures buf[..|Encode(str[..n])|] == Encode(str[..n]) && buf[|Encode(str[..n])|] == 0
  {
    ghost var s := str[..n];
    EncodeLength(s);
    var len := StrLen(str, n);
    buf := new Byte[len * 3 + 1];
    var pstr, pbuf := 0, 0;
    while str[pstr] != 0
      invariant pstr <= n && pbuf <= 3 * pstr
      invariant buf[..pbuf] + Encode(s[pstr..]) == Encode(s)
      decreases n - pstr
    {
      EncodeStep(buf[..pbuf], s, pstr);
      pbuf := PutCode(buf, pbuf, str[pstr]);
      pstr := pstr + 1;
    }
    assert buf[..pbuf] == Encode(s);
    buf[pbuf] := 0;
  }

  /** How many bytes of `s` one round of the decoding loop consumes, and what it writes. */
  function Consumed(s: Bytes): (k: nat)
    requires s != []
    ensures 1 <= k <= |s|
  {
    if s[0] == PERCENT && |s| >= 3 then 3 else 1
  }

  function Written(s: Bytes): Bytes
    requires s != []
  {
    if s[0] == PERCENT then (if |s| >= 3 then [Joined(s[1], s[2])] else [])
    else if s[0] == PLUS then [SPACE]
    else [s[0]]
  }

  lemma DecodeStep(done: Bytes, s: Bytes, i: nat)
    requires i < |s|
    ensures done + Decode(s[i..]) == (done + Written(s[i..])) + Decode(s[i + Consumed(s[i..])..])
  {
    assert s[i..][1..] == s[i + 1..];
    if |s[i..]| >= 3 {
      assert s[i..][3..] == s[i + 3..];
    }
  }

  /** One round of the decoding loop. */
  method GetByte(str: array<Byte>, ghost n: nat, pstr: nat, buf: array<Byte>, pbuf: nat) returns (read: nat, next: nat)
    requires CString(str, n) && pstr < n && buf != str && pbuf < buf.Length
    modifies buf
    ensures read == pstr + Consumed(str[pstr..n])
    ensures pbuf <= next <= pbuf + 1
    ensures buf[..next] == old(buf[..pbuf]) + Written(str[pstr..n])
  {
    read, next := pstr, pbuf;
    if str[read] == PERCENT {
      if str[read + 1] != 0 && str[read + 2] != 0 {
        buf[next] := (FromHex(str[read + 1]) << 4) | FromHex(str[read + 2]);
        next := next + 1;
        read := read + 2;
      }
    } else if str[read] == PLUS {
      buf[next] := SPACE;
      next := next + 1;
    } else {
      buf[next] := str[read];
      next := next + 1;
    }
    read := read + 1;
  }

  /** url_decode: the two bytes after a '%' are read only if no NUL comes before them. */
  method UrlDecode(str: array<Byte>, ghost n: nat) returns (buf: array<Byte>)
    requires CString(str, n)
    ensures fresh(buf) && buf.Length == n + 1
    ensures |Decode(str[..n])| < buf.Length
    ensures buf[..|Decode(str[..n])|] == Decode(str[..n]) && buf[|Decode(str[..n])|] == 0
  {
    ghost var s := str[..n];
    DecodeLength(s);
    var len := StrLen(str, n);
    buf := new Byte[len + 1];
    var pstr, pbuf := 0, 0;
    while str[pstr] != 0
      invariant pbuf <= pstr <= n
      invariant buf[..pbuf] + Decode(s[pstr..]) == Decode(s)
      decreases n - pstr
    {
      DecodeStep(buf[..pbuf], s, pstr);
      assert s[pstr..] == str[pstr..n];
      pstr, pbuf := GetByte(str, n, pstr, buf, pbuf);
    }
    assert buf[..pbuf] == Decode(s);
    buf[pbuf] := 0;
  }
}
