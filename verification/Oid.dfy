/**
  Object identifiers: a type byte, two padding bytes and a 32 byte hash, carried together with
  their base32 text. The text follows section 6 of RFC 4648 (standard alphabet, with padding).
 */
module Base32 {
  import Radix
  import opened Results

  type byte = x: int | 0 <= x < 256
  type digit = x: int | 0 <= x < 32

  const PAD := '='

  function Char(d: digit): (c: char)
    ensures c != PAD && c != '\n' && c != '\r'
  {
    if d < 26 then 'A' + d as char else '2' + (d - 26) as char
  }

  function Digit(c: char): (d: Option<digit>)
    ensures forall v: digit :: d == Some(v) <==> Char(v) == c
  {
    if 'A' <= c <= 'Z' then Some((c - 'A') as int)
    else if '2' <= c <= '7' then Some((c - '2') as int + 26)
    else None
  }

  /** Forty bits read as five bytes and written as eight digits. */
  function Spread(b: seq<byte>): (d: seq<digit>)
    requires |b| == 5
    ensures |d| == 8
  {
    Radix.ToDigits(Radix.FromDigits(b, 256), 8, 32)
  }

  /** Forty bits read as eight digits and written as five bytes. */
  function Gather(d: seq<digit>): (b: seq<byte>)
    requires |d| == 8
    ensures |b| == 5
  {
    Radix.ToDigits(Radix.FromDigits(d, 32), 5, 256)
  }

  lemma GatherOfSpread(b: seq<byte>)
    requires |b| == 5
    ensures Gather(Spread(b)) == b
  {
    Radix.Pow40();
    Radix.FromDigitsBound(b, 256);
    Radix.FromDigitsOfToDigits(Radix.FromDigits(b, 256), 8, 32);
    Radix.ToDigitsOfFromDigits(b, 256);
  }

  lemma SpreadOfGather(d: seq<digit>)
    requires |d| == 8
    ensures Spread(Gather(d)) == d
  {
    Radix.Pow40();
    Radix.FromDigitsBound(d, 32);
    Radix.FromDigitsOfToDigits(Radix.FromDigits(d, 32), 5, 256);
    Radix.ToDigitsOfFromDigits(d, 32);
  }

  function Text(d: seq<digit>): (s: string)
    ensures |s| == |d|
    ensures forall i | 0 <= i < |d| :: s[i] == Char(d[i])
  {
    seq(|d|, i requires 0 <= i < |d| => Char(d[i]))
  }

  predicate AllDigits(s: string) {
    forall i | 0 <= i < |s| :: Digit(s[i]).Some?
  }

  /** The number of leading characters of the alphabet. */
  function DigitPrefix(s: string): (n: nat)
    ensures n <= |s|
    ensures forall i | 0 <= i < n :: Digit(s[i]).Some?
    ensures n < |s| ==> Digit(s[n]).None?
  {
    if s == [] || Digit(s[0]).None? then 0 else 1 + DigitPrefix(s[1..])
  }

  function Digits(s: string): (d: seq<digit>)
    requires AllDigits(s)
    ensures |d| == |s|
    ensures forall i | 0 <= i < |s| :: Digit(s[i]) == Some(d[i])
  {
    seq(|s|, i requires 0 <= i < |s| => Digit(s[i]).value)
  }

  function Zeros(n: nat): (z: seq<digit>)
    ensures |z| == n
  {
    if n == 0 then [] else [0] + Zeros(n - 1)
  }

  /** How many digits carry the bits of a group of `n` bytes. */
  function DigitsFor(n: nat): nat
    requires 1 <= n <= 4
  {
    [2, 4, 5, 7][n - 1]
  }

  function Padding(n: nat): (s: string)
    ensures |s| == n && forall c | c in s :: c == PAD
  {
    if n == 0 then [] else [PAD] + Padding(n - 1)
  }

  function Encode(data: seq<byte>): (s: string) {
    if data == [] then []
    else if |data| < 5 then
      var n := DigitsFor(|data|);
      Text(Spread(data + Zeros(5 - |data|)))[..n] + Padding(8 - n)
    else Text(Spread(data[..5])) + Encode(data[5..])
  }

  lemma {:induction false} NoLineBreaks(data: seq<byte>)
    ensures '\n' !in Encode(data) && '\r' !in Encode(data)
    decreases |data|
  {
    hide Spread;
    if |data| >= 5 {
      NoLineBreaks(data[5..]);
      NoBreakInText(Spread(data[..5]));
    } else if data != [] {
      NoBreakInText(Spread(data + Zeros(5 - |data|)));
    }
  }

  lemma NoBreakInText(d: seq<digit>)
    ensures '\n' !in Text(d) && '\r' !in Text(d)
  {
  }

  /** The decoder drops line breaks before anything else. */
  function StripNewlines(s: string): (r: string)
    ensures '\n' !in r && '\r' !in r
    ensures '\n' !in s && '\r' !in s ==> r == s
  {
    if s == [] then []
    else if s[0] == '\n' || s[0] == '\r' then StripNewlines(s[1..])
    else [s[0]] + StripNewlines(s[1..])
  }

  /** The last, padded group: 2, 4, 5 or 7 digits and then padding up to eight characters. */
  function DecodePadded(s: string): (r: Result<seq<byte>>)
    ensures r.Ok? ==> 1 <= |r.value| <= 4
  {
    var n := DigitPrefix(s);
    if |s| == 8 && n in {2, 4, 5, 7} && s[n..] == Padding(8 - n) then
      var d := Digits(s[..n]) + Zeros(8 - n);
      Ok(Gather(d)[..n * 5 / 8])
    else
      Err(InvalidFormat)
  }

  function DecodeGroups(s: string): (r: Result<seq<byte>>)
  {
    if s == [] then Ok([])
    else if |s| >= 8 && AllDigits(s[..8]) then
      match DecodeGroups(s[8..])
      case Ok(rest) => Ok(Gather(Digits(s[..8])) + rest)
      case Err(e) => Err(e)
    else DecodePadded(s)
  }

  function Decode(s: string): Result<seq<byte>> {
    DecodeGroups(StripNewlines(s))
  }

  lemma EncodeGroup(head: seq<byte>, rest: seq<byte>)
    requires |head| == 5
    ensures Encode(head + rest) == Text(Spread(head)) + Encode(rest)
  {
    hide Gather, Spread;
    assert (head + rest)[..5] == head && (head + rest)[5..] == rest;
  }

  lemma DecodeGroup(d: seq<digit>, rest: string)
    requires |d| == 8 && DecodeGroups(rest).Ok?
    ensures DecodeGroups(Text(d) + rest) == Ok(Gather(d) + DecodeGroups(rest).value)
  {
    hide Gather, Spread;
    var s := Text(d) + rest;
    assert s[..8] == Text(d) && s[8..] == rest;
    assert Digits(s[..8]) == d;
  }

  lemma {:induction false} GroupsOfEncode(data: seq<byte>, groups: nat)
    requires |data| == 5 * groups
    ensures DecodeGroups(Encode(data)) == Ok(data) && |Encode(data)| == 8 * groups
    decreases groups
  {
    hide Gather, Spread;
    if data != [] {
      var head, rest := data[..5], data[5..];
      assert data == head + rest;
      EncodeGroup(head, rest);
      GatherOfSpread(head);
      GroupsOfEncode(rest, groups - 1);
      DecodeGroup(Spread(head), Encode(rest));
    }
  }

  lemma TextOfDigits(s: string)
    requires |s| == 8 && AllDigits(s)
    ensures Text(Spread(Gather(Digits(s)))) == s
  {
    SpreadOfGather(Digits(s));
  }

  /** Whatever decodes to `groups` whole groups is the encoding of what it decodes to. */
  lemma {:induction false} EncodeOfDecode(s: string, groups: nat)
    requires DecodeGroups(s).Ok? && |DecodeGroups(s).value| == 5 * groups
    ensures Encode(DecodeGroups(s).value) == s
    decreases groups
  {
    if s != [] {
      var head, rest := Gather(Digits(s[..8])), DecodeGroups(s[8..]).value;
      EncodeOfDecode(s[8..], groups - 1);
      EncodeGroup(head, rest);
      TextOfDigits(s[..8]);
    }
  }

  lemma CharOf(d: digit)
    ensures Char(d) == "ABCDEFGHIJKLMNOPQRSTUVWXYZ234567"[d]
  {
  }

  lemma SpreadValue(b: seq<byte>)
    requires |b| == 5
    ensures Radix.FromDigits(Spread(b), 32) == Radix.FromDigits(b, 256)
  {
    Radix.Pow40();
    Radix.FromDigitsBound(b, 256);
    Radix.FromDigitsOfToDigits(Radix.FromDigits(b, 256), 8, 32);
  }

  /** The digits of a text in the alphabet of the RFC are `d`. */
  predicate Spells(s: string, d: seq<digit>) {
    |s| == |d| && forall i | 0 <= i < |d| :: s[i] == "ABCDEFGHIJKLMNOPQRSTUVWXYZ234567"[d[i]]
  }

  /** The text of whole groups, read in base 32, is the number the bytes are in base 256. */
  lemma {:induction false} EncodeKeepsValue(data: seq<byte>, groups: nat) returns (d: seq<digit>)
    requires |data| == 5 * groups
    ensures Spells(Encode(data), d) && |d| == 8 * groups
    ensures Radix.FromDigits(d, 32) == Radix.FromDigits(data, 256)
    decreases groups
  {
    hide *;
    if groups == 0 {
      d := [];
      NothingSpells(data);
    } else {
      var head, rest := data[..5], data[5..];
      var more := EncodeKeepsValue(rest, groups - 1);
      d := Spread(head) + more;
      assert data == head + rest;
      GroupSpells(head, rest, more);
      SpreadValue(head);
      Radix.PowGroups(groups - 1);
      Radix.FromDigitsConcat(Spread(head), more, 32);
      Radix.FromDigitsConcat(head, rest, 256);
    }
  }

  lemma NothingSpells(data: seq<byte>)
    requires data == []
    ensures Spells(Encode(data), []) && Radix.FromDigits([], 32) == Radix.FromDigits(data, 256)
  {
  }

  lemma GroupSpells(head: seq<byte>, rest: seq<byte>, more: seq<digit>)
    requires |head| == 5 && Spells(Encode(rest), more)
    ensures Spells(Encode(head + rest), Spread(head) + more)
  {
    EncodeGroup(head, rest);
    hide Spread, Encode;
    var d := Spread(head) + more;
    forall i | 0 <= i < |d| ensures Encode(head + rest)[i] == "ABCDEFGHIJKLMNOPQRSTUVWXYZ234567"[d[i]] {
      if i < 8 {
        CharOf(d[i]);
      }
    }
  }

  /** Whole groups decode to what was encoded, so their text determines them. */
  lemma EncodeInjective(x: seq<byte>, y: seq<byte>, groups: nat)
    requires |x| == |y| == 5 * groups
    ensures Decode(Encode(x)) == Ok(x)
    ensures Encode(x) == Encode(y) <==> x == y
  {
    hide Encode, DecodeGroups, StripNewlines;
    NoLineBreaks(x);
    GroupsOfEncode(x, groups);
    GroupsOfEncode(y, groups);
  }
}

module Oids {
  import opened Results
  import opened Base32

  const PADDING_BYTE: byte := 0x00
  const OID_BYTES := 35
  const HASH_BYTES := 32

  /** The binary form, the cached type and the cached text. */
  datatype Oid = Oid(b: seq<byte>, t: int, s: string)

  /** The zero value a decoder starts from. */
  const ZERO := Oid(Zeros(OID_BYTES), 0, "")

  /** The OIDs the package hands out for a one-byte type: all three fields agree. */
  predicate Canonical(o: Oid) {
    |o.b| == OID_BYTES && o.b[1] == o.b[2] == PADDING_BYTE && o.t == o.b[0] && o.s == Base32.Encode(o.b)
  }

  /** `byte(t)` keeps the low eight bits of the type; the cached type keeps all of it. */
  function Encode(t: int, hash: seq<byte>): Oid
    requires |hash| == HASH_BYTES
  {
    var b := [t % 256, PADDING_BYTE, PADDING_BYTE] + hash;
    Oid(b, t, Base32.Encode(b))
  }

  /** The receiver before and after, and the error. A bad padding byte is noticed only after the type is set. */
  function UnmarshalBinary(o: Oid, data: seq<byte>): (r: (Oid, Option<Error>))
    ensures r.1.None? <==> |data| == OID_BYTES && data[1] == data[2] == PADDING_BYTE
    ensures r.1.None? ==> Canonical(r.0) && r.0.b == data
    ensures r.1 == Some(InvalidFormat) <==> data == []
    ensures r.1.Some? && data != [] ==> r.1 == Some(InvalidString)
    ensures r.1.Some? ==> r.0 == if |data| == OID_BYTES then o.(t := data[0]) else o
  {
    if |data| == 0 then (o, Some(InvalidFormat))
    else if |data| != OID_BYTES then (o, Some(InvalidString))
    else if data[1] != PADDING_BYTE || data[2] != PADDING_BYTE then (o.(t := data[0]), Some(InvalidString))
    else (Oid(data, data[0], Base32.Encode(data)), None)
  }

  function FromString(s: string): Result<Oid> {
    match Base32.Decode(s)
    case Err(e) => Err(e)
    case Ok(data) =>
      var (o, err) := UnmarshalBinary(ZERO, data);
      if err.Some? then Err(err.value) else Ok(o)
  }

  /** `Equal` on non-nil pointers compares the binary form only. */
  predicate Equal(o: Oid, other: Oid) {
    o.b == other.b
  }

  lemma FromText(b: seq<byte>)
    requires |b| == OID_BYTES
    ensures FromString(Base32.Encode(b)) ==
            if b[1] == b[2] == PADDING_BYTE then Ok(Oid(b, b[0], Base32.Encode(b))) else Err(InvalidString)
  {
    hide Base32.Encode, Base32.Decode;
    EncodeInjective(b, b, 7);
  }

  /** Printing and parsing give the same OID back exactly for types that fit the type byte. */
  lemma RoundTrip(t: int, hash: seq<byte>)
    requires |hash| == HASH_BYTES
    ensures FromString(Encode(t, hash).s) == Ok(Encode(t % 256, hash))
    ensures FromString(Encode(t, hash).s) == Ok(Encode(t, hash)) <==> 0 <= t < 256
    ensures Canonical(Encode(t, hash)) <==> 0 <= t < 256
  {
    hide Base32.Encode, FromString;
    FromText(Encode(t, hash).b);
  }

  /** The text of an identifier carries the low byte of its type, two zero bytes and its hash. */
  lemma TextCarries(t: int, hash: seq<byte>)
    requires |hash| == HASH_BYTES
    ensures var r := FromString(Encode(t, hash).s);
            r.Ok? && r.value.b == [t % 256, 0, 0] + hash && r.value.t == t % 256
  {
    FromText(Encode(t, hash).b);
    hide Base32.Encode, FromString;
  }

  /** Different types or hashes make different identifiers; and different texts, if the types are bytes. */
  lemma EncodeTellsApart(t: int, g: seq<byte>, u: int, h: seq<byte>)
    requires |g| == |h| == HASH_BYTES
    ensures Encode(t, g) == Encode(u, h) <==> t == u && g == h
    ensures Encode(t, g).s == Encode(u, h).s <==> t % 256 == u % 256 && g == h
  {
    var a, b := Encode(t, g).b, Encode(u, h).b;
    EncodeInjective(a, b, 7);
    assert a[0] == t % 256 && b[0] == u % 256 && a[3..] == g && b[3..] == h;
    hide Base32.Encode;
  }

  /** The accepted strings are the texts of well-padded identifiers, up to line breaks, and nothing else. */
  lemma AcceptedStrings(s: string)
    ensures FromString(s).Ok? <==>
            exists b: seq<byte> :: |b| == OID_BYTES && b[1] == b[2] == PADDING_BYTE && StripNewlines(s) == Base32.Encode(b)
    ensures FromString(s).Ok? ==>
              && Canonical(FromString(s).value)
              && FromString(s).value.s == StripNewlines(s)
              && |FromString(s).value.s| == 56
  {
    hide Base32.Encode, Base32.DecodeGroups;
    if FromString(s).Ok? {
      var b := FromString(s).value.b;
      EncodeOfDecode(StripNewlines(s), 7);
      GroupsOfEncode(b, 7);
    }
    forall b: seq<byte> | |b| == OID_BYTES && StripNewlines(s) == Base32.Encode(b)
      ensures Decode(s) == Ok(b)
    {
      GroupsOfEncode(b, 7);
    }
  }

  /** For canonical OIDs the struct comparison, `Equal` and the comparison of texts are one relation. */
  lemma ThreeEqualities(x: Oid, y: Oid)
    requires Canonical(x) && Canonical(y)
    ensures x == y <==> Equal(x, y)
    ensures x == y <==> x.s == y.s
  {
    EncodeInjective(x.b, y.b, 7);
  }
}
