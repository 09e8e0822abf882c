/**
  The keys of the block index: "SEQ" and sixteen hexadecimal digits for a journal entry, "OID"
  and the text of the identifier for the latest entry of an OID.
 */
module Keys {
  import Radix
  import opened Results
  import opened ByteOrder
  import opened Oids

  const TWO_TO_THE_64 := 0x1_0000_0000_0000_0000
  const MAX_UINT64 := 0xFFFF_FFFF_FFFF_FFFF
  type uint64 = x: int | 0 <= x < TWO_TO_THE_64

  /** Unsigned addition wraps around. */
  function Add64(a: uint64, b: uint64): uint64 {
    (a + b) % TWO_TO_THE_64
  }

  const KEY_PREFIX_OID := "OID"
  const KEY_PREFIX_SEQ := "SEQ"
  const KEY_PREFIX_NODE := "NOD"
  const SEQ_DIGITS := 16

  function HexChar(d: nat): (c: char)
    requires d < 16
    ensures HexValue(c) == Some(d)
  {
    if d < 10 then '0' + d as char else 'a' + (d - 10) as char
  }

  /** The scanner accepts both cases; the printer writes lower case. */
  function HexValue(c: char): (d: Option<nat>)
    ensures d.Some? ==> d.value < 16
  {
    if '0' <= c <= '9' then Some((c - '0') as int)
    else if 'a' <= c <= 'f' then Some((c - 'a') as int + 10)
    else if 'A' <= c <= 'F' then Some((c - 'A') as int + 10)
    else None
  }

  function HexText(d: seq<nat>): (s: string)
    requires Radix.IsDigits(d, 16)
    ensures |s| == |d| && forall i | 0 <= i < |d| :: s[i] == HexChar(d[i])
  {
    seq(|d|, i requires 0 <= i < |d| => HexChar(d[i]))
  }

  /** What scanning consumes: the longest run of hexadecimal digits. */
  function HexPrefix(s: string): (d: seq<nat>)
    ensures |d| <= |s| && Radix.IsDigits(d, 16)
  {
    if s == [] || HexValue(s[0]).None? then [] else [HexValue(s[0]).value] + HexPrefix(s[1..])
  }

  function KeyFromBlockOid(o: Oid): string {
    KEY_PREFIX_OID + o.s
  }

  function KeyFromNodeOid(o: Oid): string {
    KEY_PREFIX_NODE + o.s
  }

  function KeyFromSeq(n: uint64): string {
    KEY_PREFIX_SEQ + HexText(Radix.ToDigits(n, SEQ_DIGITS, 16))
  }

  function SeqFromKey(key: string): (r: Result<uint64>)
  {
    if |key| != 3 + SEQ_DIGITS then Err(InvalidFormat)
    else if key[..3] != KEY_PREFIX_SEQ then Err(InvalidFormat)
    else
      var d := HexPrefix(key[3..]);
      if d == [] then Err(InvalidFormat)
      else
        HexFits(d);
        Ok(Radix.FromDigits(d, 16))
  }

  lemma {:induction false} HexFits(d: seq<nat>)
    requires |d| <= SEQ_DIGITS && Radix.IsDigits(d, 16)
    ensures Radix.FromDigits(d, 16) < TWO_TO_THE_64
  {
    Radix.FromDigitsBound(d, 16);
    Radix.Pow64();
    Radix.PowMonotone(16, |d|, SEQ_DIGITS);
  }

  lemma {:induction false} HexPrefixOfText(d: seq<nat>)
    requires Radix.IsDigits(d, 16)
    ensures HexPrefix(HexText(d)) == d
  {
    if d != [] {
      assert HexText(d)[1..] == HexText(d[1..]);
      HexPrefixOfText(d[1..]);
    }
  }

  /** Parsing a printed journal key gives the number back, for every 64-bit number. */
  lemma SeqKeyRoundTrip(n: uint64)
    ensures SeqFromKey(KeyFromSeq(n)) == Ok(n)
  {
    var d := Radix.ToDigits(n, SEQ_DIGITS, 16);
    HexPrefixOfText(d);
    assert KeyFromSeq(n)[3..] == HexText(d);
    Radix.Pow64();
    Radix.FromDigitsOfToDigits(n, SEQ_DIGITS, 16);
  }

  /** The keys that parse: of the right length, with the prefix, and with a digit behind it. */
  lemma KeysThatParse(key: string)
    ensures SeqFromKey(key).Ok? <==> |key| == 19 && key[..3] == "SEQ" && HexValue(key[3]).Some?
  {
    if |key| == 19 {
      assert key[3..][0] == key[3];
    }
  }

  /** A journal key is its prefix and the number in sixteen lower-case hexadecimal digits. */
  lemma SeqKeyText(n: uint64) returns (d: seq<nat>)
    ensures |d| == 16 && Radix.IsDigits(d, 16) && Radix.FromDigits(d, 16) == n
    ensures |KeyFromSeq(n)| == 19 && KeyFromSeq(n)[..3] == "SEQ"
    ensures forall i | 0 <= i < 16 :: KeyFromSeq(n)[3 + i] == "0123456789abcdef"[d[i]]
  {
    d := Radix.ToDigits(n, SEQ_DIGITS, 16);
    Radix.Pow64();
    Radix.FromDigitsOfToDigits(n, SEQ_DIGITS, 16);
    assert KeyFromSeq(n)[..3] == "SEQ";
    forall i | 0 <= i < 16 ensures KeyFromSeq(n)[3 + i] == "0123456789abcdef"[d[i]] {
      HexCharOf(d[i]);
    }
  }

  lemma HexCharOf(d: nat)
    requires d < 16
    ensures HexChar(d) == "0123456789abcdef"[d]
  {
  }

  lemma {:induction false} HexOrder(n: nat, m: nat, width: nat)
    requires n < m < Radix.Pow(16, width)
    ensures Less(HexText(Radix.ToDigits(n, width, 16)), HexText(Radix.ToDigits(m, width, 16)))
    decreases width
  {
    var a, b := Radix.ToDigits(n / 16, width - 1, 16), Radix.ToDigits(m / 16, width - 1, 16);
    var x, y := [HexChar(n % 16)], [HexChar(m % 16)];
    assert HexText(Radix.ToDigits(n, width, 16)) == HexText(a) + x;
    assert HexText(Radix.ToDigits(m, width, 16)) == HexText(b) + y;
    Radix.CutMonotone(n, m, 16);
    Radix.PowCut(m, width, 16);
    if n / 16 < m / 16 {
      HexOrder(n / 16, m / 16, width - 1);
      LessOfPrefixes(HexText(a), x, HexText(b), y);
    } else {
      LessUnderPrefix(HexText(a), x, y);
    }
  }

  /** The byte order of journal keys is the numeric order, so equal keys mean equal numbers. */
  lemma SeqKeyOrder(n: uint64, m: uint64)
    ensures Less(KeyFromSeq(n), KeyFromSeq(m)) <==> n < m
    ensures KeyFromSeq(n) == KeyFromSeq(m) <==> n == m
  {
    Radix.Pow64();
    var a, b := HexText(Radix.ToDigits(n, SEQ_DIGITS, 16)), HexText(Radix.ToDigits(m, SEQ_DIGITS, 16));
    LessUnderPrefix(KEY_PREFIX_SEQ, a, b);
    LessIsTotal(KeyFromSeq(n), KeyFromSeq(m));
    if n < m {
      HexOrder(n, m, SEQ_DIGITS);
    } else if m < n {
      HexOrder(m, n, SEQ_DIGITS);
      LessUnderPrefix(KEY_PREFIX_SEQ, b, a);
    }
  }

  /** OID keys sort below every journal key; keys of the two families never meet. */
  lemma FamiliesApart(o: Oid, n: uint64)
    ensures Less(KeyFromBlockOid(o), KeyFromSeq(n)) && KeyFromBlockOid(o) != KeyFromSeq(n)
    ensures !Less(KeyFromSeq(n), KeyFromBlockOid(o))
  {
  }

  /** Keys of nodes meet neither keys of blocks nor journal keys, and are as many as the texts. */
  lemma NodeKeysApart(node: Oid, other: Oid, n: uint64)
    ensures KeyFromNodeOid(node) != KeyFromBlockOid(other) && KeyFromNodeOid(node) != KeyFromSeq(n)
    ensures KeyFromNodeOid(node) == KeyFromNodeOid(other) <==> node.s == other.s
  {
    assert KeyFromNodeOid(node)[3..] == node.s && KeyFromNodeOid(other)[3..] == other.s;
    assert KeyFromNodeOid(node)[0] == 'N' && KeyFromBlockOid(other)[0] == 'O' && KeyFromSeq(n)[0] == 'S';
  }

  /** Two OIDs share a key exactly when they print alike; for canonical OIDs, when they are equal. */
  lemma OidKeys(x: Oid, y: Oid)
    ensures KeyFromBlockOid(x) == KeyFromBlockOid(y) <==> x.s == y.s
    ensures Canonical(x) && Canonical(y) ==> (KeyFromBlockOid(x) == KeyFromBlockOid(y) <==> x == y)
  {
    assert KeyFromBlockOid(x)[3..] == x.s && KeyFromBlockOid(y)[3..] == y.s;
    if Canonical(x) && Canonical(y) {
      ThreeEqualities(x, y);
    }
  }

  // ---------- ranges of keys ----------

  predicate InRange(k: string, start: string, limit: string) {
    !Less(k, start) && Less(k, limit)
  }

  /** The limit of the range of keys with prefix `p`: the last byte plus one. */
  function PrefixLimit(p: string): string
    requires p != [] && p[|p| - 1] < '~'
  {
    p[..|p| - 1] + [((p[|p| - 1] as int) + 1) as char]
  }

  lemma {:induction false} PrefixRange(k: string, p: string)
    requires p != [] && p[|p| - 1] < '~'
    ensures InRange(k, p, PrefixLimit(p)) <==> p <= k
  {
    var limit := PrefixLimit(p);
    if |p| == 1 {
      assert p[1..] == [] && limit[1..] == [];
      if k != [] {
        assert !Less(k[1..], []);
        assert p <= k <==> k[0] == p[0];
      }
    } else if k != [] && k[0] == p[0] {
      assert limit[1..] == PrefixLimit(p[1..]);
      PrefixRange(k[1..], p[1..]);
      assert k == [p[0]] + k[1..] && p == [p[0]] + p[1..];
    }
  }
}
