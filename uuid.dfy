/** `GenerateUUID` (magnet-handler.go:159-171): a version-4 UUID made from 16
    random bytes, or a timestamp fallback when the random source fails. The
    random bytes and the clock are inputs. */
module Uuid {
  import opened Text
  import opened Wrappers

  type Bytes16 = b: seq<bv8> | |b| == 16 witness seq(16, i => 0 as bv8)

  /** What one call of `rand.Read` produced: 16 bytes, or a failure, in which
      case `time.Now().UnixNano()` is used. */
  datatype RandomDraw = Random(bytes: Bytes16) | RandFailed(nanos: int)

  /** Set the version nibble of byte 6 to 4 and the variant bits of byte 8 to 10. */
  function SetVersion(b: Bytes16): (m: Bytes16)
    ensures m[6] >> 4 == 4 && m[6] & 0x0f == b[6] & 0x0f
    ensures m[8] >> 6 == 2 && m[8] & 0x3f == b[8] & 0x3f
    ensures forall i :: 0 <= i < 16 && i != 6 && i != 8 ==> m[i] == b[i]
  {
    b[6 := (b[6] & 0x0f) | 0x40][8 := (b[8] & 0x3f) | 0x80]
  }

  /** The lower-case hex digit of a nibble. */
  function HexDigit(n: nat): (c: char)
    requires n < 16
    ensures IsLowerHexDigit(c) && IsHexDigit(c) && HexValue(c) == n
  {
    if n < 10 then ('0' as int + n) as char else ('a' as int + n - 10) as char
  }

  /** One byte as `%x` prints it: two lower-case hex digits. */
  function HexPair(b: bv8): (s: string)
    ensures |s| == 2 && IsLowerHexDigit(s[0]) && IsLowerHexDigit(s[1])
    ensures HexValue(s[0]) * 16 + HexValue(s[1]) == b as int
  {
    [HexDigit(b as int / 16), HexDigit(b as int % 16)]
  }

  /** A byte slice as `%x` prints it. */
  function Hex(bs: seq<bv8>): (s: string)
    ensures |s| == 2 * |bs|
    ensures forall i :: 0 <= i < |s| ==> IsLowerHexDigit(s[i])
  {
    if bs == [] then "" else HexPair(bs[0]) + Hex(bs[1..])
  }

  /** The inverse of `Hex`: pairs of hex digits back to bytes. */
  function Unhex(s: string): (bs: seq<bv8>)
    requires |s| % 2 == 0
    requires forall i :: 0 <= i < |s| ==> IsHexDigit(s[i])
    ensures |bs| == |s| / 2
  {
    if s == [] then []
    else [(HexValue(s[0]) * 16 + HexValue(s[1])) as bv8] + Unhex(s[2..])
  }

  lemma {:induction false} UnhexHex(bs: seq<bv8>)
    ensures Unhex(Hex(bs)) == bs
  {
    if bs != [] {
      UnhexHex(bs[1..]);
      UnhexHexStep(bs);
    }
  }

  /** The induction step of `UnhexHex`: the leading pair reads back as the
      leading byte. */
  lemma UnhexHexStep(bs: seq<bv8>)
    requires bs != [] && Unhex(Hex(bs[1..])) == bs[1..]
    ensures Unhex(Hex(bs)) == bs
  {
    var p, rest := HexPair(bs[0]), Hex(bs[1..]);
    assert Hex(bs) == p + rest;
    UnhexCons(p, rest);
    PairValue(bs[0]);
  }

  /** `Unhex` reads the leading pair, then the rest. */
  lemma UnhexCons(p: string, rest: string)
    requires |p| == 2 && IsHexDigit(p[0]) && IsHexDigit(p[1])
    requires |rest| % 2 == 0 && forall i :: 0 <= i < |rest| ==> IsHexDigit(rest[i])
    ensures Unhex(p + rest) == [(HexValue(p[0]) * 16 + HexValue(p[1])) as bv8] + Unhex(rest)
  {
    var s := p + rest;
    assert s[0] == p[0] && s[1] == p[1];
    assert s[2..] == rest;
  }

  lemma PairValue(b: bv8)
    ensures (HexValue(HexPair(b)[0]) * 16 + HexValue(HexPair(b)[1])) as bv8 == b
  {
    var v := HexValue(HexPair(b)[0]) * 16 + HexValue(HexPair(b)[1]);
    assert v == b as int;
    assert (b as int) as bv8 == b;
  }

  lemma {:induction false} HexAppend(a: seq<bv8>, b: seq<bv8>)
    ensures Hex(a + b) == Hex(a) + Hex(b)
  {
    if a != [] {
      assert (a + b)[0] == a[0];
      assert (a + b)[1..] == a[1..] + b;
      HexAppend(a[1..], b);
      calc {
        Hex(a + b);
        HexPair(a[0]) + Hex(a[1..] + b);
        HexPair(a[0]) + (Hex(a[1..]) + Hex(b));
        (HexPair(a[0]) + Hex(a[1..])) + Hex(b);
      }
    } else {
      assert a + b == b;
    }
  }

  /** The 8-4-4-4-12 layout of `%x-%x-%x-%x-%x` over the masked bytes. */
  function FormatUUID(b: Bytes16): (s: string)
    ensures |s| == 36
    ensures s[8] == '-' && s[13] == '-' && s[18] == '-' && s[23] == '-'
    ensures s[14] == '4'
    ensures s[19] in "89ab"
    ensures forall i :: 0 <= i < 36 && i != 8 && i != 13 && i != 18 && i != 23 ==> IsLowerHexDigit(s[i])
  {
    var m := SetVersion(b);
    FormatNibbles(m);
    Dashed(m)
  }

  /** The five hex groups of `m` joined by dashes. */
  function Dashed(m: Bytes16): string
  {
    Hex(m[0..4]) + "-" + (Hex(m[4..6]) + "-" + (Hex(m[6..8]) + "-" + (Hex(m[8..10]) + "-" + Hex(m[10..16]))))
  }

  /** Positions 14 and 19 of the layout are the high nibbles of bytes 6 and 8. */
  lemma FormatNibbles(m: Bytes16)
    requires m[6] >> 4 == 4 && m[8] >> 6 == 2
    ensures Dashed(m)[14] == '4' && Dashed(m)[19] in "89ab"
  {
    var s := Dashed(m);
    assert Hex(m[6..8]) == HexPair(m[6]) + Hex(m[7..8]);
    assert Hex(m[8..10]) == HexPair(m[8]) + Hex(m[9..10]);
    assert s[14] == HexPair(m[6])[0];
    assert s[19] == HexPair(m[8])[0];
    VersionNibble(m[6]);
    VariantNibble(m[8]);
  }

  lemma VersionNibble(x: bv8)
    requires x >> 4 == 4
    ensures x as int / 16 == 4
  {
    assert 0x40 <= x <= 0x4f;
  }

  lemma VariantNibble(x: bv8)
    requires x >> 6 == 2
    ensures x as int / 16 in {8, 9, 10, 11}
  {
    assert 0x80 <= x <= 0xbf;
  }

  /** Reads a UUID of the 8-4-4-4-12 layout back into its 16 bytes. */
  function ParseUUID(s: string): (r: Option<Bytes16>)
  {
    if |s| == 36 && s[8] == '-' && s[13] == '-' && s[18] == '-' && s[23] == '-'
       && (forall i :: 0 <= i < 36 && i != 8 && i != 13 && i != 18 && i != 23 ==> IsHexDigit(s[i]))
    then
      var digits := s[0..8] + s[9..13] + s[14..18] + s[19..23] + s[24..36];
      assert forall i :: 0 <= i < |digits| ==> IsHexDigit(digits[i]) by {
        forall i | 0 <= i < |digits| ensures IsHexDigit(digits[i]) {
          var j := if i < 8 then i else if i < 12 then i + 1 else if i < 16 then i + 2
                   else if i < 20 then i + 3 else i + 4;
          assert digits[i] == s[j];
        }
      }
      Some(Unhex(digits))
    else None
  }

  /** Formatting loses nothing but the six version and variant bits. */
  lemma ParseFormat(b: Bytes16)
    ensures ParseUUID(FormatUUID(b)) == Some(SetVersion(b))
  {
    var m := SetVersion(b);
    var s := FormatUUID(b);
    DashedGroups(m);
    HexGroups(m);
    assert s[0..8] + s[9..13] + s[14..18] + s[19..23] + s[24..36] == Hex(m);
    UnhexHex(m);
  }

  /** The five groups of the layout, each at its place. */
  lemma DashedGroups(m: Bytes16)
    ensures var s := Dashed(m);
            && s[0..8] == Hex(m[0..4]) && s[9..13] == Hex(m[4..6]) && s[14..18] == Hex(m[6..8])
            && s[19..23] == Hex(m[8..10]) && s[24..36] == Hex(m[10..16])
  {
    var h0, h1, h2, h3, h4 := Hex(m[0..4]), Hex(m[4..6]), Hex(m[6..8]), Hex(m[8..10]), Hex(m[10..16]);
    var r3 := h3 + "-" + h4;
    var r2 := h2 + "-" + r3;
    var r1 := h1 + "-" + r2;
    assert Dashed(m) == h0 + "-" + r1;
    Peel(h0, r1);
    Peel(h1, r2);
    Peel(h2, r3);
    Peel(h3, h4);
  }

  /** The five groups put together are the hex of all sixteen bytes. */
  lemma HexGroups(m: Bytes16)
    ensures Hex(m[0..4]) + Hex(m[4..6]) + Hex(m[6..8]) + Hex(m[8..10]) + Hex(m[10..16]) == Hex(m)
  {
    var a, b, c, d, e := m[0..4], m[4..6], m[6..8], m[8..10], m[10..16];
    assert a + b + c + d + e == m;
    HexAppend(a, b);
    HexAppend(a + b, c);
    HexAppend(a + b + c, d);
    HexAppend(a + b + c + d, e);
  }

  lemma Peel(a: string, rest: string)
    ensures (a + "-" + rest)[..|a|] == a
    ensures (a + "-" + rest)[|a| + 1..] == rest
  {
    assert (a + "-" + rest) == a + ("-" + rest);
  }

  /** Two random draws give the same UUID exactly when they agree outside the
      six bits that the version and variant overwrite. */
  lemma FormatInjective(a: Bytes16, b: Bytes16)
    ensures FormatUUID(a) == FormatUUID(b) <==> SetVersion(a) == SetVersion(b)
  {
    if FormatUUID(a) == FormatUUID(b) {
      ParseFormat(a);
      ParseFormat(b);
    }
  }

  /** `GenerateUUID` for one random draw. */
  function GenerateUUID(d: RandomDraw): (s: string)
    ensures |s| > 0
    ensures d.Random? ==> ParseUUID(s) == Some(SetVersion(d.bytes))
    ensures d.RandFailed? ==> IsPrefix("fallback-", s) && s[9..] == Decimal(d.nanos)
  {
    match d
    case Random(b) =>
      ParseFormat(b);
      FormatUUID(b)
    case RandFailed(n) =>
      "fallback-" + Decimal(n)
  }
}

/** The UUID supply the loaders take, made by `GenerateUUID`. */
module UuidSupply {
  import Uuid
  import opened Store
  import opened Migration

  /** UUIDs made by `GenerateUUID` from any random draws (or clock fallbacks)
      meet `NonEmptyUuids`, the promise the UUID back-fill relies on. */
  lemma GeneratedUuidsNonEmpty(draws: (Section, Hash) -> Uuid.RandomDraw)
    ensures NonEmptyUuids((s, h) => Uuid.GenerateUUID(draws(s, h)))
  {
    forall s, h ensures Uuid.GenerateUUID(draws(s, h)) != "" {
      var u := Uuid.GenerateUUID(draws(s, h));
      assert |u| > 0;
    }
  }
}
