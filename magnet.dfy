/** The magnet-link helpers of magnet-handler.go (lines 285-349): the strict
    whitelist check, the info-hash extraction and the display-name decoder.
    The regular expressions of the Go code are written out as scans with
    leftmost-first semantics, as Go's `regexp` uses them. */
module Magnet {
  import opened Text
  import opened Wrappers

  const MagnetPrefix: string := "magnet:?"

  const BtihMarker: string := "xt=urn:btih:"

  const NameMarker: string := "dn="

  /** The whitelist `[a-zA-Z0-9:?&=%\-_.~+]`. */
  predicate IsUriChar(c: char)
  {
    IsAlnum(c) || c == ':' || c == '?' || c == '&' || c == '=' || c == '%'
    || c == '-' || c == '_' || c == '.' || c == '~' || c == '+'
  }

  /** Characters a shell gives a meaning to that the whitelist rejects. The
      whitelist still admits three characters a shell interprets: `&`
      (background), `?` (glob) and `~` (home directory); see
      `WhitelistAdmitsShellSpecials`. */
  predicate IsShellMeta(c: char)
  {
    c == ' ' || c == ';' || c == '`' || c == '$' || c == '|' || c == '<' || c == '>'
    || c == '(' || c == ')' || c == '\'' || c == '"' || c == '\\' || c == '\n' || c == '*'
    || c == '!' || c == '#' || c == '{' || c == '}'
  }

  // ---------------------------------------------------------------------------
  // ValidateMagnetURI (magnet-handler.go:285-305)
  // ---------------------------------------------------------------------------

  /** `magnet:?` prefix; the whole string matches `^magnet:\?[whitelist]+$`;
      and it contains `xt=urn:btih:`. */
  function ValidateMagnetURI(uri: string): (ok: bool)
    ensures ok ==> forall i :: 0 <= i < |uri| ==> !IsShellMeta(uri[i])
    ensures ok ==> exists p :: |MagnetPrefix| <= p && OccursAt(uri, BtihMarker, p)
    ensures ok ==> |uri| >= |MagnetPrefix| + |BtihMarker|
  {
    var ok := IsPrefix(MagnetPrefix, uri)
      && |uri| > |MagnetPrefix|
      && (forall i :: |MagnetPrefix| <= i < |uri| ==> IsUriChar(uri[i]))
      && Contains(uri, BtihMarker);
    if ok then
      var p :| 0 <= p <= |uri| && OccursAt(uri, BtihMarker, p);
      assert uri[p] == 'x';
      assert forall i :: 0 <= i < |MagnetPrefix| ==> uri[i] == MagnetPrefix[i];
      assert p >= |MagnetPrefix|;
      true
    else
      false
  }

  /** The whitelist lets `&`, `?` and `~` through: this link passes. */
  lemma WhitelistAdmitsShellSpecials()
    ensures ValidateMagnetURI("magnet:?xt=urn:btih:&?~")
  {
    var uri := "magnet:?xt=urn:btih:&?~";
    assert uri[8..20] == BtihMarker;
    assert OccursAt(uri, BtihMarker, 8);
  }

  /** What may follow the prefix: a non-empty run of whitelisted characters
      that names a BitTorrent info hash. */
  predicate ValidTail(rest: string)
  {
    |rest| > 0 && (forall i :: 0 <= i < |rest| ==> IsUriChar(rest[i])) && Contains(rest, BtihMarker)
  }

  /** A link passes exactly when it is the prefix followed by a valid tail:
      the marker cannot start inside the prefix, so looking for it in the
      whole link or in the tail comes to the same. */
  lemma ValidateSplit(uri: string)
    ensures ValidateMagnetURI(uri) <==> IsPrefix(MagnetPrefix, uri) && ValidTail(uri[|MagnetPrefix|..])
  {
    if IsPrefix(MagnetPrefix, uri) {
      var rest := uri[|MagnetPrefix|..];
      if ValidateMagnetURI(uri) {
        var p :| |MagnetPrefix| <= p && OccursAt(uri, BtihMarker, p);
        assert rest[p - 8..p + 4] == uri[p..p + 12];
        assert OccursAt(rest, BtihMarker, p - 8);
        forall i | 0 <= i < |rest| ensures IsUriChar(rest[i]) {
          assert rest[i] == uri[i + 8];
        }
      }
      if ValidTail(rest) {
        var q :| 0 <= q <= |rest| && OccursAt(rest, BtihMarker, q);
        assert uri[q + 8..q + 20] == rest[q..q + 12];
        assert OccursAt(uri, BtihMarker, q + 8);
        forall i | 8 <= i < |uri| ensures IsUriChar(uri[i]) {
          assert uri[i] == rest[i - 8];
        }
      }
    }
  }

  // ---------------------------------------------------------------------------
  // ExtractMagnetHash (magnet-handler.go:308-316)
  // `xt=urn:btih:([a-fA-F0-9]{40}|[a-zA-Z0-9]{32})`, then strings.ToLower
  // ---------------------------------------------------------------------------

  predicate Hex40At(uri: string, q: nat)
  {
    q + 40 <= |uri| && forall i :: q <= i < q + 40 ==> IsHexDigit(uri[i])
  }

  predicate Alnum32At(uri: string, q: nat)
  {
    q + 32 <= |uri| && forall i :: q <= i < q + 32 ==> IsAlnum(uri[i])
  }

  /** The pattern matches with its marker starting at `p`. */
  predicate HashMatchAt(uri: string, p: nat)
  {
    OccursAt(uri, BtihMarker, p) && (Hex40At(uri, p + 12) || Alnum32At(uri, p + 12))
  }

  /** The captured group of a match at `p`: the first alternative is preferred. */
  function HashCaptureAt(uri: string, p: nat): (c: string)
    requires HashMatchAt(uri, p)
    ensures |c| == 40 || |c| == 32
    ensures forall i :: 0 <= i < |c| ==> IsAlnum(c[i])
  {
    if Hex40At(uri, p + 12) then uri[p + 12..p + 52] else uri[p + 12..p + 44]
  }

  /** The leftmost match position at or after `p`. */
  function FindHashFrom(uri: string, p: nat): (r: Option<nat>)
    ensures r.Some? ==> p <= r.value && HashMatchAt(uri, r.value)
    ensures r.Some? ==> forall q :: p <= q < r.value ==> !HashMatchAt(uri, q)
    ensures r.None? ==> forall q :: p <= q ==> !HashMatchAt(uri, q)
    decreases |uri| - p
  {
    if p + |BtihMarker| > |uri| then None
    else if HashMatchAt(uri, p) then Some(p)
    else FindHashFrom(uri, p + 1)
  }

  /** `ExtractMagnetHash`: the lower-cased capture of the leftmost match, or "". */
  function ExtractMagnetHash(uri: string): (h: string)
    ensures h == "" <==> forall p: nat :: !HashMatchAt(uri, p)
    ensures h != "" ==> exists p: nat :: HashMatchAt(uri, p)
                                        && (forall q: nat :: q < p ==> !HashMatchAt(uri, q))
                                        && h == ToLower(HashCaptureAt(uri, p))
    ensures |h| == 0 || |h| == 40 || |h| == 32
    ensures forall i :: 0 <= i < |h| ==> IsDigit(h[i]) || IsLower(h[i])
  {
    match FindHashFrom(uri, 0)
    case None => ""
    case Some(p) => ToLower(HashCaptureAt(uri, p))
  }

  // ---------------------------------------------------------------------------
  // ExtractMagnetName (magnet-handler.go:319-349)
  // `dn=([^&]+)`, then "+" -> " ", then the %XX decoding loop
  // ---------------------------------------------------------------------------

  /** The pattern `dn=([^&]+)` matches at `p` (at least one non-`&` follows). */
  predicate NameMatchAt(uri: string, p: nat)
  {
    OccursAt(uri, NameMarker, p) && p + 3 < |uri| && uri[p + 3] != '&'
  }

  /** The end of the greedy `[^&]+` run that starts at `q`. */
  function RunEnd(uri: string, q: nat): (e: nat)
    requires q <= |uri|
    ensures q <= e <= |uri|
    ensures e == |uri| || uri[e] == '&'
    ensures forall i :: q <= i < e ==> uri[i] != '&'
    decreases |uri| - q
  {
    if q == |uri| || uri[q] == '&' then q else RunEnd(uri, q + 1)
  }

  function FindNameFrom(uri: string, p: nat): (r: Option<nat>)
    ensures r.Some? ==> p <= r.value && NameMatchAt(uri, r.value)
    ensures r.Some? ==> forall q :: p <= q < r.value ==> !NameMatchAt(uri, q)
    ensures r.None? ==> forall q :: p <= q ==> !NameMatchAt(uri, q)
    decreases |uri| - p
  {
    if p + |NameMarker| >= |uri| then None
    else if NameMatchAt(uri, p) then Some(p)
    else FindNameFrom(uri, p + 1)
  }

  /** The raw `dn=` value of the leftmost match, if any. */
  function NameField(uri: string): (r: Option<string>)
    ensures r.None? <==> forall p: nat :: !NameMatchAt(uri, p)
    ensures r.Some? ==> exists p: nat :: NameMatchAt(uri, p)
                                        && (forall q: nat :: q < p ==> !NameMatchAt(uri, q))
                                        && r.value == uri[p + 3..RunEnd(uri, p + 3)]
    ensures r.Some? ==> |r.value| > 0 && forall i :: 0 <= i < |r.value| ==> r.value[i] != '&'
  {
    match FindNameFrom(uri, 0)
    case None => None
    case Some(p) => Some(uri[p + 3..RunEnd(uri, p + 3)])
  }

  /** `strings.ReplaceAll(name, "+", " ")`. */
  function ReplacePlus(s: string): (r: string)
    ensures |r| == |s|
    ensures forall i :: 0 <= i < |s| ==> r[i] == (if s[i] == '+' then ' ' else s[i])
  {
    if s == [] then [] else [if s[0] == '+' then ' ' else s[0]] + ReplacePlus(s[1..])
  }

  /** The blanks `fmt.Sscanf` skips before a number: a tab, vertical tab,
      form feed, carriage return or space (a newline is an error there). */
  predicate IsScanBlank(c: char)
  {
    c == '\t' || c == '\U{B}' || c == '\U{C}' || c == '\r' || c == ' '
  }

  /** `fmt.Sscanf(hexVal, "%02x", &b)` on the two characters `p`, `q`: blanks
      are skipped, then hex digits are read, at most two characters in all,
      and whatever follows them is ignored. `None` is the error returned when
      no digit comes first. */
  function ScanHexByte(p: char, q: char): (r: Option<int>)
    ensures r.Some? <==> IsHexDigit(p) || (IsScanBlank(p) && IsHexDigit(q))
    ensures r.Some? ==> 0 <= r.value < 256
    ensures IsHexDigit(p) && IsHexDigit(q) ==> r == Some(HexValue(p) * 16 + HexValue(q))
  {
    if IsHexDigit(p) then
      if IsHexDigit(q) then Some(HexValue(p) * 16 + HexValue(q)) else Some(HexValue(p))
    else if IsScanBlank(p) && IsHexDigit(q) then Some(HexValue(q))
    else None
  }

  /** The decoding the loop performs, stated recursively: a `%` with two more
      characters after it that scan as a byte becomes the character with that
      code, and all three are consumed; anything else is copied. */
  function PercentDecode(s: string): (r: string)
    ensures |r| <= |s|
  {
    if s == [] then []
    else if s[0] == '%' && |s| >= 3 && ScanHexByte(s[1], s[2]).Some? then
      [ScanHexByte(s[1], s[2]).value as char] + PercentDecode(s[3..])
    else [s[0]] + PercentDecode(s[1..])
  }

  /** One step of the decoding, read at index `i` of `s`. */
  lemma DecodeStep(s: string, i: nat)
    requires i < |s|
    ensures s[i] == '%' && i + 2 < |s| && ScanHexByte(s[i + 1], s[i + 2]).Some? ==>
      PercentDecode(s[i..]) == [ScanHexByte(s[i + 1], s[i + 2]).value as char] + PercentDecode(s[i + 3..])
    ensures !(s[i] == '%' && i + 2 < |s| && ScanHexByte(s[i + 1], s[i + 2]).Some?) ==>
      PercentDecode(s[i..]) == [s[i]] + PercentDecode(s[i + 1..])
  {
    var t := s[i..];
    assert t[0] == s[i];
    if |t| >= 3 { assert t[1] == s[i + 1] && t[2] == s[i + 2]; assert t[3..] == s[i + 3..]; }
    assert t[1..] == s[i + 1..];
  }

  /** The scan is lenient: one hex digit followed by any other character, or
      a blank (a `+` of the link) before one hex digit, also decodes, and the
      third character is consumed with the rest; a lone `%` is kept. */
  lemma LenientDecoding()
    ensures PercentDecode("%4g") == [4 as char]
    ensures PercentDecode("% A") == [10 as char]
    ensures PercentDecode("%g4") == "%g4"
    ensures PercentDecode("%41") == "A"
  {
    assert PercentDecode("g4") == "g4" by {
      assert "g4"[1..] == "4";
      assert PercentDecode("4") == "4";
    }
    assert "%g4"[1..] == "g4";
  }

  /** The name `ExtractMagnetName` returns: "Unknown" without a `dn=` value. */
  function MagnetName(uri: string): string
  {
    match NameField(uri)
    case None => "Unknown"
    case Some(n) => PercentDecode(ReplacePlus(n))
  }

  /** `ExtractMagnetName`, with the hand-written decoding loop. */
  method ExtractMagnetName(uri: string) returns (decoded: string)
    ensures decoded == MagnetName(uri)
    ensures NameField(uri).None? ==> decoded == "Unknown"
  {
    var field := NameField(uri);
    if field.None? {
      return "Unknown";
    }
    var name := ReplacePlus(field.value);
    decoded := "";
    var i := 0;
    while i < |name|
      invariant 0 <= i <= |name|
      invariant decoded + PercentDecode(name[i..]) == PercentDecode(name)
    {
      DecodeStep(name, i);
      var scanned := if name[i] == '%' && i + 2 < |name| then ScanHexByte(name[i + 1], name[i + 2]) else None;
      if scanned.Some? {
        var c := scanned.value as char;
        AppendAssoc(decoded, [c], PercentDecode(name[i + 3..]));
        decoded := decoded + [c];
        i := i + 3;
      } else {
        AppendAssoc(decoded, [name[i]], PercentDecode(name[i + 1..]));
        decoded := decoded + [name[i]];
        i := i + 1;
      }
    }
  }

  lemma AppendAssoc(a: string, b: string, c: string)
    ensures a + (b + c) == (a + b) + c
  {
  }

  // ---------------------------------------------------------------------------
  // Partners: an encoder the decoder inverts, and a link every helper accepts
  // ---------------------------------------------------------------------------

  /** RFC 3986 unreserved characters. */
  predicate IsUnreserved(c: char) { IsAlnum(c) || c == '-' || c == '_' || c == '.' || c == '~' }

  predicate IsLatin1(s: string) { forall i :: 0 <= i < |s| ==> s[i] as int < 256 }

  /** Percent-encoding of every character that is not unreserved. */
  function PercentEncode(s: string): (r: string)
    requires IsLatin1(s)
    ensures |s| > 0 ==> |r| > 0
    ensures forall i :: 0 <= i < |r| ==> IsUriChar(r[i]) && r[i] != '&' && r[i] != '+'
  {
    if s == [] then []
    else EncodeChar(s[0]) + PercentEncode(s[1..])
  }

  function EncodeChar(c: char): (r: string)
    requires c as int < 256
    ensures 1 <= |r| <= 3
    ensures forall i :: 0 <= i < |r| ==> IsUriChar(r[i]) && r[i] != '&' && r[i] != '+'
  {
    if IsUnreserved(c) then [c]
    else ['%', UpperHexDigit(c as int / 16), UpperHexDigit(c as int % 16)]
  }

  lemma DecodeEncodedChar(c: char, rest: string)
    requires c as int < 256
    ensures PercentDecode(EncodeChar(c) + rest) == [c] + PercentDecode(rest)
  {
    var e := EncodeChar(c) + rest;
    if IsUnreserved(c) {
      assert e[0] == c && e[1..] == rest;
    } else {
      assert e[0] == '%' && e[1] == UpperHexDigit(c as int / 16) && e[2] == UpperHexDigit(c as int % 16);
      assert e[3..] == rest;
      assert ScanHexByte(e[1], e[2]).value as char == c;
    }
  }

  /** Decoding undoes encoding. */
  lemma {:induction false} DecodeEncode(s: string)
    requires IsLatin1(s)
    ensures PercentDecode(PercentEncode(s)) == s
  {
    if s != [] {
      DecodeEncodedChar(s[0], PercentEncode(s[1..]));
      DecodeEncode(s[1..]);
    }
  }

  lemma {:induction false} ReplacePlusIdentity(s: string)
    requires forall i :: 0 <= i < |s| ==> s[i] != '+'
    ensures ReplacePlus(s) == s
  {
  }

  /** A link naming a 40-digit lower-case hash and an encoded display name. */
  function BuildMagnet(hash: string, name: string): string
    requires IsLatin1(name)
  {
    MagnetPrefix + BtihMarker + hash + "&" + NameMarker + PercentEncode(name)
  }

  /** Where the parts of a built link sit. */
  lemma BuildLayout(hash: string, name: string)
    requires |hash| == 40 && forall i :: 0 <= i < 40 ==> IsLowerHexDigit(hash[i])
    requires |name| > 0 && IsLatin1(name)
    ensures var uri := BuildMagnet(hash, name);
      && |uri| == 64 + |PercentEncode(name)|
      && uri[..20] == MagnetPrefix + BtihMarker
      && uri[20..60] == hash
      && uri[60..64] == "&" + NameMarker
      && uri[64..] == PercentEncode(name)
  {
    var uri := BuildMagnet(hash, name);
    var enc := PercentEncode(name);
    var head := MagnetPrefix + BtihMarker;
    assert uri == head + hash + ("&" + NameMarker) + enc;
  }

  /** A well-built link passes the whitelist. */
  lemma BuildMagnetValid(hash: string, name: string)
    requires |hash| == 40 && forall i :: 0 <= i < 40 ==> IsLowerHexDigit(hash[i])
    requires |name| > 0 && IsLatin1(name)
    ensures ValidateMagnetURI(BuildMagnet(hash, name))
  {
    var uri := BuildMagnet(hash, name);
    var enc := PercentEncode(name);
    BuildLayout(hash, name);
    assert uri[..8] == MagnetPrefix by { assert uri[..8] == uri[..20][..8]; }
    assert OccursAt(uri, BtihMarker, 8) by { assert uri[8..20] == uri[..20][8..]; }
    forall i | 8 <= i < |uri| ensures IsUriChar(uri[i]) {
      if i < 20 {
        assert uri[i] == (MagnetPrefix + BtihMarker)[i];
      } else if i < 60 {
        assert uri[i] == hash[i - 20];
      } else if i < 64 {
        assert uri[i] == ("&" + NameMarker)[i - 60];
      } else {
        assert uri[i] == enc[i - 64];
      }
    }
  }

  /** No marker starts where its first character is missing. */
  lemma NotAt(uri: string, sub: string, q: nat)
    requires |sub| > 0 && q < |uri| && uri[q] != sub[0]
    ensures !OccursAt(uri, sub, q)
  {
    if q + |sub| <= |uri| {
      assert uri[q..q + |sub|][0] == uri[q];
    }
  }

  /** The hash of a well-built link is extracted unchanged. */
  lemma BuildMagnetHash(hash: string, name: string)
    requires |hash| == 40 && forall i :: 0 <= i < 40 ==> IsLowerHexDigit(hash[i])
    requires |name| > 0 && IsLatin1(name)
    ensures ExtractMagnetHash(BuildMagnet(hash, name)) == hash
  {
    var uri := BuildMagnet(hash, name);
    BuildLayout(hash, name);
    assert OccursAt(uri, BtihMarker, 8) by { assert uri[8..20] == uri[..20][8..]; }
    assert Hex40At(uri, 20) by {
      forall i | 20 <= i < 60 ensures IsHexDigit(uri[i]) { assert uri[i] == hash[i - 20]; }
    }
    assert HashMatchAt(uri, 8);
    forall q: nat | q < 8 ensures !HashMatchAt(uri, q) {
      assert uri[q] == uri[..20][q] == (MagnetPrefix + BtihMarker)[q];
      NotAt(uri, BtihMarker, q);
    }
    assert HashCaptureAt(uri, 8) == hash;
    assert ToLower(hash) == hash;
  }

  /** No `dn=` match starts inside the prefix, the marker or the hash. */
  lemma NoNameBefore(hash: string, name: string)
    requires |hash| == 40 && forall i :: 0 <= i < 40 ==> IsLowerHexDigit(hash[i])
    requires |name| > 0 && IsLatin1(name)
    ensures forall q: nat :: q < 61 ==> !NameMatchAt(BuildMagnet(hash, name), q)
  {
    var uri := BuildMagnet(hash, name);
    BuildLayout(hash, name);
    var head := MagnetPrefix + BtihMarker;
    forall q: nat | q < 61 ensures !NameMatchAt(uri, q) {
      if q < 19 {
        assert uri[q] == uri[..20][q] && uri[q + 1] == uri[..20][q + 1];
        assert uri[q] == head[q] && uri[q + 1] == head[q + 1];
      } else if q < 59 {
        assert uri[q + 1] == uri[20..60][q + 1 - 20];
      } else {
        assert uri[60] == uri[60..64][0];
      }
      assert uri[q] != 'd' || uri[q + 1] != 'n';
      assert uri[q..q + 3][0] == uri[q] && uri[q..q + 3][1] == uri[q + 1];
    }
  }

  /** A leftmost `dn=` at `p` whose value runs to the end is the raw field. */
  lemma NameFieldAt(uri: string, p: nat)
    requires NameMatchAt(uri, p)
    requires forall q: nat :: q < p ==> !NameMatchAt(uri, q)
    requires forall i :: p + 3 <= i < |uri| ==> uri[i] != '&'
    ensures NameField(uri) == Some(uri[p + 3..])
  {
    var r := FindNameFrom(uri, 0);
    assert r.Some? && r.value == p;
    var e := RunEnd(uri, p + 3);
    assert e == |uri|;
    assert uri[p + 3..e] == uri[p + 3..];
  }

  /** The raw `dn=` field of a well-built link is the encoded name. */
  lemma BuildNameField(hash: string, name: string)
    requires |hash| == 40 && forall i :: 0 <= i < 40 ==> IsLowerHexDigit(hash[i])
    requires |name| > 0 && IsLatin1(name)
    ensures NameField(BuildMagnet(hash, name)) == Some(PercentEncode(name))
  {
    var uri := BuildMagnet(hash, name);
    var enc := PercentEncode(name);
    BuildLayout(hash, name);
    NoNameBefore(hash, name);
    assert uri[61..64] == NameMarker by { assert uri[61..64] == uri[60..64][1..]; }
    assert uri[64] == enc[0];
    assert NameMatchAt(uri, 61);
    forall i | 64 <= i < |uri| ensures uri[i] != '&' { assert uri[i] == enc[i - 64]; }
    NameFieldAt(uri, 61);
  }

  /** The display name of a well-built link is decoded back exactly. */
  lemma BuildMagnetName(hash: string, name: string)
    requires |hash| == 40 && forall i :: 0 <= i < 40 ==> IsLowerHexDigit(hash[i])
    requires |name| > 0 && IsLatin1(name)
    ensures MagnetName(BuildMagnet(hash, name)) == name
  {
    BuildNameField(hash, name);
    ReplacePlusIdentity(PercentEncode(name));
    DecodeEncode(name);
  }

  /** The three helpers agree on a well-built link: it passes the whitelist, its
      hash is extracted unchanged and its name is decoded back exactly. */
  lemma BuildMagnetRoundTrip(hash: string, name: string)
    requires |hash| == 40 && forall i :: 0 <= i < 40 ==> IsLowerHexDigit(hash[i])
    requires |name| > 0 && IsLatin1(name)
    ensures ValidateMagnetURI(BuildMagnet(hash, name))
    ensures ExtractMagnetHash(BuildMagnet(hash, name)) == hash
    ensures MagnetName(BuildMagnet(hash, name)) == name
  {
    BuildMagnetValid(hash, name);
    BuildMagnetHash(hash, name);
    BuildMagnetName(hash, name);
  }
}
