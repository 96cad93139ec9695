/** `urlBase64ToUint8Array` (js/views.js, lines 226-233): turning the
    base64url text of a push-service public key (section 5 of RFC 4648)
    into bytes. The text is re-padded, re-alphabeted to base64 (section 4
    of RFC 4648) and handed to the browser's `atob`, which is modelled
    here as the forgiving-base64 decode of the WHATWG Infra standard. */
module Base64 {
  import opened JsValues

  type Byte = x: int | 0 <= x < 256
  type Sextet = x: int | 0 <= x < 64

  // ---------------------------------------------------------------------
  // Alphabets

  /** The character of a sextet in the base64 alphabet. */
  function StdChar(d: Sextet): (c: char)
    ensures IsStdChar(c) && SextetOf(c) == d
  {
    if d < 26 then ('A' as int + d) as char
    else if d < 52 then ('a' as int + d - 26) as char
    else if d < 62 then ('0' as int + d - 52) as char
    else if d == 62 then '+'
    else '/'
  }

  /** The character of a sextet in the base64url alphabet. */
  function UrlChar(d: Sextet): (c: char)
    ensures c != '=' && c != '+' && c != '/'
    ensures d == 62 ==> c == '-'
    ensures d == 63 ==> c == '_'
    ensures d < 62 ==> c == StdChar(d)
  {
    if d == 62 then '-' else if d == 63 then '_' else StdChar(d)
  }

  predicate IsStdChar(c: char) {
    ('A' <= c <= 'Z') || ('a' <= c <= 'z') || ('0' <= c <= '9') || c == '+' || c == '/'
  }

  function SextetOf(c: char): Sextet
    requires IsStdChar(c)
  {
    if 'A' <= c <= 'Z' then c as int - 'A' as int
    else if 'a' <= c <= 'z' then c as int - 'a' as int + 26
    else if '0' <= c <= '9' then c as int - '0' as int + 52
    else if c == '+' then 62
    else 63
  }

  // ---------------------------------------------------------------------
  // The re-padding and re-alphabeting of `urlBase64ToUint8Array`

  /** `"=".repeat((4 - (s.length % 4)) % 4)` */
  function Padding(s: string): (p: string)
    ensures |p| < 4 && (|s| + |p|) % 4 == 0
    ensures forall i :: 0 <= i < |p| ==> p[i] == '='
  {
    var n := (4 - |s| % 4) % 4;
    seq(n, _ => '=')
  }

  /** `(s + padding).replace(/-/g, "+").replace(/_/g, "/")` */
  function ToStandard(s: string): (t: string)
    ensures |t| == |s + Padding(s)| && |t| % 4 == 0
  {
    var padded := s + Padding(s);
    ReplaceSingleLength(padded, '-', '+');
    ReplaceSingleLength(ReplaceChar(padded, '-', "+"), '_', '/');
    ReplaceChar(ReplaceChar(padded, '-', "+"), '_', "/")
  }

  /** Replacing a character by one character, character by character. */
  function Swap(s: string, c: char, d: char): (t: string)
    ensures |t| == |s|
    ensures forall i :: 0 <= i < |s| ==> t[i] == if s[i] == c then d else s[i]
  {
    seq(|s|, i requires 0 <= i < |s| => if s[i] == c then d else s[i])
  }

  lemma {:induction false} ReplaceSingle(s: string, c: char, d: char)
    ensures ReplaceChar(s, c, [d]) == Swap(s, c, d)
  {
    if s != [] {
      ReplaceSingle(s[1..], c, d);
      assert Swap(s, c, d) == [if s[0] == c then d else s[0]] + Swap(s[1..], c, d);
    }
  }

  lemma ReplaceSingleLength(s: string, c: char, d: char)
    ensures |ReplaceChar(s, c, [d])| == |s|
  {
    ReplaceSingle(s, c, d);
  }

  // ---------------------------------------------------------------------
  // atob: forgiving-base64 decode

  predicate IsAsciiSpace(c: char) {
    c == '\t' || c == '\n' || c == '\U{C}' || c == '\r' || c == ' '
  }

  function RemoveSpace(s: string): (t: string)
    ensures forall i :: 0 <= i < |t| ==> !IsAsciiSpace(t[i])
    ensures (forall i :: 0 <= i < |s| ==> !IsAsciiSpace(s[i])) ==> t == s
  {
    if s == [] then []
    else if IsAsciiSpace(s[0]) then RemoveSpace(s[1..])
    else [s[0]] + RemoveSpace(s[1..])
  }

  /** One or two `=` at the end of text whose length is a multiple of 4
      are dropped. */
  function StripPadding(s: string): (t: string)
    ensures |t| <= |s| && t == s[..|t|]
  {
    if |s| % 4 != 0 then s
    else if |s| >= 2 && s[|s| - 1] == '=' && s[|s| - 2] == '=' then s[..|s| - 2]
    else if |s| >= 1 && s[|s| - 1] == '=' then s[..|s| - 1]
    else s
  }

  /** The decoded bytes, or `None` where `atob` throws an
      InvalidCharacterError. */
  function Atob(s: string): (r: Option<seq<Byte>>)
    ensures var t := StripPadding(RemoveSpace(s));
      && (r.Some? <==> |t| % 4 != 1 && AllStd(t))
      && (r.Some? ==> 4 * |r.value| <= 3 * |t| < 4 * |r.value| + 4)
  {
    var t := StripPadding(RemoveSpace(s));
    if |t| % 4 == 1 || !AllStd(t) then None
    else Some(DecodeSextets(Sextets(t)))
  }

  predicate AllStd(t: string) {
    forall i :: 0 <= i < |t| ==> IsStdChar(t[i])
  }

  function Sextets(t: string): (ds: seq<Sextet>)
    requires AllStd(t)
    ensures |ds| == |t|
  {
    seq(|t|, i requires 0 <= i < |t| => SextetOf(t[i]))
  }

  /** The bytes of a run of sextets, four sextets to three bytes; a final
      group of two or three sextets gives one or two bytes and its leftover
      bits are dropped. */
  function DecodeSextets(ds: seq<Sextet>): (r: seq<Byte>)
    requires |ds| % 4 != 1
    ensures 4 * |r| <= 3 * |ds| < 4 * |r| + 4
  {
    if |ds| == 0 then []
    else if |ds| == 2 then [High(ds[0], ds[1])]
    else if |ds| == 3 then [High(ds[0], ds[1]), Middle(ds[1], ds[2])]
    else [High(ds[0], ds[1]), Middle(ds[1], ds[2]), Low(ds[2], ds[3])] + DecodeSextets(ds[4..])
  }

  /** The first byte of a group: six bits of the first sextet, two of the second. */
  function High(d0: Sextet, d1: Sextet): Byte {
    d0 * 4 + d1 / 16
  }

  /** The second byte: four bits of the second sextet, four of the third. */
  function Middle(d1: Sextet, d2: Sextet): Byte {
    (d1 % 16) * 16 + d2 / 4
  }

  /** The third byte: two bits of the third sextet, six of the fourth. */
  function Low(d2: Sextet, d3: Sextet): Byte {
    (d2 % 4) * 64 + d3
  }

  // ---------------------------------------------------------------------
  // Encoding, the partner of decoding

  /** The sextets of a byte string, three bytes to four sextets, the last
      one or two bytes to two or three sextets with zero bits filling. */
  function EncodeSextets(bs: seq<Byte>): (r: seq<Sextet>)
    ensures |r| % 4 != 1
  {
    if |bs| == 0 then []
    else if |bs| == 1 then [First(bs[0]), Second(bs[0], 0)]
    else if |bs| == 2 then [First(bs[0]), Second(bs[0], bs[1]), Third(bs[1], 0)]
    else EncodeGroup(bs) + EncodeSextets(bs[3..])
  }

  function First(b0: Byte): Sextet {
    b0 / 4
  }

  function Second(b0: Byte, b1: Byte): Sextet {
    (b0 % 4) * 16 + b1 / 16
  }

  function Third(b1: Byte, b2: Byte): Sextet {
    (b1 % 16) * 4 + b2 / 64
  }

  /** Each byte is put back together from the bits it was split into. */
  lemma BitsRejoin(b0: Byte, b1: Byte, b2: Byte)
    ensures High(First(b0), Second(b0, b1)) == b0
    ensures Middle(Second(b0, b1), Third(b1, b2)) == b1
    ensures Low(Third(b1, b2), b2 % 64) == b2
  {
    assert Second(b0, b1) / 16 == b0 % 4;
    assert Second(b0, b1) % 16 == b1 / 16;
    assert Third(b1, b2) / 4 == b1 % 16;
    assert Third(b1, b2) % 4 == b2 / 64;
  }

  /** Base64url text without padding, the form in which push-service keys
      are published. */
  function EncodeUrl(bs: seq<Byte>): string {
    UrlText(EncodeSextets(bs))
  }

  function UrlText(ds: seq<Sextet>): (s: string)
    ensures |s| == |ds|
  {
    seq(|ds|, i requires 0 <= i < |ds| => UrlChar(ds[i]))
  }

  function StdText(ds: seq<Sextet>): (s: string)
    ensures |s| == |ds|
    ensures forall i :: 0 <= i < |s| ==> IsStdChar(s[i])
  {
    seq(|ds|, i requires 0 <= i < |ds| => StdChar(ds[i]))
  }

  lemma {:induction false} DecodeEncode(bs: seq<Byte>)
    ensures DecodeSextets(EncodeSextets(bs)) == bs
    decreases |bs|
  {
    if |bs| < 3 {
      DecodeEncodeShort(bs);
    } else {
      DecodeEncode(bs[3..]);
      DecodeEncodeStep(bs);
    }
  }

  /** The final group of fewer than three bytes. */
  lemma DecodeEncodeShort(bs: seq<Byte>)
    requires |bs| < 3
    ensures DecodeSextets(EncodeSextets(bs)) == bs
  {
    if |bs| == 1 {
      BitsRejoin(bs[0], 0, 0);
    } else if |bs| == 2 {
      BitsRejoin(bs[0], bs[1], 0);
    }
  }

  /** A full group of three bytes in front of the rest. */
  lemma DecodeEncodeStep(bs: seq<Byte>)
    requires |bs| >= 3
    requires DecodeSextets(EncodeSextets(bs[3..])) == bs[3..]
    ensures DecodeSextets(EncodeSextets(bs)) == bs
  {
    var g := EncodeGroup(bs);
    EncodeGroupFirst(bs);
    DecodeGroupFirst(g, EncodeSextets(bs[3..]));
    GroupRejoins(bs);
    assert bs == bs[..3] + bs[3..];
  }

  /** The four sextets of the first three bytes. */
  function EncodeGroup(bs: seq<Byte>): (g: seq<Sextet>)
    requires |bs| >= 3
    ensures |g| == 4
  {
    [First(bs[0]), Second(bs[0], bs[1]), Third(bs[1], bs[2]), bs[2] % 64]
  }

  lemma EncodeGroupFirst(bs: seq<Byte>)
    requires |bs| >= 3
    ensures EncodeSextets(bs) == EncodeGroup(bs) + EncodeSextets(bs[3..])
  {
    assert !(|bs| == 0 || |bs| == 1 || |bs| == 2);
  }

  lemma GroupRejoins(bs: seq<Byte>)
    requires |bs| >= 3
    ensures var g := EncodeGroup(bs); [High(g[0], g[1]), Middle(g[1], g[2]), Low(g[2], g[3])] == bs[..3]
  {
    BitsRejoin(bs[0], bs[1], bs[2]);
  }

  lemma DecodeGroupFirst(g: seq<Sextet>, rest: seq<Sextet>)
    requires |g| == 4 && |rest| % 4 != 1
    ensures DecodeSextets(g + rest) == [High(g[0], g[1]), Middle(g[1], g[2]), Low(g[2], g[3])] + DecodeSextets(rest)
  {
    assert (g + rest)[4..] == rest;
  }

  // ---------------------------------------------------------------------
  // urlBase64ToUint8Array

  /** `urlBase64ToUint8Array(s)`: a new array holding the bytes `atob`
      decodes from the re-padded, re-alphabeted text, one per character
      code; `Err` where `atob` throws. */
  method UrlBase64ToUint8Array(s: string) returns (r: Result<array<Byte>>)
    ensures r.Err? <==> Atob(ToStandard(s)).None?
    ensures r.Ok? ==> fresh(r.value) && r.value[..] == Atob(ToStandard(s)).value
  {
    var base64 := ToStandard(s);
    var decoded := Atob(base64);
    if decoded.None? {
      return Err("InvalidCharacterError");
    }
    var out := ToBytes(decoded.value);
    return Ok(out);
  }

  /** The copy loop: `outputArray[i] = rawData.charCodeAt(i)` for each
      character of the decoded text, into a new array of its length. */
  method ToBytes(rawData: seq<Byte>) returns (out: array<Byte>)
    ensures fresh(out) && out[..] == rawData
  {
    out := new Byte[|rawData|];
    for i := 0 to |rawData|
      invariant out[..i] == rawData[..i]
    {
      out[i] := rawData[i];
    }
  }

  /** The round trip: the bytes of a key, published as unpadded base64url,
      come back unchanged. */
  lemma DecodePublishedKey(bs: seq<Byte>)
    ensures Atob(ToStandard(EncodeUrl(bs))) == Some(bs)
  {
    var ds := EncodeSextets(bs);
    StandardOfUrl(ds);
    AtobOfStandard(ds);
    DecodeEncode(bs);
  }

  /** Re-alphabeting base64url text gives the base64 text of the same
      sextets, followed by the padding. */
  lemma StandardOfUrl(ds: seq<Sextet>)
    ensures ToStandard(UrlText(ds)) == StdText(ds) + Padding(UrlText(ds))
  {
    var s := UrlText(ds);
    var pad := Padding(s);
    ReplaceSingle(s + pad, '-', '+');
    ReplaceSingle(Swap(s + pad, '-', '+'), '_', '/');
    var t := ToStandard(s);
    forall i | 0 <= i < |t|
      ensures t[i] == (StdText(ds) + pad)[i]
    {
      if i < |s| {
        assert (s + pad)[i] == UrlChar(ds[i]);
      } else {
        assert (s + pad)[i] == '=';
      }
    }
  }

  /** `atob` reads padded base64 text of a run of sextets back to its bytes. */
  lemma AtobOfStandard(ds: seq<Sextet>)
    requires |ds| % 4 != 1
    ensures Atob(StdText(ds) + Padding(UrlText(ds))) == Some(DecodeSextets(ds))
  {
    CleanedPadded(ds);
    AtobOfSextets(StdText(ds) + Padding(UrlText(ds)), ds);
  }

  /** Removing spaces and padding from the padded text leaves the text. */
  lemma CleanedPadded(ds: seq<Sextet>)
    requires |ds| % 4 != 1
    ensures StripPadding(RemoveSpace(StdText(ds) + Padding(UrlText(ds)))) == StdText(ds)
  {
    var std := StdText(ds);
    var pad := Padding(UrlText(ds));
    PaddingShort(ds);
    NoSpace(std, pad);
    StripStandard(std, pad);
  }

  lemma AtobOfSextets(s: string, ds: seq<Sextet>)
    requires |ds| % 4 != 1 && StripPadding(RemoveSpace(s)) == StdText(ds)
    ensures Atob(s) == Some(DecodeSextets(ds))
  {
    SextetsOfStd(ds);
    AtobAccepts(s, StdText(ds));
  }

  lemma SextetsOfStd(ds: seq<Sextet>)
    ensures Sextets(StdText(ds)) == ds
  {
  }

  lemma AtobAccepts(s: string, t: string)
    requires StripPadding(RemoveSpace(s)) == t && |t| % 4 != 1 && AllStd(t)
    ensures Atob(s) == Some(DecodeSextets(Sextets(t)))
  {
  }

  /** At most two `=` are ever added to text that decodes. */
  lemma PaddingShort(ds: seq<Sextet>)
    requires |ds| % 4 != 1
    ensures |Padding(UrlText(ds))| <= 2
  {
  }

  lemma NoSpace(std: string, pad: string)
    requires AllStd(std)
    requires forall i :: 0 <= i < |pad| ==> pad[i] == '='
    ensures RemoveSpace(std + pad) == std + pad
  {
    var t := std + pad;
    forall i | 0 <= i < |t|
      ensures !IsAsciiSpace(t[i])
    {
      if i >= |std| { assert t[i] == pad[i - |std|]; } else { assert t[i] == std[i]; }
    }
  }

  lemma StripStandard(std: string, pad: string)
    requires forall i :: 0 <= i < |std| ==> IsStdChar(std[i])
    requires |pad| <= 2 && (|std| + |pad|) % 4 == 0
    requires forall i :: 0 <= i < |pad| ==> pad[i] == '='
    ensures StripPadding(std + pad) == std
  {
    var t := std + pad;
    if |pad| == 2 {
      assert t[..|t| - 2] == std;
    } else if |pad| == 1 {
      assert t[..|t| - 1] == std;
      if |std| >= 1 {
        assert t[|t| - 2] == std[|std| - 1];
      }
    } else {
      assert t == std;
      if |std| >= 1 {
        assert t[|t| - 1] == std[|std| - 1];
      }
    }
  }
}
