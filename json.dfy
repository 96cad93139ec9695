/** JSON text as the cache helpers use it: `JSON.stringify` of a value and
    `JSON.parse` of stored text (ECMA-404 grammar). The stored form of every
    cached value goes through `Stringify`, and `Parse` gives it back. */
module JsonText {
  import opened JsValues

  /** A JSON value. Objects keep their members in the order they were
      written; arrays and objects hold JSON values. */
  datatype Json =
    | JNull
    | JBool(b: bool)
    | JNum(n: Number)
    | JStr(s: string)
    | JArr(items: seq<Json>)
    | JObj(members: seq<Member>)

  datatype Member = Member(key: string, value: Json)

  /** Truthiness of a JSON value in a JavaScript condition. */
  predicate Truthy(v: Json) {
    match v
    case JNull => false
    case JBool(b) => b
    case JNum(n) => n.mant != 0
    case JStr(s) => s != []
    case _ => true
  }

  // ---------------------------------------------------------------------
  // Writing

  /** `v.key` on a parsed value: the value of the last member named `key`
      (`JSON.parse` keeps the last of duplicate keys). `None` is `undefined`:
      an object without that member, or a value that is not an object. */
  function Property(v: Json, key: string): (r: Option<Json>)
    ensures r.Some? ==> v.JObj? && Member(key, r.value) in v.members
    ensures v.JObj? && (exists m :: m in v.members && m.key == key) ==> r.Some?
  {
    if v.JObj? then LastValue(v.members, key) else None
  }

  function LastValue(ms: seq<Member>, key: string): (r: Option<Json>)
    ensures r.Some? ==> Member(key, r.value) in ms
    ensures (exists m :: m in ms && m.key == key) ==> r.Some?
  {
    if ms == [] then None
    else if ms[|ms| - 1].key == key then Some(ms[|ms| - 1].value)
    else
      var r := LastValue(ms[..|ms| - 1], key);
      assert forall m :: m in ms && m.key == key ==> m in ms[..|ms| - 1];
      r
  }

  /** `x` as exactly `w` decimal digits, with leading zeros. */
  function PadDigits(x: nat, w: nat): (s: string)
    requires x < Pow10(w)
    ensures |s| == w
    ensures forall i :: 0 <= i < |s| ==> '0' <= s[i] <= '9'
  {
    if w == 0 then [] else PadDigits(x / 10, w - 1) + [DigitChar(x % 10)]
  }

  /** The text of a finite number, as `String(n)` and `JSON.stringify(n)`
      write it in positional notation: a minus sign for negative numbers,
      the integer part without leading zeros, and the fraction digits. */
  function NumberText(n: Number): string {
    (if n.mant < 0 then "-" else "") + DigitsText(if n.mant < 0 then -n.mant else n.mant, n.scale)
  }

  /** `a / 10^scale` without its sign: integer digits, then `scale`
      fraction digits after a point. */
  function DigitsText(a: nat, scale: nat): (t: string)
    ensures t != [] && IsDigit(t[0])
  {
    var parts := SplitAt(a, Pow10(scale));
    NatToString(parts.0) + FractionText(parts.1, scale)
  }

  /** The integer part and the remainder of `a` in units of `p`. */
  function SplitAt(a: nat, p: nat): (r: (nat, nat))
    requires p >= 1
    ensures r.1 < p && a == r.0 * p + r.1
  {
    (a / p, a % p)
  }

  /** The fraction digits of a number with `scale` of them, after their
      point; nothing at all for an integer. */
  function FractionText(fp: nat, scale: nat): (t: string)
    requires fp < Pow10(scale)
    ensures t == [] || t[0] == '.'
  {
    if scale == 0 then [] else "." + PadDigits(fp, scale)
  }

  function HexChar(d: nat): (c: char)
    requires d < 16
    ensures IsHex(c) && HexVal(c) == d
  {
    if d < 10 then ('0' as int + d) as char else ('a' as int + d - 10) as char
  }

  /** One character of a string literal as `JSON.stringify` writes it:
      the quote and the backslash are escaped, control characters take
      their short escape or a `\u00XX` escape, anything else stands as is. */
  function EscapeChar(c: char): (t: string)
    ensures |t| >= 1
  {
    if c == '"' then "\\\""
    else if c == '\\' then "\\\\"
    else if c == '\U{8}' then "\\b"
    else if c == '\U{C}' then "\\f"
    else if c == '\n' then "\\n"
    else if c == '\r' then "\\r"
    else if c == '\t' then "\\t"
    else if c < ' ' then "\\u00" + [HexChar(c as int / 16), HexChar(c as int % 16)]
    else [c]
  }

  function EscapeString(s: string): string {
    if s == [] then [] else EscapeChar(s[0]) + EscapeString(s[1..])
  }

  function Quote(s: string): string {
    "\"" + EscapeString(s) + "\""
  }

  /** `JSON.stringify(v)` */
  function Stringify(v: Json): (t: string)
    ensures t != [] && StartsValue(t[0])
    decreases v, 1
  {
    match v
    case JNull => "null"
    case JBool(b) => if b then "true" else "false"
    case JNum(n) => NumberText(n)
    case JStr(s) => Quote(s)
    case JArr(items) => "[" + StringifyItems(items) + "]"
    case JObj(members) => "{" + StringifyMembers(members) + "}"
  }

  function StringifyItems(items: seq<Json>): string
    decreases items, 0
  {
    if items == [] then []
    else Stringify(items[0]) + (if |items| == 1 then [] else "," + StringifyItems(items[1..]))
  }

  function StringifyMembers(members: seq<Member>): string
    decreases members, 0
  {
    if members == [] then []
    else
      Quote(members[0].key) + ":" + Stringify(members[0].value)
      + (if |members| == 1 then [] else "," + StringifyMembers(members[1..]))
  }

  // ---------------------------------------------------------------------
  // Reading

  /** The characters a value can start with. */
  predicate StartsValue(c: char) {
    c in {'n', 't', 'f', '"', '[', '{', '-'} || IsDigit(c)
  }

  predicate IsJsonSpace(c: char) {
    c in {' ', '\t', '\n', '\r'}
  }

  predicate IsDigit(c: char) {
    '0' <= c <= '9'
  }

  predicate IsHex(c: char) {
    IsDigit(c) || 'a' <= c <= 'f' || 'A' <= c <= 'F'
  }

  function HexVal(c: char): nat
    requires IsHex(c)
  {
    if IsDigit(c) then c as int - '0' as int
    else if 'a' <= c <= 'f' then c as int - 'a' as int + 10
    else c as int - 'A' as int + 10
  }

  function SkipSpace(s: string): (t: string)
    ensures |t| <= |s|
    ensures t == [] || !IsJsonSpace(t[0])
  {
    if s != [] && IsJsonSpace(s[0]) then SkipSpace(s[1..]) else s
  }

  /** The longest prefix of `s` made of decimal digits, and what follows. */
  function DigitSpan(s: string): (r: (string, string))
    ensures r.0 + r.1 == s
    ensures forall i :: 0 <= i < |r.0| ==> IsDigit(r.0[i])
    ensures r.1 == [] || !IsDigit(r.1[0])
  {
    if s != [] && IsDigit(s[0]) then
      var r := DigitSpan(s[1..]);
      HeadThenTail(s);
      Concat3([s[0]], r.0, r.1);
      ([s[0]] + r.0, r.1)
    else ([], s)
  }

  /** The number with trailing fraction zeros removed. */
  function Normalize(d: Dec): (n: Number)
    ensures n.Value() == d.Value()
    decreases d.scale
  {
    if d.scale > 0 && d.mant % 10 == 0 then
      var n := Normalize(Dec(d.mant / 10, d.scale - 1));
      assert Dec(d.mant / 10, d.scale - 1).Value() == d.Value() by {
        ScaleDown(d.mant, d.scale);
      }
      n
    else d
  }

  lemma ScaleDown(m: int, e: nat)
    requires e > 0 && m % 10 == 0
    ensures (m / 10) as real / Pow10(e - 1) as real == m as real / Pow10(e) as real
  {
    assert m == (m / 10) * 10;
    assert Pow10(e) == 10 * Pow10(e - 1);
  }

  /** A number token: `-? (0 | [1-9][0-9]*) (. [0-9]+)?`. */
  function ParseNumber(s: string): (r: Option<(Json, string)>)
    ensures r.Some? ==> |r.value.1| < |s|
  {
    var neg := s != [] && s[0] == '-';
    match ParseDigits(if neg then s[1..] else s)
    case None => None
    case Some((m, scale, rest)) =>
      var signed: int := if neg then -(m as int) else m;
      Some((JNum(Normalize(Dec(signed, scale))), rest))
  }

  /** The digits of a number token after its sign: the digits read as one
      natural number, how many of them follow the point, and the rest. */
  function ParseDigits(t: string): (r: Option<(nat, nat, string)>)
    ensures r.Some? ==> |r.value.2| < |t|
  {
    if t == [] || !IsDigit(t[0]) then None
    else
      var (intDigits, afterInt) := IntPart(t);
      ParseFraction(DigitsValue(intDigits), afterInt)
  }

  /** `0` alone, or a run of digits that does not start with `0`. */
  function IntPart(t: string): (r: (string, string))
    requires t != [] && IsDigit(t[0])
    ensures |r.1| < |t|
    ensures forall i :: 0 <= i < |r.0| ==> IsDigit(r.0[i])
  {
    if t[0] == '0' then ("0", t[1..]) else DigitSpan(t)
  }

  /** An optional `. [0-9]+` after the integer part `iv`. */
  function ParseFraction(iv: nat, after: string): (r: Option<(nat, nat, string)>)
    ensures r.Some? ==> |r.value.2| <= |after|
  {
    if after != [] && after[0] == '.' then
      var (frac, rest) := DigitSpan(after[1..]);
      if frac == [] then None
      else Some((iv * Pow10(|frac|) + DigitsValue(frac), |frac|, rest))
    else Some((iv, 0, after))
  }

  /** The character an escape sequence (the text after a backslash) stands
      for, and what follows it. A `\u` escape of a UTF-16 surrogate is not
      read (see the project notes). */
  function ParseEscape(s: string): (r: Option<(char, string)>)
    ensures r.Some? ==> |r.value.1| < |s|
  {
    if s == [] then None
    else if s[0] == '"' then Some(('"', s[1..]))
    else if s[0] == '\\' then Some(('\\', s[1..]))
    else if s[0] == '/' then Some(('/', s[1..]))
    else if s[0] == 'b' then Some(('\U{8}', s[1..]))
    else if s[0] == 'f' then Some(('\U{C}', s[1..]))
    else if s[0] == 'n' then Some(('\n', s[1..]))
    else if s[0] == 'r' then Some(('\r', s[1..]))
    else if s[0] == 't' then Some(('\t', s[1..]))
    else if s[0] == 'u' && |s| >= 5 && IsHex(s[1]) && IsHex(s[2]) && IsHex(s[3]) && IsHex(s[4]) then
      var code := HexVal(s[1]) * 4096 + HexVal(s[2]) * 256 + HexVal(s[3]) * 16 + HexVal(s[4]);
      if 0xD800 <= code <= 0xDFFF then None else Some((code as char, s[5..]))
    else None
  }

  /** The characters of a string literal up to its closing quote, and what
      follows the quote. Raw control characters are refused. */
  function ParseStringBody(s: string): (r: Option<(string, string)>)
    ensures r.Some? ==> |r.value.1| < |s|
  {
    if s == [] then None
    else if s[0] == '"' then Some(([], s[1..]))
    else if s[0] < ' ' then None
    else if s[0] == '\\' then
      match ParseEscape(s[1..])
      case None => None
      case Some((c, rest)) => Prepend(c, ParseStringBody(rest))
    else Prepend(s[0], ParseStringBody(s[1..]))
  }

  function Prepend(c: char, r: Option<(string, string)>): Option<(string, string)> {
    match r
    case None => None
    case Some((body, rest)) => Some(([c] + body, rest))
  }

  /** A value, after optional white space. */
  function ParseValue(s: string): (r: Option<(Json, string)>)
    ensures r.Some? ==> |r.value.1| < |s|
    decreases |s|, 1
  {
    var t := SkipSpace(s);
    if t == [] then None
    else if t[0] == '"' then
      match ParseStringBody(t[1..])
      case None => None
      case Some((str, rest)) => Some((JStr(str), rest))
    else if t[0] == '[' then ParseArray(t[1..])
    else if t[0] == '{' then ParseObject(t[1..])
    else if t[0] == '-' || IsDigit(t[0]) then ParseNumber(t)
    else ParseLiteral(t)
  }

  function ParseLiteral(t: string): (r: Option<(Json, string)>)
    ensures r.Some? ==> |r.value.1| < |t|
  {
    if StartsWith(t, "null") then Some((JNull, t[4..]))
    else if StartsWith(t, "true") then Some((JBool(true), t[4..]))
    else if StartsWith(t, "false") then Some((JBool(false), t[5..]))
    else None
  }

  /** An array after its opening bracket. */
  function ParseArray(s: string): (r: Option<(Json, string)>)
    ensures r.Some? ==> |r.value.1| < |s|
    decreases |s|, 3
  {
    var u := SkipSpace(s);
    if u != [] && u[0] == ']' then Some((JArr([]), u[1..]))
    else
      match ParseElements(s)
      case None => None
      case Some((items, rest)) => Some((JArr(items), rest))
  }

  /** An object after its opening brace. */
  function ParseObject(s: string): (r: Option<(Json, string)>)
    ensures r.Some? ==> |r.value.1| < |s|
    decreases |s|, 4
  {
    var u := SkipSpace(s);
    if u != [] && u[0] == '}' then Some((JObj([]), u[1..]))
    else
      match ParseMembers(s)
      case None => None
      case Some((members, rest)) => Some((JObj(members), rest))
  }

  /** `value (, value)* ]`: the elements of a non-empty array and what
      follows its closing bracket. */
  function ParseElements(s: string): (r: Option<(seq<Json>, string)>)
    ensures r.Some? ==> |r.value.1| < |s|
    decreases |s|, 2
  {
    match ParseValue(s)
    case None => None
    case Some((v, rest)) =>
      var t := SkipSpace(rest);
      if t == [] then None
      else if t[0] == ']' then Some(([v], t[1..]))
      else if t[0] == ',' then
        match ParseElements(t[1..])
        case None => None
        case Some((vs, rest')) => Some(([v] + vs, rest'))
      else None
  }

  /** `"key" : value (, "key" : value)* }`: the members of a non-empty
      object and what follows its closing brace. */
  function ParseMembers(s: string): (r: Option<(seq<Member>, string)>)
    ensures r.Some? ==> |r.value.1| < |s|
    decreases |s|, 3
  {
    match ParseMember(s)
    case None => None
    case Some((m, rest)) =>
      var w := SkipSpace(rest);
      if w == [] then None
      else if w[0] == '}' then Some(([m], w[1..]))
      else if w[0] == ',' then
        match ParseMembers(w[1..])
        case None => None
        case Some((ms, rest')) => Some(([m] + ms, rest'))
      else None
  }

  /** `"key" : value` */
  function ParseMember(s: string): (r: Option<(Member, string)>)
    ensures r.Some? ==> |r.value.1| < |s|
    decreases |s|, 2
  {
    var t := SkipSpace(s);
    if t == [] || t[0] != '"' then None
    else
      match ParseStringBody(t[1..])
      case None => None
      case Some((key, afterKey)) =>
        var u := SkipSpace(afterKey);
        if u == [] || u[0] != ':' then None
        else
          match ParseValue(u[1..])
          case None => None
          case Some((v, rest)) => Some((Member(key, v), rest))
  }

  /** `JSON.parse(text)`: a value with nothing but white space around it, or
      `None` where `JSON.parse` throws a SyntaxError. */
  function Parse(text: string): Option<Json> {
    match ParseValue(text)
    case None => None
    case Some((v, rest)) => if SkipSpace(rest) == [] then Some(v) else None
  }

  // ---------------------------------------------------------------------
  // Round trip

  /** What may follow a value inside the text `Stringify` writes. */
  predicate Delimited(rest: string) {
    rest == [] || rest[0] in {',', ']', '}'}
  }

  lemma SkipSpaceNone(s: string)
    requires s == [] || !IsJsonSpace(s[0])
    ensures SkipSpace(s) == s
  {
  }

  lemma {:induction false} DigitSpanOf(d: string, rest: string)
    requires forall i :: 0 <= i < |d| ==> IsDigit(d[i])
    requires rest == [] || !IsDigit(rest[0])
    ensures DigitSpan(d + rest) == (d, rest)
  {
    if d == [] {
      assert d + rest == rest;
    } else {
      assert (d + rest)[0] == d[0] && (d + rest)[1..] == d[1..] + rest;
      DigitSpanOf(d[1..], rest);
      assert [d[0]] + d[1..] == d;
    }
  }

  lemma {:induction false} PadDigitsValue(x: nat, w: nat)
    requires x < Pow10(w)
    ensures DigitsValue(PadDigits(x, w)) == x
  {
    if w > 0 {
      var q, d := x / 10, x % 10;
      var s := PadDigits(q, w - 1) + [DigitChar(d)];
      assert s[..|s| - 1] == PadDigits(q, w - 1) && s[|s| - 1] == DigitChar(d);
      PadDigitsValue(q, w - 1);
      assert DigitsValue(s) == q * 10 + d;
    }
  }

  /** `String(n)` of a natural number starts with `0` only when it is `0`. */
  lemma NatToStringZero(n: nat)
    requires NatToString(n)[0] == '0'
    ensures n == 0 && NatToString(n) == "0"
  {
    NatToStringValue(n);
  }

  /** The integer part of a number token as the parser splits it off. */
  lemma IntPartRoundTrip(ip: nat, after: string)
    requires after == [] || !IsDigit(after[0])
    ensures var t := NatToString(ip) + after;
      t != [] && IsDigit(t[0]) && IntPart(t).1 == after && DigitsValue(IntPart(t).0) == ip
  {
    var t := NatToString(ip) + after;
    NatToStringValue(ip);
    assert t[0] == NatToString(ip)[0];
    if t[0] == '0' {
      NatToStringZero(ip);
      assert t[1..] == after;
    } else {
      DigitSpanOf(NatToString(ip), after);
    }
  }

  lemma FractionRoundTrip(ip: nat, fp: nat, scale: nat, rest: string)
    requires fp < Pow10(scale) && Delimited(rest)
    ensures ParseFraction(ip, FractionText(fp, scale) + rest) == Some((ip * Pow10(scale) + fp, scale, rest))
  {
    if scale > 0 {
      PointRoundTrip(ip, fp, scale, rest);
    } else {
      assert FractionText(fp, scale) + rest == rest;
      assert fp == 0 && Pow10(scale) == 1;
    }
  }

  /** A number with fraction digits: the point and `scale` digits. */
  lemma PointRoundTrip(ip: nat, fp: nat, scale: nat, rest: string)
    requires scale > 0 && fp < Pow10(scale) && Delimited(rest)
    ensures ParseFraction(ip, FractionText(fp, scale) + rest) == Some((ip * Pow10(scale) + fp, scale, rest))
  {
    var frac := PadDigits(fp, scale);
    assert FractionText(fp, scale) == "." + frac;
    var after := "." + frac + rest;
    PointThen(frac, rest);
    DigitSpanOf(frac, rest);
    PadDigitsValue(fp, scale);
    FractionParts(ip, after, frac, rest);
    assert |frac| == scale && DigitsValue(frac) == fp;
  }

  /** A point, then `frac`, then `rest`. */
  lemma PointThen(frac: string, rest: string)
    ensures var after := "." + frac + rest;
      after != [] && after[0] == '.' && after[1..] == frac + rest
  {
    var after := "." + frac + rest;
    assert after[1..] == frac + rest;
  }

  /** `ParseFraction` on a point, a run of digits and what follows it. */
  lemma FractionParts(ip: nat, after: string, frac: string, rest: string)
    requires after != [] && after[0] == '.' && DigitSpan(after[1..]) == (frac, rest)
    requires frac != [] && forall i :: 0 <= i < |frac| ==> IsDigit(frac[i])
    ensures ParseFraction(ip, after) == Some((ip * Pow10(|frac|) + DigitsValue(frac), |frac|, rest))
  {
  }

  /** What follows the integer digits of a number in the text: its fraction,
      then the delimiter; neither begins with a digit. */
  lemma FractionStart(fp: nat, scale: nat, rest: string)
    requires fp < Pow10(scale) && Delimited(rest)
    ensures var after := FractionText(fp, scale) + rest;
      after == [] || !IsDigit(after[0])
  {
    var f := FractionText(fp, scale);
    if f != [] {
      assert (f + rest)[0] == f[0];
    } else {
      assert f + rest == rest;
    }
  }

  lemma DigitsRoundTrip(a: nat, scale: nat, rest: string)
    requires Delimited(rest)
    ensures ParseDigits(DigitsText(a, scale) + rest) == Some((a, scale, rest))
  {
    var parts := SplitAt(a, Pow10(scale));
    var ip, fp := parts.0, parts.1;
    var after := FractionText(fp, scale) + rest;
    var t := DigitsText(a, scale) + rest;
    DigitsTextParts(a, scale, rest);
    FractionStart(fp, scale, rest);
    IntPartRoundTrip(ip, after);
    DigitsParts(t, ip, after);
    FractionRoundTrip(ip, fp, scale, rest);
    assert ParseDigits(t) == Some((ip * Pow10(scale) + fp, scale, rest));
  }

  /** The text of a magnitude is its integer digits, then its fraction. */
  lemma DigitsTextParts(a: nat, scale: nat, rest: string)
    ensures var parts := SplitAt(a, Pow10(scale));
      DigitsText(a, scale) + rest == NatToString(parts.0) + (FractionText(parts.1, scale) + rest)
  {
    var parts := SplitAt(a, Pow10(scale));
    Concat3(NatToString(parts.0), FractionText(parts.1, scale), rest);
  }

  lemma Concat3(a: string, b: string, c: string)
    ensures a + b + c == a + (b + c)
  {
  }

  /** `ParseDigits` reads the integer part, then the fraction after it. */
  lemma DigitsParts(t: string, ip: nat, after: string)
    requires t != [] && IsDigit(t[0]) && IntPart(t).1 == after && DigitsValue(IntPart(t).0) == ip
    ensures ParseDigits(t) == ParseFraction(ip, after)
  {
  }

  lemma NormalizeCanonical(n: Number)
    ensures Normalize(n) == n
  {
  }

  /** The text of a number is its sign, then the digits of its magnitude. */
  lemma SignSplit(n: Number, rest: string)
    ensures var s := NumberText(n) + rest;
      var t := DigitsText(if n.mant < 0 then -n.mant else n.mant, n.scale) + rest;
      s != [] && (s[0] == '-') == (n.mant < 0) && t == (if n.mant < 0 then s[1..] else s)
  {
    var a: nat := if n.mant < 0 then -n.mant else n.mant;
    var d := DigitsText(a, n.scale);
    if n.mant < 0 {
      assert NumberText(n) == "-" + d;
      MinusThen(d, rest);
    } else {
      assert NumberText(n) == d;
      assert (d + rest)[0] == d[0];
    }
  }

  lemma MinusThen(d: string, rest: string)
    ensures var s := "-" + d + rest;
      s != [] && s[0] == '-' && s[1..] == d + rest
  {
    var s := "-" + d + rest;
    assert s[1..] == d + rest;
  }

  /** `ParseNumber` reads an optional minus sign and then the digits. */
  lemma NumberParts(s: string, t: string, m: nat, scale: nat, rest: string)
    requires t == (if s != [] && s[0] == '-' then s[1..] else s)
    requires ParseDigits(t) == Some((m, scale, rest))
    ensures ParseNumber(s) == Some((JNum(Normalize(Dec(if s != [] && s[0] == '-' then -(m as int) else m, scale))), rest))
  {
  }

  lemma NumberRoundTrip(n: Number, rest: string)
    requires Delimited(rest)
    ensures ParseNumber(NumberText(n) + rest) == Some((JNum(n), rest))
  {
    var a: nat := if n.mant < 0 then -n.mant else n.mant;
    var s := NumberText(n) + rest;
    var t := DigitsText(a, n.scale) + rest;
    SignSplit(n, rest);
    DigitsRoundTrip(a, n.scale, rest);
    NumberParts(s, t, a, n.scale, rest);
    assert Dec(if n.mant < 0 then -(a as int) else a, n.scale) == n;
    NormalizeCanonical(n);
  }

  /** The hexadecimal escape `JSON.stringify` writes for a control
      character reads back as that character. */
  lemma ControlEscape(c: char, tail: string)
    requires c < ' '
    ensures ParseEscape("u00" + [HexChar(c as int / 16), HexChar(c as int % 16)] + tail) == Some((c, tail))
  {
    var u := "u00" + [HexChar(c as int / 16), HexChar(c as int % 16)] + tail;
    assert u[5..] == tail;
    assert u[1] == '0' && u[2] == '0';
  }

  lemma EscapeCharStep(c: char, tail: string)
    ensures ParseStringBody(EscapeChar(c) + tail) == Prepend(c, ParseStringBody(tail))
  {
    var e := EscapeChar(c);
    if e == [c] {
      assert (e + tail)[1..] == tail;
    } else if c < ' ' && c !in {'\U{8}', '\U{C}', '\n', '\r', '\t'} {
      assert (e + tail)[1..] == "u00" + [HexChar(c as int / 16), HexChar(c as int % 16)] + tail;
      ControlEscape(c, tail);
    } else {
      assert |e| == 2 && (e + tail)[1..] == [e[1]] + tail;
    }
  }

  lemma {:induction false} EscapeRoundTrip(str: string, rest: string)
    ensures ParseStringBody(EscapeString(str) + "\"" + rest) == Some((str, rest))
  {
    if str == [] {
      assert EscapeString(str) + "\"" + rest == "\"" + rest;
    } else {
      var tail := EscapeString(str[1..]) + "\"" + rest;
      assert EscapeString(str) + "\"" + rest == EscapeChar(str[0]) + tail;
      EscapeRoundTrip(str[1..], rest);
      EscapeCharStep(str[0], tail);
      assert [str[0]] + str[1..] == str;
    }
  }

  lemma StringRoundTrip(str: string, rest: string)
    ensures ParseValue(Quote(str) + rest) == Some((JStr(str), rest))
  {
    var s := Quote(str) + rest;
    assert s[0] == '"';
    SkipSpaceNone(s);
    assert s[1..] == EscapeString(str) + "\"" + rest;
    EscapeRoundTrip(str, rest);
  }

  lemma LiteralRoundTrip(v: Json, rest: string)
    requires v.JNull? || v.JBool?
    ensures ParseValue(Stringify(v) + rest) == Some((v, rest))
  {
    var s := Stringify(v) + rest;
    SkipSpaceNone(s);
    if v.JNull? {
      assert s[..4] == "null" && s[4..] == rest;
    } else if v.b {
      assert s[..4] == "true" && s[4..] == rest;
      assert !StartsWith(s, "null");
    } else {
      assert s[..5] == "false" && s[5..] == rest;
      assert !StartsWith(s, "null") && !StartsWith(s, "true");
    }
  }

  /** The text of a non-empty item list followed by `]` and `rest`: the
      first item, then either the bracket or a comma and the other items. */
  lemma ItemsText(items: seq<Json>, rest: string)
    requires items != []
    ensures StringifyItems(items) + "]" + rest
            == Stringify(items[0]) + (if |items| == 1 then "]" + rest
                                      else "," + (StringifyItems(items[1..]) + "]" + rest))
  {
    var tail := if |items| == 1 then [] else "," + StringifyItems(items[1..]);
    assert StringifyItems(items) == Stringify(items[0]) + tail;
    RegroupLeft(Stringify(items[0]), tail, "]", rest);
    if |items| == 1 {
      assert tail + "]" == "]";
    } else {
      RegroupLeft(",", StringifyItems(items[1..]), "]", rest);
    }
  }

  /** The text of a non-empty member list followed by `}` and `rest`. */
  lemma MembersText(members: seq<Member>, rest: string)
    requires members != []
    ensures StringifyMembers(members) + "}" + rest
            == Quote(members[0].key) + (":" + (Stringify(members[0].value)
               + (if |members| == 1 then "}" + rest
                  else "," + (StringifyMembers(members[1..]) + "}" + rest))))
  {
    var head := Quote(members[0].key) + ":" + Stringify(members[0].value);
    var tail := if |members| == 1 then [] else "," + StringifyMembers(members[1..]);
    assert StringifyMembers(members) == head + tail;
    RegroupLeft(head, tail, "}", rest);
    RegroupRight(Quote(members[0].key), ":", Stringify(members[0].value), tail + "}" + rest);
    if |members| == 1 {
      assert tail + "}" == "}";
    } else {
      RegroupLeft(",", StringifyMembers(members[1..]), "}", rest);
    }
  }

  lemma RegroupLeft(a: string, b: string, c: string, d: string)
    ensures a + b + c + d == a + (b + c + d)
  {
  }

  lemma RegroupRight(a: string, b: string, c: string, d: string)
    ensures a + b + c + d == a + (b + (c + d))
  {
  }

  /** A bracketed text opens with its bracket and no white space. */
  lemma OpenWith(c: char, body: string, close: string, rest: string)
    requires !IsJsonSpace(c)
    ensures var s := [c] + body + close + rest;
      SkipSpace(s) == s && s[0] == c && s[1..] == body + close + rest
  {
    var s := [c] + body + close + rest;
    assert s == [c] + (body + close + rest);
  }

  /** A value that starts with `[` is read as an array. */
  lemma ValueOfArray(s: string)
    requires s != [] && SkipSpace(s) == s && s[0] == '['
    ensures ParseValue(s) == ParseArray(s[1..])
  {
  }

  /** A value that starts with `{` is read as an object. */
  lemma ValueOfObject(s: string)
    requires s != [] && SkipSpace(s) == s && s[0] == '{'
    ensures ParseValue(s) == ParseObject(s[1..])
  {
  }

  lemma ArrayRoundTrip(items: seq<Json>, rest: string)
    requires Delimited(rest)
    requires items != [] ==> ParseElements(StringifyItems(items) + "]" + rest) == Some((items, rest))
    ensures ParseValue(Stringify(JArr(items)) + rest) == Some((JArr(items), rest))
  {
    var s := Stringify(JArr(items)) + rest;
    OpenWith('[', StringifyItems(items), "]", rest);
    ValueOfArray(s);
    ArrayBody(items, rest);
  }

  /** The text after `[` reads as the array. */
  lemma ArrayBody(items: seq<Json>, rest: string)
    requires items != [] ==> ParseElements(StringifyItems(items) + "]" + rest) == Some((items, rest))
    ensures ParseArray(StringifyItems(items) + "]" + rest) == Some((JArr(items), rest))
  {
    var inner := StringifyItems(items) + "]" + rest;
    if items == [] {
      assert inner == "]" + rest;
    } else {
      ItemsText(items, rest);
      assert inner[0] == Stringify(items[0])[0];
    }
    SkipSpaceNone(inner);
  }

  lemma ObjectRoundTrip(members: seq<Member>, rest: string)
    requires Delimited(rest)
    requires members != [] ==> ParseMembers(StringifyMembers(members) + "}" + rest) == Some((members, rest))
    ensures ParseValue(Stringify(JObj(members)) + rest) == Some((JObj(members), rest))
  {
    var s := Stringify(JObj(members)) + rest;
    OpenWith('{', StringifyMembers(members), "}", rest);
    ValueOfObject(s);
    ObjectBody(members, rest);
  }

  /** The text after `{` reads as the object. */
  lemma ObjectBody(members: seq<Member>, rest: string)
    requires members != [] ==> ParseMembers(StringifyMembers(members) + "}" + rest) == Some((members, rest))
    ensures ParseObject(StringifyMembers(members) + "}" + rest) == Some((JObj(members), rest))
  {
    var inner := StringifyMembers(members) + "}" + rest;
    if members == [] {
      assert inner == "}" + rest;
    } else {
      MembersText(members, rest);
      assert inner[0] == Quote(members[0].key)[0];
    }
    SkipSpaceNone(inner);
  }

  /** Reading back what `Stringify` wrote gives the same value, whatever
      punctuation follows it. */
  lemma {:induction false} ValueRoundTrip(v: Json, rest: string)
    requires Delimited(rest)
    ensures ParseValue(Stringify(v) + rest) == Some((v, rest))
    decreases v, 1
  {
    match v
    case JNull =>
      LiteralRoundTrip(v, rest);
    case JBool(_) =>
      LiteralRoundTrip(v, rest);
    case JNum(n) =>
      NumValueRoundTrip(n, rest);
    case JStr(str) =>
      StringRoundTrip(str, rest);
    case JArr(items) =>
      if items != [] {
        ItemsRoundTrip(items, rest);
      }
      ArrayRoundTrip(items, rest);
    case JObj(members) =>
      if members != [] {
        MembersRoundTrip(members, rest);
      }
      ObjectRoundTrip(members, rest);
  }

  /** A number value: no white space to skip, then the number. */
  lemma NumValueRoundTrip(n: Number, rest: string)
    requires Delimited(rest)
    ensures ParseValue(Stringify(JNum(n)) + rest) == Some((JNum(n), rest))
  {
    var s := Stringify(JNum(n)) + rest;
    assert s[0] == Stringify(JNum(n))[0];
    SkipSpaceNone(s);
    NumberRoundTrip(n, rest);
  }

  lemma {:induction false} ItemsRoundTrip(items: seq<Json>, rest: string)
    requires items != [] && Delimited(rest)
    ensures ParseElements(StringifyItems(items) + "]" + rest) == Some((items, rest))
    decreases items, 0
  {
    if |items| == 1 {
      ValueRoundTrip(items[0], "]" + rest);
      ItemsOne(items, rest);
    } else {
      ValueRoundTrip(items[0], "," + (StringifyItems(items[1..]) + "]" + rest));
      ItemsRoundTrip(items[1..], rest);
      ItemsMore(items, rest);
    }
  }

  /** The last element of an array, then its closing bracket. */
  lemma ItemsOne(items: seq<Json>, rest: string)
    requires |items| == 1
    requires ParseValue(Stringify(items[0]) + ("]" + rest)) == Some((items[0], "]" + rest))
    ensures ParseElements(StringifyItems(items) + "]" + rest) == Some((items, rest))
  {
    var after := "]" + rest;
    ItemsText(items, rest);
    ElementsLast(Stringify(items[0]) + after, items[0], after, rest);
    assert [items[0]] == items;
  }

  /** An element, a comma and the elements after it. */
  lemma ItemsMore(items: seq<Json>, rest: string)
    requires |items| > 1
    requires var after := "," + (StringifyItems(items[1..]) + "]" + rest);
      ParseValue(Stringify(items[0]) + after) == Some((items[0], after))
    requires ParseElements(StringifyItems(items[1..]) + "]" + rest) == Some((items[1..], rest))
    ensures ParseElements(StringifyItems(items) + "]" + rest) == Some((items, rest))
  {
    var tail := StringifyItems(items[1..]) + "]" + rest;
    var after := "," + tail;
    ItemsText(items, rest);
    CommaThen(tail);
    HeadThenTail(items);
    ElementsNext(Stringify(items[0]) + after, items[0], after, items[1..], rest);
  }

  lemma ElementsLast(s: string, v: Json, after: string, rest: string)
    requires ParseValue(s) == Some((v, after)) && after == "]" + rest
    ensures ParseElements(s) == Some(([v], rest))
  {
    SkipSpaceNone(after);
    assert after[1..] == rest;
  }

  lemma ElementsNext(s: string, v: Json, after: string, vs: seq<Json>, rest: string)
    requires ParseValue(s) == Some((v, after)) && after != [] && after[0] == ','
    requires ParseElements(after[1..]) == Some((vs, rest))
    ensures ParseElements(s) == Some(([v] + vs, rest))
  {
    SkipSpaceNone(after);
  }

  /** A quoted key opens with its quote and no white space. */
  lemma QuoteThen(key: string, tail: string)
    ensures var s := Quote(key) + tail;
      SkipSpace(s) == s && s[0] == '"' && s[1..] == EscapeString(key) + "\"" + tail
  {
    assert Quote(key) + tail == "\"" + (EscapeString(key) + "\"" + tail);
  }

  /** How `ParseMember` reads a key, a colon and a value. */
  lemma MemberParts(s: string, key: string, colon: string, v: Json, after: string)
    requires s != [] && s[0] == '"' && SkipSpace(s) == s
    requires ParseStringBody(s[1..]) == Some((key, colon))
    requires colon != [] && colon[0] == ':' && ParseValue(colon[1..]) == Some((v, after))
    ensures ParseMember(s) == Some((Member(key, v), after))
  {
    SkipSpaceNone(colon);
  }

  lemma MemberRoundTrip(m: Member, after: string)
    requires Delimited(after)
    ensures ParseMember(Quote(m.key) + (":" + (Stringify(m.value) + after))) == Some((m, after))
    decreases m, 2
  {
    var colon := ":" + (Stringify(m.value) + after);
    var s := Quote(m.key) + colon;
    QuoteThen(m.key, colon);
    EscapeRoundTrip(m.key, colon);
    ValueRoundTrip(m.value, after);
    assert colon[1..] == Stringify(m.value) + after;
    MemberParts(s, m.key, colon, m.value, after);
  }

  lemma {:induction false} MembersRoundTrip(members: seq<Member>, rest: string)
    requires members != [] && Delimited(rest)
    ensures ParseMembers(StringifyMembers(members) + "}" + rest) == Some((members, rest))
    decreases members, 0
  {
    var m := members[0];
    if |members| == 1 {
      MemberRoundTrip(m, "}" + rest);
      MembersOne(members, rest);
    } else {
      var after := "," + (StringifyMembers(members[1..]) + "}" + rest);
      MemberRoundTrip(m, after);
      MembersRoundTrip(members[1..], rest);
      MembersMore(members, rest);
    }
  }

  /** The last member of an object, then its closing brace. */
  lemma MembersOne(members: seq<Member>, rest: string)
    requires |members| == 1
    requires var m := members[0];
      ParseMember(Quote(m.key) + (":" + (Stringify(m.value) + ("}" + rest)))) == Some((m, "}" + rest))
    ensures ParseMembers(StringifyMembers(members) + "}" + rest) == Some((members, rest))
  {
    var m := members[0];
    var after := "}" + rest;
    MembersText(members, rest);
    MembersLast(Quote(m.key) + (":" + (Stringify(m.value) + after)), m, after, rest);
    assert [m] == members;
  }

  /** A member, a comma and the members after it. */
  lemma MembersMore(members: seq<Member>, rest: string)
    requires |members| > 1
    requires var m := members[0];
      var after := "," + (StringifyMembers(members[1..]) + "}" + rest);
      ParseMember(Quote(m.key) + (":" + (Stringify(m.value) + after))) == Some((m, after))
    requires ParseMembers(StringifyMembers(members[1..]) + "}" + rest) == Some((members[1..], rest))
    ensures ParseMembers(StringifyMembers(members) + "}" + rest) == Some((members, rest))
  {
    var m := members[0];
    var tail := StringifyMembers(members[1..]) + "}" + rest;
    var after := "," + tail;
    MembersText(members, rest);
    CommaThen(tail);
    HeadThenTail(members);
    MembersNext(Quote(m.key) + (":" + (Stringify(m.value) + after)), m, after, members[1..], rest);
  }

  lemma CommaThen(tail: string)
    ensures var after := "," + tail;
      after != [] && after[0] == ',' && after[1..] == tail
  {
    var after := "," + tail;
    assert after[1..] == tail;
  }

  lemma MembersLast(s: string, m: Member, after: string, rest: string)
    requires ParseMember(s) == Some((m, after)) && after == "}" + rest
    ensures ParseMembers(s) == Some(([m], rest))
  {
    SkipSpaceNone(after);
    assert after[1..] == rest;
  }

  lemma MembersNext(s: string, m: Member, after: string, ms: seq<Member>, rest: string)
    requires ParseMember(s) == Some((m, after)) && after != [] && after[0] == ','
    requires ParseMembers(after[1..]) == Some((ms, rest))
    ensures ParseMembers(s) == Some(([m] + ms, rest))
  {
    SkipSpaceNone(after);
  }

  /** `JSON.parse(JSON.stringify(v))` is a value equal to `v`. */
  lemma ParseStringify(v: Json)
    ensures Parse(Stringify(v)) == Some(v)
  {
    ValueRoundTrip(v, []);
    assert Stringify(v) + [] == Stringify(v);
  }
}
