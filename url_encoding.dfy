/** The two percent-encodings the client puts into URLs:
    - `URLSearchParams.toString()`, the application/x-www-form-urlencoded
      serializer of section 5.2 of the WHATWG URL Standard;
    - `encodeURIComponent`, section 19.2.6.5 of ECMA-262.
    Both UTF-8 encode the string and then write each byte either as itself
    or as `%XX` with upper-case hexadecimal digits. Their partners here are
    the decoders a server applies (the form parser of section 5.1 of the
    WHATWG URL Standard, with '+' read as a space), and the round trips
    between them are proved. */
module UrlEncoding {
  import opened Js
  import opened JsStrings
  import opened Utf8

  /** Which set of bytes is written unescaped. */
  datatype Scheme =
    | FormUrlEncoded   // URLSearchParams: space becomes '+'
    | UriComponent     // encodeURIComponent

  predicate IsAsciiAlphanumeric(b: int) {
    ('0' as int <= b <= '9' as int) || ('A' as int <= b <= 'Z' as int) || ('a' as int <= b <= 'z' as int)
  }

  /** The bytes written as themselves. For the form serializer these are the
      bytes outside the application/x-www-form-urlencoded percent-encode set
      (section 1.3 of the WHATWG URL Standard); for encodeURIComponent the
      characters of uriUnreserved in ECMA-262. */
  predicate IsUnreserved(scheme: Scheme, b: Byte) {
    || IsAsciiAlphanumeric(b)
    || b == '-' as int || b == '.' as int || b == '_' as int || b == '*' as int
    || (scheme == UriComponent
        && (b == '!' as int || b == '~' as int || b == '\'' as int || b == '(' as int || b == ')' as int))
  }

  /** The upper-case hexadecimal digit for `d`; HexValue reads it back. */
  function HexDigit(d: int): (c: char)
    requires 0 <= d < 16
    ensures IsHexDigit(c) && HexValue(c) == d
  {
    if d < 10 then ('0' as int + d) as char else ('A' as int + d - 10) as char
  }

  predicate IsHexDigit(c: char) {
    ('0' <= c <= '9') || ('A' <= c <= 'F') || ('a' <= c <= 'f')
  }

  function HexValue(c: char): (d: int)
    requires IsHexDigit(c)
    ensures 0 <= d < 16
  {
    if '0' <= c <= '9' then c as int - '0' as int
    else if 'A' <= c <= 'F' then c as int - 'A' as int + 10
    else c as int - 'a' as int + 10
  }

  /** One byte as it appears in the encoded text. */
  function EncodeByte(scheme: Scheme, b: Byte): string {
    if IsUnreserved(scheme, b) then [b as char]
    else if scheme == FormUrlEncoded && b == ' ' as int then "+"
    else ['%', HexDigit(b / 16), HexDigit(b % 16)]
  }

  function EncodeBytes(scheme: Scheme, bs: seq<Byte>): string {
    if bs == [] then "" else EncodeByte(scheme, bs[0]) + EncodeBytes(scheme, bs[1..])
  }

  /** The percent-encoding of a string under `scheme`. */
  function PercentEncode(scheme: Scheme, s: string): string {
    EncodeBytes(scheme, Utf8.Encode(s))
  }

  /** `encodeURIComponent(s)`. */
  function EncodeUriComponent(s: string): string {
    PercentEncode(UriComponent, s)
  }

  /** Percent-decoding of a string into bytes (section 1.3 of the WHATWG URL
      Standard): `%` and two hexadecimal digits give one byte, `+` gives a
      space when `plusAsSpace`, and every other character gives its own
      UTF-8 bytes (so a stray `%` stays a `%`). */
  function PercentDecode(s: string, plusAsSpace: bool): seq<Byte>
    decreases |s|
  {
    if s == [] then []
    else if s[0] == '%' && |s| >= 3 && IsHexDigit(s[1]) && IsHexDigit(s[2]) then
      [HexValue(s[1]) * 16 + HexValue(s[2])] + PercentDecode(s[3..], plusAsSpace)
    else if s[0] == '+' && plusAsSpace then
      [' ' as int] + PercentDecode(s[1..], plusAsSpace)
    else Utf8.EncodeScalar(s[0]) + PercentDecode(s[1..], plusAsSpace)
  }

  /** How a form parser reads one encoded name or value. */
  function FormDecode(s: string): Option<string> {
    Utf8.Decode(PercentDecode(s, true))
  }

  /** `decodeURIComponent` on well-formed input. */
  function UriComponentDecode(s: string): Option<string> {
    Utf8.Decode(PercentDecode(s, false))
  }

  /** Decoding reads one encoded byte back, whatever follows it. */
  lemma PercentDecodeOfEncodedByte(scheme: Scheme, b: Byte, rest: string, plusAsSpace: bool)
    requires scheme == FormUrlEncoded ==> plusAsSpace
    ensures PercentDecode(EncodeByte(scheme, b) + rest, plusAsSpace)
         == [b] + PercentDecode(rest, plusAsSpace)
  {
    if IsUnreserved(scheme, b) {
      DecodePlainByte(b, rest, plusAsSpace);
    } else if scheme == FormUrlEncoded && b == ' ' as int {
      var s := "+" + rest;
      assert s[0] == '+' && s[1..] == rest;
    } else {
      DecodeEscapedByte(b, rest, plusAsSpace);
    }
  }

  lemma DecodePlainByte(b: Byte, rest: string, plusAsSpace: bool)
    requires IsAsciiAlphanumeric(b) || b in {'-' as int, '.' as int, '_' as int, '*' as int,
                                             '!' as int, '~' as int, '\'' as int, '(' as int, ')' as int}
    ensures PercentDecode([b as char] + rest, plusAsSpace) == [b] + PercentDecode(rest, plusAsSpace)
  {
    var s := [b as char] + rest;
    assert s[0] == b as char && s[1..] == rest;
    assert Utf8.EncodeScalar(b as char) == [b];
  }

  lemma DecodeEscapedByte(b: Byte, rest: string, plusAsSpace: bool)
    ensures PercentDecode(['%', HexDigit(b / 16), HexDigit(b % 16)] + rest, plusAsSpace)
         == [b] + PercentDecode(rest, plusAsSpace)
  {
    var s := ['%', HexDigit(b / 16), HexDigit(b % 16)] + rest;
    assert s[0] == '%' && s[1] == HexDigit(b / 16) && s[2] == HexDigit(b % 16) && s[3..] == rest;
  }

  /** Percent-decoding undoes percent-encoding of any byte string. A form
      encoding needs '+' read as a space; an encodeURIComponent encoding
      never contains a '+' and decodes either way. */
  lemma {:induction false} PercentDecodeEncodeBytes(scheme: Scheme, bs: seq<Byte>, plusAsSpace: bool)
    requires scheme == FormUrlEncoded ==> plusAsSpace
    ensures PercentDecode(EncodeBytes(scheme, bs), plusAsSpace) == bs
  {
    if bs != [] {
      PercentDecodeOfEncodedByte(scheme, bs[0], EncodeBytes(scheme, bs[1..]), plusAsSpace);
      PercentDecodeEncodeBytes(scheme, bs[1..], plusAsSpace);
    }
  }

  /** A form parser reads back every string URLSearchParams wrote. */
  lemma FormDecodeEncode(s: string)
    ensures FormDecode(PercentEncode(FormUrlEncoded, s)) == Some(s)
  {
    PercentDecodeEncodeBytes(FormUrlEncoded, Utf8.Encode(s), true);
    Utf8.DecodeEncode(s);
  }

  /** decodeURIComponent, and a form parser too, read back every string
      encodeURIComponent wrote. */
  lemma UriComponentRoundTrip(s: string)
    ensures UriComponentDecode(EncodeUriComponent(s)) == Some(s)
    ensures FormDecode(EncodeUriComponent(s)) == Some(s)
  {
    PercentDecodeEncodeBytes(UriComponent, Utf8.Encode(s), false);
    PercentDecodeEncodeBytes(UriComponent, Utf8.Encode(s), true);
    Utf8.DecodeEncode(s);
  }

  /** The text contains none of the characters that delimit query
      parameters ('&', '=') or end the query ('#'). */
  predicate NoDelimiters(t: string) {
    forall i :: 0 <= i < |t| ==> t[i] != '&' && t[i] != '=' && t[i] != '#'
  }

  lemma {:induction false} EncodeBytesNoDelimiters(scheme: Scheme, bs: seq<Byte>)
    ensures NoDelimiters(EncodeBytes(scheme, bs))
  {
    if bs != [] {
      EncodeBytesNoDelimiters(scheme, bs[1..]);
      var e := EncodeByte(scheme, bs[0]);
      assert NoDelimiters(e);
      var t := EncodeBytes(scheme, bs);
      assert t == e + EncodeBytes(scheme, bs[1..]);
      forall i | 0 <= i < |t| ensures t[i] != '&' && t[i] != '=' && t[i] != '#' {
        if i >= |e| {
          assert t[i] == EncodeBytes(scheme, bs[1..])[i - |e|];
        }
      }
    }
  }

  /** Whatever the string, its encoding under either scheme stays inside one
      query parameter value. */
  lemma PercentEncodeNoDelimiters(scheme: Scheme, s: string)
    ensures NoDelimiters(PercentEncode(scheme, s))
  {
    EncodeBytesNoDelimiters(scheme, Utf8.Encode(s));
  }

  /** One name-value pair as the serializer writes it. */
  function SerializePair(p: (string, string)): string {
    PercentEncode(FormUrlEncoded, p.0) + "=" + PercentEncode(FormUrlEncoded, p.1)
  }

  /** `URLSearchParams.toString()`: the encoded pairs in list order,
      separated by '&'. */
  function Serialize(pairs: seq<(string, string)>): string {
    if pairs == [] then ""
    else if |pairs| == 1 then SerializePair(pairs[0])
    else SerializePair(pairs[0]) + "&" + Serialize(pairs[1..])
  }

  /** One '&'-separated piece, split at its first '='. */
  function ParsePair(seg: string): Option<(string, string)> {
    var j := IndexOf(seg, '=');
    var name := FormDecode(seg[..j]);
    var value := FormDecode(if j < |seg| then seg[j + 1..] else "");
    if name.Some? && value.Some? then Some((name.value, value.value)) else None
  }

  /** The input split on '&' into pieces; "a&&b" has an empty middle piece. */
  function Split(s: string): (r: seq<string>)
    ensures |r| >= 1
    decreases |s|
  {
    var i := IndexOf(s, '&');
    if i == |s| then [s] else [s[..i]] + Split(s[i + 1..])
  }

  /** The pieces parsed in order, empty ones skipped. */
  function ParsePieces(pieces: seq<string>): Option<seq<(string, string)>> {
    if pieces == [] then Some([])
    else
      var tail := ParsePieces(pieces[1..]);
      if pieces[0] == "" then tail
      else
        match ParsePair(pieces[0])
        case None => None
        case Some(p) => if tail.Some? then Some([p] + tail.value) else None
  }

  /** The application/x-www-form-urlencoded parser (section 5.1 of the WHATWG
      URL Standard), failing where the bytes are not UTF-8: split on '&',
      skip empty pieces, split each at its first '='. */
  function ParseQuery(s: string): Option<seq<(string, string)>> {
    ParsePieces(Split(s))
  }

  lemma ParsePairOfSerialized(p: (string, string))
    ensures ParsePair(SerializePair(p)) == Some(p)
  {
    var n, v := PercentEncode(FormUrlEncoded, p.0), PercentEncode(FormUrlEncoded, p.1);
    var seg := SerializePair(p);
    PercentEncodeNoDelimiters(FormUrlEncoded, p.0);
    assert seg[|n|] == '=';
    assert IndexOf(seg, '=') == |n|;
    assert seg[..|n|] == n && seg[|n| + 1..] == v;
    FormDecodeEncode(p.0);
    FormDecodeEncode(p.1);
  }

  /** A serialized pair never contains '&' and is never empty. */
  lemma SerializedPairShape(p: (string, string))
    ensures |SerializePair(p)| > 0
    ensures forall i :: 0 <= i < |SerializePair(p)| ==> SerializePair(p)[i] != '&'
  {
    var n, v := PercentEncode(FormUrlEncoded, p.0), PercentEncode(FormUrlEncoded, p.1);
    PercentEncodeNoDelimiters(FormUrlEncoded, p.0);
    PercentEncodeNoDelimiters(FormUrlEncoded, p.1);
    var seg := SerializePair(p);
    forall i | 0 <= i < |seg| ensures seg[i] != '&' {
      if i > |n| {
        assert seg[i] == v[i - |n| - 1];
      }
    }
  }

  /** The serialized pairs, one piece each. */
  function PairTexts(pairs: seq<(string, string)>): (r: seq<string>)
    ensures |r| == |pairs|
  {
    if pairs == [] then [] else [SerializePair(pairs[0])] + PairTexts(pairs[1..])
  }

  /** A piece without '&' is split off whole at the first '&'. */
  lemma SplitAfter(a: string, b: string)
    requires forall i :: 0 <= i < |a| ==> a[i] != '&'
    ensures Split(a + "&" + b) == [a] + Split(b)
  {
    var s := a + "&" + b;
    assert s[|a|] == '&';
    assert forall j :: 0 <= j < |a| ==> s[j] == a[j];
    assert IndexOf(s, '&') == |a|;
    assert s[..|a|] == a && s[|a| + 1..] == b;
  }

  /** Splitting the serialization on '&' gives back one piece per pair. */
  lemma {:induction false} SplitSerialize(pairs: seq<(string, string)>)
    requires pairs != []
    ensures Split(Serialize(pairs)) == PairTexts(pairs)
  {
    var first := SerializePair(pairs[0]);
    SerializedPairShape(pairs[0]);
    if |pairs| == 1 {
      assert IndexOf(first, '&') == |first|;
    } else {
      SplitSerialize(pairs[1..]);
      SplitAfter(first, Serialize(pairs[1..]));
    }
  }

  /** Every piece parses back to its pair. */
  lemma {:induction false} ParsePiecesPairTexts(pairs: seq<(string, string)>)
    ensures ParsePieces(PairTexts(pairs)) == Some(pairs)
  {
    if pairs != [] {
      var texts := PairTexts(pairs);
      SerializedPairShape(pairs[0]);
      ParsePairOfSerialized(pairs[0]);
      ParsePiecesPairTexts(pairs[1..]);
      assert texts[0] == SerializePair(pairs[0]) && texts[1..] == PairTexts(pairs[1..]);
      assert pairs == [pairs[0]] + pairs[1..];
    }
  }

  /** The server's parser reads back exactly the list of pairs, in order,
      that URLSearchParams serialized. */
  lemma ParseSerialize(pairs: seq<(string, string)>)
    ensures ParseQuery(Serialize(pairs)) == Some(pairs)
  {
    if pairs == [] {
      assert Split("") == [""];
    } else {
      SplitSerialize(pairs);
      ParsePiecesPairTexts(pairs);
    }
  }

  /** A text with no '%' (and no '+' where '+' means space) percent-decodes
      to its own UTF-8 bytes. */
  lemma {:induction false} PercentDecodePlain(s: string, plusAsSpace: bool)
    requires forall i :: 0 <= i < |s| ==> s[i] != '%' && (plusAsSpace ==> s[i] != '+')
    ensures PercentDecode(s, plusAsSpace) == Utf8.Encode(s)
  {
    if s != [] {
      PercentDecodePlain(s[1..], plusAsSpace);
    }
  }

  /** A form parser reads a text with no '%' and no '+' as itself. */
  lemma FormDecodePlain(s: string)
    requires forall i :: 0 <= i < |s| ==> s[i] != '%' && s[i] != '+'
    ensures FormDecode(s) == Some(s)
  {
    PercentDecodePlain(s, true);
    Utf8.DecodeEncode(s);
  }

  /** A query made of one `name=value` piece parses to that one pair. */
  lemma ParseOnePair(name: string, value: string)
    requires |name| > 0 && NoDelimiters(name) && NoDelimiters(value)
    requires FormDecode(name).Some? && FormDecode(value).Some?
    ensures ParseQuery(name + "=" + value) == Some([(FormDecode(name).value, FormDecode(value).value)])
  {
    var seg := name + "=" + value;
    forall i | 0 <= i < |seg| ensures seg[i] != '&' {
      if i > |name| {
        assert seg[i] == value[i - |name| - 1];
      }
    }
    assert IndexOf(seg, '&') == |seg|;
    assert seg[|name|] == '=';
    assert IndexOf(seg, '=') == |name|;
    assert seg[..|name|] == name && seg[|name| + 1..] == value;
    assert ParsePair(seg) == Some((FormDecode(name).value, FormDecode(value).value));
    assert Split(seg) == [seg];
    var pieces: seq<string> := [seg];
    assert pieces[0] == seg && pieces[1..] == [];
    var pair := (FormDecode(name).value, FormDecode(value).value);
    assert ParsePieces(pieces[1..]) == Some([]);
    assert [pair] + [] == [pair];
    assert ParsePieces(pieces) == Some([pair]);
  }
}
