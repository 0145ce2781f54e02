/** Percent coding: `url.PathUnescape` and `url.QueryUnescape` (section 2.1 of RFC 3986), and
    SigV4 URI-encoding over the unreserved alphabet (section 2.3 of RFC 3986). */
module UriCoding {
  import opened Seqs
  import opened Strings

  predicate IsHex(c: Byte) {
    '0' <= c <= '9' || 'a' <= c <= 'f' || 'A' <= c <= 'F'
  }

  function UnHex(c: Byte): (n: nat)
    requires IsHex(c)
    ensures n < 16
  {
    if c <= '9' then c as int - 48 else if c <= 'F' then c as int - 55 else c as int - 87
  }

  function HexUpper(n: nat): (c: Byte)
    requires n < 16
    ensures IsHex(c) && UnHex(c) == n && !('a' <= c <= 'z')
  {
    if n < 10 then (48 + n) as char else (55 + n) as char
  }

  /** `url.PathUnescape` (plus == false) and `url.QueryUnescape` (plus == true). */
  function Unescape(s: Str, plus: bool): Option<Str>
    decreases |s|
  {
    if s == [] then Some([])
    else if s[0] == '%' then
      if |s| >= 3 && IsHex(s[1]) && IsHex(s[2]) then
        Prepend((16 * UnHex(s[1]) + UnHex(s[2])) as char, Unescape(s[3..], plus))
      else None
    else
      Prepend(if plus && s[0] == '+' then ' ' else s[0], Unescape(s[1..], plus))
  }

  function Prepend(c: Byte, rest: Option<Str>): Option<Str> {
    if rest.None? then None else Some([c] + rest.value)
  }

  function PathUnescape(s: Str): Option<Str> { Unescape(s, false) }

  function QueryUnescape(s: Str): Option<Str> { Unescape(s, true) }

  predicate IsUnreserved(c: Byte) {
    || 'A' <= c <= 'Z' || 'a' <= c <= 'z' || '0' <= c <= '9'
    || c == '-' || c == '.' || c == '_' || c == '~'
  }

  function EncodeByte(c: Byte, encodeSlash: bool): Str {
    if IsUnreserved(c) then [c]
    else if c == '/' && !encodeSlash then [c]
    else ['%', HexUpper(c as int / 16), HexUpper(c as int % 16)]
  }

  function UriEncode(s: Str, encodeSlash: bool): (r: Str)
    ensures forall c :: c in r ==> IsUnreserved(c) || c == '%' || (c == '/' && !encodeSlash)
  {
    if s == [] then [] else EncodeByte(s[0], encodeSlash) + UriEncode(s[1..], encodeSlash)
  }

  lemma EncodeStep(done: Str, s: Str, i: nat, encodeSlash: bool)
    requires i < |s|
    ensures done + UriEncode(s[i..], encodeSlash) ==
            done + EncodeByte(s[i], encodeSlash) + UriEncode(s[i+1..], encodeSlash)
  {
    assert s[i..][1..] == s[i+1..];
  }

  /** The encoder's loop. */
  method EncodeUri(s: Str, encodeSlash: bool) returns (b: Str)
    ensures b == UriEncode(s, encodeSlash)
  {
    b := [];
    for i := 0 to |s|
      invariant b + UriEncode(s[i..], encodeSlash) == UriEncode(s, encodeSlash)
    {
      EncodeStep(b, s, i, encodeSlash);
      if IsUnreserved(s[i]) {
        b := b + [s[i]];
      } else if s[i] == '/' && !encodeSlash {
        b := b + [s[i]];
      } else {
        b := b + ['%', HexUpper(s[i] as int / 16), HexUpper(s[i] as int % 16)];
      }
    }
    assert UriEncode(s[|s|..], encodeSlash) == [];
  }

  lemma UnescapeStep(c: Byte, rest: Str, plus: bool, encodeSlash: bool)
    ensures Unescape(EncodeByte(c, encodeSlash) + rest, plus) == Prepend(c, Unescape(rest, plus))
  {
    var e := EncodeByte(c, encodeSlash);
    var s := e + rest;
    if |e| == 1 {
      assert s[1..] == rest;
    } else {
      assert s[0] == '%' && s[1] == e[1] && s[2] == e[2] && s[3..] == rest;
    }
  }

  /** Both decoders undo the encoder, on every byte string. */
  lemma {:induction false} UnescapeEncode(s: Str, plus: bool, encodeSlash: bool)
    ensures Unescape(UriEncode(s, encodeSlash), plus) == Some(s)
  {
    if s != [] {
      UnescapeEncode(s[1..], plus, encodeSlash);
      UnescapeStep(s[0], UriEncode(s[1..], encodeSlash), plus, encodeSlash);
      assert s == [s[0]] + s[1..];
    }
  }

  /** The two decoders accept the same strings and differ only in `+`. */
  lemma {:induction false} UnescapersAgree(s: Str, name: Str)
    requires '+' !in name && ' ' !in name
    ensures PathUnescape(s) == Some(name) <==> QueryUnescape(s) == Some(name)
    ensures PathUnescape(s).Some? <==> QueryUnescape(s).Some?
    decreases |s|
  {
    if s != [] && (s[0] != '%' || (|s| >= 3 && IsHex(s[1]) && IsHex(s[2]))) {
      var rest := if s[0] == '%' then s[3..] else s[1..];
      UnescapersAgree(rest, if name == [] then [] else name[1..]);
      var c: Byte := if s[0] == '%' then (16 * UnHex(s[1]) + UnHex(s[2])) as char else s[0];
      PrependTail(c, Unescape(rest, false), name);
      PrependTail(if s[0] == '+' then ' ' else c, Unescape(rest, true), name);
    }
  }

  lemma PrependTail(c: Byte, rest: Option<Str>, name: Str)
    ensures Prepend(c, rest) == Some(name) <==> name != [] && name[0] == c && rest == Some(name[1..])
  {
    if name != [] {
      assert name == [name[0]] + name[1..];
    }
    if rest.Some? {
      assert ([c] + rest.value)[1..] == rest.value;
    }
  }

  // ---- The two codings, byte by byte ----

  const HEX_UPPER: Str := "0123456789ABCDEF"
  const HEX_LOWER: Str := "0123456789abcdef"

  lemma HexTable(c: Byte, i: nat)
    requires i < 16
    ensures IsHex(HEX_UPPER[i]) && UnHex(HEX_UPPER[i]) == i && IsHex(HEX_LOWER[i]) && UnHex(HEX_LOWER[i]) == i
    ensures IsHex(c) ==> UnHex(c) < 16 && (c == HEX_UPPER[UnHex(c)] || c == HEX_LOWER[UnHex(c)])
  {
  }

  /** Section 2.3 of RFC 3986: letters, digits, "-", ".", "_" and "~" stand for themselves, and "/" on
      request; every other byte is a percent sign and two upper-case digits. */
  lemma EncodeMeans(c: Byte, encodeSlash: bool)
    ensures 'A' <= c <= 'Z' || 'a' <= c <= 'z' || '0' <= c <= '9' || c == '-' || c == '.' || c == '_' || c == '~'
            || (c == '/' && !encodeSlash)
            ==> UriEncode([c], encodeSlash) == [c]
    ensures !('A' <= c <= 'Z' || 'a' <= c <= 'z' || '0' <= c <= '9' || c == '-' || c == '.' || c == '_' || c == '~'
              || (c == '/' && !encodeSlash))
            ==> UriEncode([c], encodeSlash) == ['%', HEX_UPPER[c as int / 16], HEX_UPPER[c as int % 16]]
  {
    assert UriEncode([], encodeSlash) == [];
    HexUpperTable(c as int / 16);
    HexUpperTable(c as int % 16);
  }

  lemma HexUpperTable(n: nat)
    requires n < 16
    ensures HexUpper(n) == HEX_UPPER[n]
  {
  }

  lemma {:induction false} UriEncodeAppend(a: Str, b: Str, encodeSlash: bool)
    ensures UriEncode(a + b, encodeSlash) == UriEncode(a, encodeSlash) + UriEncode(b, encodeSlash)
  {
    if a == [] {
      assert a + b == b;
    } else {
      assert (a + b)[1..] == a[1..] + b;
      UriEncodeAppend(a[1..], b, encodeSlash);
    }
  }

  /** One step of decoding: what comes before the rest. */
  ghost predicate Reads(s: Str, c: Byte, rest: Str, plus: bool) {
    Unescape(s, plus) == if Unescape(rest, plus).None? then None else Some([c] + Unescape(rest, plus).value)
  }

  /** Section 2.1 of RFC 3986: an escape in digits of either case is the byte it names; any other byte
      is itself, but a plus in a form is a space. */
  lemma UnescapeMeans(i: nat, j: nat, c: Byte, rest: Str, plus: bool)
    requires i < 16 && j < 16
    ensures Unescape([], plus) == Some([])
    ensures Reads(['%', HEX_UPPER[i], HEX_UPPER[j]] + rest, (16 * i + j) as char, rest, plus)
    ensures Reads(['%', HEX_LOWER[i], HEX_LOWER[j]] + rest, (16 * i + j) as char, rest, plus)
    ensures Reads(['%', HEX_UPPER[i], HEX_LOWER[j]] + rest, (16 * i + j) as char, rest, plus)
    ensures Reads(['%', HEX_LOWER[i], HEX_UPPER[j]] + rest, (16 * i + j) as char, rest, plus)
    ensures c != '%' && !(plus && c == '+') ==> Reads([c] + rest, c, rest, plus)
    ensures Reads(['+'] + rest, if plus then ' ' else '+', rest, plus)
  {
    hide IsHex, UnHex;
    HexTable('0', i);
    HexTable('0', j);
    EscapeReads(HEX_UPPER[i], HEX_UPPER[j], i, j, rest, plus);
    EscapeReads(HEX_LOWER[i], HEX_LOWER[j], i, j, rest, plus);
    EscapeReads(HEX_UPPER[i], HEX_LOWER[j], i, j, rest, plus);
    EscapeReads(HEX_LOWER[i], HEX_UPPER[j], i, j, rest, plus);
    if c != '%' {
      RawReads(c, rest, plus);
    }
    RawReads('+', rest, plus);
  }

  lemma EscapeReads(a: Byte, b: Byte, i: nat, j: nat, rest: Str, plus: bool)
    requires i < 16 && j < 16 && IsHex(a) && IsHex(b) && UnHex(a) == i && UnHex(b) == j
    ensures Reads(['%', a, b] + rest, (16 * i + j) as char, rest, plus)
  {
    hide IsHex, UnHex;
    assert (['%', a, b] + rest)[3..] == rest;
  }

  lemma RawReads(c: Byte, rest: Str, plus: bool)
    requires c != '%'
    ensures Reads([c] + rest, if plus && c == '+' then ' ' else c, rest, plus)
  {
    assert ([c] + rest)[1..] == rest;
  }

  /** A percent sign without two digits makes the whole text malformed. */
  lemma {:induction false} UnescapeRefuses(before: Str, s: Str, plus: bool)
    requires s != [] && s[0] == '%' && !(|s| >= 3 && IsHex(s[1]) && IsHex(s[2])) && '%' !in before
    ensures Unescape(before + s, plus) == None
  {
    if before == [] {
      assert before + s == s;
    } else {
      assert (before + s)[1..] == before[1..] + s;
      UnescapeRefuses(before[1..], s, plus);
    }
  }
}
