/** The request as the handlers see it, and net/http's header map. */
module Http {
  import opened Seqs
  import opened Strings

  type Header = map<Str, seq<Str>>

  /** `*http.Request` as a value. `absolutePath` is the escaped path of an absolute-form request
      URI where it parses as one; URL parsing itself is not modelled. */
  datatype Req = Req(
    verb: Str,
    requestURI: Str,
    absolutePath: Option<Str>,
    escapedPath: Str,
    rawQuery: Str,
    host: Str,
    urlHost: Str,
    header: Header,
    contentLength: int)

  /** `Header.Get` for a name in canonical form. */
  function Get(h: Header, name: Str): Str {
    if name in h && h[name] != [] then h[name][0] else []
  }

  function SetHeader(r: Req, name: Str, value: Str): Req {
    r.(header := r.header[name := [value]])
  }

  function DelHeader(r: Req, name: Str): Req {
    r.(header := r.header - {name})
  }

  // ---- Header names ----

  /** The token bytes of a header field name. */
  predicate IsTokenByte(c: Byte) {
    || 'A' <= c <= 'Z' || 'a' <= c <= 'z' || '0' <= c <= '9'
    || c == '!' || c == '#' || c == '$' || c == '%' || c == '&' || c == '\'' || c == '*' || c == '+'
    || c == '-' || c == '.' || c == '^' || c == '_' || c == '`' || c == '|' || c == '~'
  }

  lemma TokenByteMeans(c: Byte)
    ensures IsTokenByte(c) <==>
            'A' <= c <= 'Z' || 'a' <= c <= 'z' || '0' <= c <= '9' || c in "!#$%&'*+-.^_`|~"
  {
    assert forall x :: x in "!#$%&'*+-.^_`|~" <==>
             || x == '!' || x == '#' || x == '$' || x == '%' || x == '&' || x == '\'' || x == '*' || x == '+'
             || x == '-' || x == '.' || x == '^' || x == '_' || x == '`' || x == '|' || x == '~';
  }

  predicate IsToken(s: Str) {
    s != [] && forall c :: c in s ==> IsTokenByte(c)
  }

  function TitleCase(s: Str, upper: bool): (r: Str)
    ensures |r| == |s|
    ensures s != [] ==> r[0] == if upper then Upper(s[0]) else Lower(s[0])
  {
    if s == [] then []
    else [if upper then Upper(s[0]) else Lower(s[0])] + TitleCase(s[1..], s[0] == '-')
  }

  /** `textproto.CanonicalMIMEHeaderKey`: names with a non-token byte stay as they are. */
  function CanonicalKey(s: Str): Str {
    if forall c :: c in s ==> IsTokenByte(c) then TitleCase(s, true) else s
  }

  /** What a parsed HTTP request guarantees about the keys of its header map. */
  predicate CanonicalNames(h: Header) {
    forall k :: k in h ==> IsToken(k) && CanonicalKey(k) == k
  }

  predicate TokenNames(h: Header) {
    forall k :: k in h ==> IsToken(k)
  }

  /** The first value of a header, or nothing. */
  lemma GetMeans(h: Header, name: Str, v: Str, more: seq<Str>)
    ensures Get(h[name := [v] + more], name) == v && Get(h[name := []], name) == [] && Get(h - {name}, name) == []
  {
  }

  /** The canonical form of a name: a capital at the start and after every hyphen, small letters
      elsewhere. */
  lemma {:induction false} TitleCaseAt(s: Str, upper: bool, i: nat)
    requires i < |s|
    ensures TitleCase(s, upper)[i] ==
            if (if i == 0 then upper else s[i - 1] == '-') then Upper(s[i]) else Lower(s[i])
  {
    if i > 0 {
      TitleCaseAt(s[1..], s[0] == '-', i - 1);
    }
  }

  /** So a signed name in small letters finds the header that the client sent under it. */
  lemma ValuesMeans(h: Header, name: Str, i: nat)
    requires IsToken(name) && i < |name|
    ensures var k := CanonicalKey(name);
            && |k| == |name| && Values(h, name) == (if k in h then h[k] else [])
            && k[i] == if i == 0 || name[i - 1] == '-' then Upper(name[i]) else Lower(name[i])
  {
    TitleCaseAt(name, true, i);
  }

  lemma TokenByteFacts(c: Byte)
    requires IsTokenByte(c)
    ensures c != ';' && c != ',' && c != '/' && c != '=' && !IsAsciiSpace(c) && c as int < 0x80 && IsTokenByte(Lower(c))
  {
  }

  lemma {:induction false} TitleCaseOfLower(s: Str, upper: bool)
    ensures TitleCase(ToLower(s), upper) == TitleCase(s, upper)
  {
    if s != [] {
      assert ToLower(s)[1..] == ToLower(s[1..]);
      TitleCaseOfLower(s[1..], s[0] == '-');
    }
  }

  /** Lower-casing a canonical name and looking it up finds the same key. */
  lemma LowerNameFindsKey(k: Str)
    requires IsToken(k) && CanonicalKey(k) == k
    ensures CanonicalKey(ToLower(k)) == k
  {
    TitleCaseOfLower(k, true);
  }

  /** `Header.Values` for a name in any case. */
  function Values(h: Header, name: Str): seq<Str> {
    if CanonicalKey(name) in h then h[CanonicalKey(name)] else []
  }

  /** The request object that handlers update in place. */
  class Request {
    const verb: Str
    const requestURI: Str
    const absolutePath: Option<Str>
    const escapedPath: Str
    const urlHost: Str
    const contentLength: int
    var rawQuery: Str
    var host: Str
    var header: Header

    constructor (r: Req)
      ensures Value() == r
    {
      verb, requestURI, absolutePath, escapedPath := r.verb, r.requestURI, r.absolutePath, r.escapedPath;
      urlHost, contentLength := r.urlHost, r.contentLength;
      rawQuery, host, header := r.rawQuery, r.host, r.header;
    }

    function Value(): Req
      reads this
    {
      Req(verb, requestURI, absolutePath, escapedPath, rawQuery, host, urlHost, header, contentLength)
    }

    method Set(name: Str, value: Str)
      modifies this`header
      ensures Value() == SetHeader(old(Value()), name, value)
    {
      header := header[name := [value]];
    }

    method Del(name: Str)
      modifies this`header
      ensures Value() == DelHeader(old(Value()), name)
    {
      header := header - {name};
    }
  }
}
