/** The SigV4 Authorization header: its fields, its parser and its printer. */
module Authorization {
  import opened Seqs
  import opened Strings

  const ALGORITHM: Str := "AWS4-HMAC-SHA256"
  const REQUEST_TYPE: Str := "aws4_request"
  const CREDENTIAL: Str := "Credential"
  const SIGNED_HEADERS: Str := "SignedHeaders"
  const SIGNATURE: Str := "Signature"
  const EQUALS: Str := "="
  const SPACE: Str := " "

  /** The verification errors; ParseAuthorization only ever reports Malformed. */
  datatype Error = Malformed | MissingDate | Skew | Scope | SignatureMismatch | PresignExpired

  datatype Result<+T> = Ok(value: T) | Err(error: Error)

  datatype Auth = Auth(
    akid: Str, date: Str, region: Str, service: Str, signed: seq<Str>, signature: Str)

  const EMPTY_AUTH := Auth([], [], [], [], [], [])

  // ---- The three components ----

  /** `<AKID>/<date>/<region>/<service>/aws4_request`. */
  predicate ScopeShape(value: Str) {
    |Split(value, '/')| == 5 && Split(value, '/')[4] == REQUEST_TYPE
  }

  function WithScope(a: Auth, value: Str): Auth
    requires ScopeShape(value)
  {
    var scope := Split(value, '/');
    a.(akid := scope[0], date := scope[1], region := scope[2], service := scope[3])
  }

  predicate CredentialOk(value: Str) {
    && ScopeShape(value)
    && Split(value, '/')[0] != []
    && |Split(value, '/')[1]| == 8
  }

  function CleanName(h: Str): Str {
    ToLower(TrimSpace(h))
  }

  function NameList(value: Str): seq<Str> {
    Map(CleanName, Split(value, ';'))
  }

  predicate NamesOk(value: Str) {
    [] !in NameList(value)
  }

  predicate IsLowerHex(s: Str) {
    |s| == 64 && forall c :: c in s ==> '0' <= c <= '9' || 'a' <= c <= 'f'
  }

  predicate SignatureOk(value: Str) {
    IsLowerHex(CleanName(value))
  }

  /** The names that come before the first empty one. */
  function BeforeEmpty(names: seq<Str>): seq<Str> {
    if names == [] || names[0] == [] then [] else [names[0]] + BeforeEmpty(names[1..])
  }

  lemma {:induction false} BeforeEmptyAll(names: seq<Str>)
    requires [] !in names
    ensures BeforeEmpty(names) == names
  {
    if names != [] {
      BeforeEmptyAll(names[1..]);
    }
  }

  lemma BeforeEmptyStep(done: seq<Str>, names: seq<Str>, i: nat)
    requires i < |names|
    ensures done + BeforeEmpty(names[i..]) ==
            if names[i] == [] then done else done + [names[i]] + BeforeEmpty(names[i+1..])
  {
    assert names[i..][1..] == names[i+1..];
  }

  /** The parsed header as the source builds it, field by field; a failing setter leaves the
      fields it had already written. */
  class Fields {
    var accessKeyID: Str
    var date: Str
    var region: Str
    var service: Str
    var signedHeaders: seq<Str>
    var signature: Str

    ghost function Value(): Auth
      reads this
    {
      Auth(accessKeyID, date, region, service, signedHeaders, signature)
    }

    constructor ()
      ensures Value() == EMPTY_AUTH
    {
      accessKeyID, date, region, service, signedHeaders, signature := [], [], [], [], [], [];
    }

    method SetCredential(value: Str) returns (ok: bool)
      modifies this
      ensures ok == CredentialOk(value)
      ensures Value() == if ScopeShape(value) then WithScope(old(Value()), value) else old(Value())
    {
      var scope := Split(value, '/');
      if |scope| != 5 || scope[4] != REQUEST_TYPE {
        return false;
      }
      accessKeyID, date, region, service := scope[0], scope[1], scope[2], scope[3];
      return !(accessKeyID == [] || |date| != 8);
    }

    method SetSignedHeaders(value: Str) returns (ok: bool)
      modifies this
      ensures ok == NamesOk(value)
      ensures Value() == old(Value()).(signed := old(signedHeaders) + BeforeEmpty(NameList(value)))
      ensures ok ==> Value().signed == old(signedHeaders) + NameList(value)
    {
      hide BeforeEmpty, ToLower, TrimSpace, Split;
      var parts := Split(value, ';');
      ghost var names := NameList(value);
      for i := 0 to |parts|
        invariant Value() == old(Value()).(signed := signedHeaders)
        invariant signedHeaders + BeforeEmpty(names[i..]) == old(signedHeaders) + BeforeEmpty(names)
        invariant forall j :: 0 <= j < i ==> names[j] != []
      {
        BeforeEmptyStep(signedHeaders, names, i);
        var h := ToLower(TrimSpace(parts[i]));
        if h == [] {
          assert names[i] in names;
          return false;
        }
        signedHeaders := signedHeaders + [h];
      }
      BeforeEmptyAll(names);
      BeforeEmptyAll([]);
      assert names[|parts|..] == [];
      return true;
    }

    method SetSignature(value: Str) returns (ok: bool)
      modifies this
      ensures ok == SignatureOk(value)
      ensures Value() == if ok then old(Value()).(signature := CleanName(value)) else old(Value())
    {
      var sig := ToLower(TrimSpace(value));
      if |sig| != 64 || !IsLowerHex(sig) {
        return false;
      }
      signature := sig;
      return true;
    }
  }

  // ---- Parsing ----

  datatype Kind = Blank | Bad | Cred(v: Str) | Names(v: Str) | Sig(v: Str)

  /** What one comma-separated part of the header is. */
  function KindOf(part: Str): Kind {
    var p := TrimSpace(part);
    var kv := Cut(p, '=');
    if p == [] then Blank
    else if !kv.found then Bad
    else if kv.before == CREDENTIAL then Cred(kv.after)
    else if kv.before == SIGNED_HEADERS then Names(kv.after)
    else if kv.before == SIGNATURE then Sig(kv.after)
    else Bad
  }

  predicate Good(part: Str) {
    match KindOf(part)
    case Blank => true
    case Bad => false
    case Cred(v) => CredentialOk(v)
    case Names(v) => NamesOk(v)
    case Sig(v) => SignatureOk(v)
  }

  /** The effect of one good part. */
  function Update(a: Auth, part: Str): Auth
    requires Good(part)
  {
    match KindOf(part)
    case Blank => a
    case Cred(v) => WithScope(a, v)
    case Names(v) => a.(signed := a.signed + NameList(v))
    case Sig(v) => a.(signature := CleanName(v))
  }

  function UpdateAll(a: Auth, parts: seq<Str>): Auth
    requires forall p :: p in parts ==> Good(p)
    decreases |parts|
  {
    if parts == [] then a else UpdateAll(Update(a, parts[0]), parts[1..])
  }

  predicate Complete(a: Auth) {
    a.akid != [] && a.signed != [] && a.signature != []
  }

  function ParseParts(parts: seq<Str>): Result<Auth> {
    if (forall p :: p in parts ==> Good(p)) && Complete(UpdateAll(EMPTY_AUTH, parts))
    then Ok(UpdateAll(EMPTY_AUTH, parts))
    else Err(Malformed)
  }

  function Parse(header: Str): Result<Auth> {
    if HasPrefix(header, ALGORITHM) then ParseParts(Split(header[|ALGORITHM|..], ',')) else Err(Malformed)
  }

  lemma {:induction false} UpdateAllSnoc(a: Auth, parts: seq<Str>, part: Str)
    requires forall p :: p in parts ==> Good(p)
    requires Good(part)
    ensures forall p :: p in parts + [part] ==> Good(p)
    ensures UpdateAll(a, parts + [part]) == Update(UpdateAll(a, parts), part)
    decreases |parts|
  {
    if parts != [] {
      assert (parts + [part])[1..] == parts[1..] + [part];
      UpdateAllSnoc(Update(a, parts[0]), parts[1..], part);
    }
  }

  lemma OkScope(value: Str)
    ensures CredentialOk(value) ==> ScopeShape(value)
  {
  }

  /** The loop body: one comma-separated part. */
  method ApplyPart(auth: Fields, raw: Str) returns (ok: bool)
    modifies auth
    ensures ok == Good(raw)
    ensures ok ==> auth.Value() == Update(old(auth.Value()), raw)
  {
    hide CredentialOk, NamesOk, SignatureOk, NameList, CleanName, BeforeEmpty, TrimSpace;
    assert CredentialOk(Cut(TrimSpace(raw), '=').after) ==> ScopeShape(Cut(TrimSpace(raw), '=').after) by {
      OkScope(Cut(TrimSpace(raw), '=').after);
    }
    var part := TrimSpace(raw);
    if part == [] {
      return true;
    }
    var kv := Cut(part, '=');
    if !kv.found {
      return false;
    }
    if kv.before == CREDENTIAL {
      ok := auth.SetCredential(kv.after);
    } else if kv.before == SIGNED_HEADERS {
      ok := auth.SetSignedHeaders(kv.after);
    } else if kv.before == SIGNATURE {
      ok := auth.SetSignature(kv.after);
    } else {
      ok := false;
    }
  }

  /** The loop: one pass over the parts, stopping at the first bad one. */
  method ApplyParts(auth: Fields, parts: seq<Str>) returns (ok: bool)
    requires auth.Value() == EMPTY_AUTH
    modifies auth
    ensures ok <==> forall p :: p in parts ==> Good(p)
    ensures ok ==> auth.Value() == UpdateAll(EMPTY_AUTH, parts)
  {
    for i := 0 to |parts|
      invariant forall p :: p in parts[..i] ==> Good(p)
      invariant auth.Value() == UpdateAll(EMPTY_AUTH, parts[..i])
    {
      assert parts[..i+1] == parts[..i] + [parts[i]];
      ok := ApplyPart(auth, parts[i]);
      if !ok {
        assert parts[i] in parts;
        return;
      }
      UpdateAllSnoc(EMPTY_AUTH, parts[..i], parts[i]);
    }
    assert parts[..|parts|] == parts;
    return true;
  }

  method ParseAuthorization(header: Str) returns (r: Result<Auth>)
    ensures r == Parse(header)
  {
    if !HasPrefix(header, ALGORITHM) {
      return Err(Malformed);
    }
    var auth := new Fields();
    var ok := ApplyParts(auth, Split(header[|ALGORITHM|..], ','));
    if !ok || auth.accessKeyID == [] || auth.signedHeaders == [] || auth.signature == [] {
      return Err(Malformed);
    }
    return Ok(Auth(auth.accessKeyID, auth.date, auth.region, auth.service, auth.signedHeaders, auth.signature));
  }

  // ---- What a parsed header looks like ----

  predicate FieldOk(s: Str) {
    '/' !in s && ',' !in s
  }

  predicate NameOk(n: Str) {
    n != [] && IsTrimmed(n) && ToLower(n) == n && ';' !in n && ',' !in n
  }

  /** Exactly the headers that printing and parsing preserve. */
  predicate WellFormed(a: Auth) {
    && a.akid != [] && |a.date| == 8
    && FieldOk(a.akid) && FieldOk(a.date) && FieldOk(a.region) && FieldOk(a.service)
    && a.signed != [] && (forall n :: n in a.signed ==> NameOk(n))
    && IsLowerHex(a.signature)
  }

  /** The same, for a header of which some components are still missing. */
  predicate PartlyFormed(a: Auth) {
    && (a.akid != [] ==> |a.date| == 8)
    && FieldOk(a.akid) && FieldOk(a.date) && FieldOk(a.region) && FieldOk(a.service)
    && (forall n :: n in a.signed ==> NameOk(n))
    && (a.signature != [] ==> IsLowerHex(a.signature))
  }

  lemma CleanNameOk(h: Str)
    requires ';' !in h && ',' !in h
    ensures CleanName(h) != [] ==> NameOk(CleanName(h))
  {
    LowerKeepsTrimmed(TrimSpace(h));
    var t := TrimSpace(h);
    forall c | c in ToLower(t) ensures c != ';' && c != ',' {
      var i :| 0 <= i < |t| && ToLower(t)[i] == c;
      assert t[i] in t && t[i] in h;
    }
  }

  lemma NameListOk(value: Str)
    requires ',' !in value && NamesOk(value)
    ensures forall n :: n in NameList(value) ==> NameOk(n)
  {
    forall n | n in NameList(value) ensures NameOk(n) {
      var parts := Split(value, ';');
      var i :| 0 <= i < |parts| && n == CleanName(parts[i]);
      assert parts[i] in parts;
      CleanNameOk(parts[i]);
    }
  }

  lemma ScopeFieldsOk(value: Str, i: nat)
    requires ',' !in value && i < |Split(value, '/')|
    ensures FieldOk(Split(value, '/')[i])
  {
    assert Split(value, '/')[i] in Split(value, '/');
  }

  lemma UpdateKeepsForm(a: Auth, part: Str)
    requires PartlyFormed(a) && Good(part) && ',' !in part
    ensures PartlyFormed(Update(a, part))
  {
    var kv := Cut(TrimSpace(part), '=');
    assert ',' !in kv.after;
    match KindOf(part)
    case Blank =>
    case Cred(v) =>
      ScopeFieldsOk(v, 0);
      ScopeFieldsOk(v, 1);
      ScopeFieldsOk(v, 2);
      ScopeFieldsOk(v, 3);
    case Names(v) => NameListOk(v);
    case Sig(v) =>
  }

  lemma {:induction false} UpdateAllKeepsForm(a: Auth, parts: seq<Str>)
    requires PartlyFormed(a) && forall p :: p in parts ==> Good(p) && ',' !in p
    ensures PartlyFormed(UpdateAll(a, parts))
    decreases |parts|
  {
    if parts != [] {
      UpdateKeepsForm(a, parts[0]);
      UpdateAllKeepsForm(Update(a, parts[0]), parts[1..]);
    }
  }

  /** Whatever ParseAuthorization accepts is well formed. */
  lemma ParsedIsWellFormed(header: Str)
    ensures Parse(header).Ok? ==> WellFormed(Parse(header).value)
  {
    if Parse(header).Ok? {
      UpdateAllKeepsForm(EMPTY_AUTH, Split(header[|ALGORITHM|..], ','));
    }
  }

  // ---- Printing ----

  function ScopeText(a: Auth): Str {
    Join([a.akid, a.date, a.region, a.service, REQUEST_TYPE], '/')
  }

  function CredentialPart(a: Auth): Str { CREDENTIAL + EQUALS + ScopeText(a) }

  function SignedPart(a: Auth): Str { SIGNED_HEADERS + EQUALS + Join(a.signed, ';') }

  function SignaturePart(a: Auth): Str { SIGNATURE + EQUALS + a.signature }

  /** `AWS4-HMAC-SHA256 Credential=..., SignedHeaders=..., Signature=...`. */
  function Print(a: Auth): Str {
    ALGORITHM + Join([SPACE + CredentialPart(a), SPACE + SignedPart(a), SPACE + SignaturePart(a)], ',')
  }

  lemma ComponentKind(key: Str, value: Str)
    requires '=' !in key && IsTrimmed(key + EQUALS + value)
    ensures KindOf(SPACE + (key + EQUALS + value)) ==
            if key == CREDENTIAL then Cred(value) else if key == SIGNED_HEADERS then Names(value)
            else if key == SIGNATURE then Sig(value) else Bad
  {
    TrimOneSpace(key + EQUALS + value);
    CutAt(key, '=', value);
  }

  lemma ComponentKeys()
    ensures '=' !in CREDENTIAL && '=' !in SIGNED_HEADERS && '=' !in SIGNATURE
    ensures ',' !in CREDENTIAL && ',' !in SIGNED_HEADERS && ',' !in SIGNATURE
    ensures CREDENTIAL != SIGNED_HEADERS && CREDENTIAL != SIGNATURE && SIGNED_HEADERS != SIGNATURE
    ensures |CREDENTIAL| >= 3 && |SIGNED_HEADERS| >= 3 && |SIGNATURE| >= 3
    ensures LeadingSpace(CREDENTIAL) == 0 && LeadingSpace(SIGNED_HEADERS) == 0 && LeadingSpace(SIGNATURE) == 0
  {
    assert |CREDENTIAL| == 10 && |SIGNED_HEADERS| == 13 && |SIGNATURE| == 9;
  }

  /** Trimmed text stays trimmed behind a prefix that ends in an ASCII byte. */
  lemma TrimmedTail(prefix: Str, x: Str)
    requires |prefix| >= 3 && prefix[|prefix| - 1] as int < 0x80 && LeadingSpace(prefix) == 0
    requires x != [] && TrailingSpace(x) == 0
    ensures IsTrimmed(prefix + x)
  {
    TrailingTail(prefix, x);
    assert (prefix + x)[..3] == prefix[..3];
    assert forall i :: 0 <= i < 3 ==> (prefix + x)[i] == prefix[i];
  }

  lemma TrailingTail(p: Str, x: Str)
    requires p != [] && p[|p| - 1] as int < 0x80 && x != [] && TrailingSpace(x) == 0
    ensures TrailingSpace(p + x) == 0
  {
    var s := p + x;
    assert s[|s| - 1] == x[|x| - 1];
    assert |x| >= 2 ==> s[|s| - 2] == x[|x| - 2];
    assert |x| >= 3 ==> s[|s| - 3] == x[|x| - 3];
    assert |x| == 1 ==> s[|s| - 2] == p[|p| - 1];
    assert |x| == 2 ==> s[|s| - 3] == p[|p| - 1];
  }

  lemma {:induction false} JoinedNamesTail(names: seq<Str>)
    requires names != [] && forall n :: n in names ==> NameOk(n)
    ensures Join(names, ';') != [] && TrailingSpace(Join(names, ';')) == 0
  {
    assert NameOk(names[0]);
    if |names| > 1 {
      JoinedNamesTail(names[1..]);
      TrailingTail(names[0] + [';'], Join(names[1..], ';'));
    }
  }

  lemma KeyPrefix(key: Str)
    requires |key| >= 3 && LeadingSpace(key) == 0
    ensures |key + EQUALS| >= 3 && (key + EQUALS)[|key + EQUALS| - 1] == '=' && LeadingSpace(key + EQUALS) == 0
  {
  }

  lemma ScopeTrimmed(prefix: Str, front: seq<Str>, last: Str)
    requires front != [] && last != [] && TrailingSpace(last) == 0
    requires |prefix| >= 3 && LeadingSpace(prefix) == 0
    ensures IsTrimmed(prefix + Join(front + [last], '/'))
  {
    JoinAppend(front, [last], '/');
    var p := prefix + Join(front, '/') + ['/'];
    assert p[0] == prefix[0] && p[1] == prefix[1] && p[2] == prefix[2] && p[|p| - 1] == '/';
    TrimmedTail(p, last);
    assert prefix + Join(front + [last], '/') == p + last;
  }

  lemma ScopeRoundTrip(a: Auth)
    requires WellFormed(a)
    ensures Split(ScopeText(a), '/') == [a.akid, a.date, a.region, a.service, REQUEST_TYPE]
    ensures ',' !in ScopeText(a)
  {
    var fields := [a.akid, a.date, a.region, a.service, REQUEST_TYPE];
    assert '/' !in REQUEST_TYPE && ',' !in REQUEST_TYPE;
    SplitJoin(fields, '/');
    JoinFree(fields, '/', ',');
  }

  lemma CredentialRoundTrip(a: Auth)
    requires WellFormed(a)
    ensures KindOf(SPACE + CredentialPart(a)) == Cred(ScopeText(a))
    ensures CredentialOk(ScopeText(a))
            && Split(ScopeText(a), '/') == [a.akid, a.date, a.region, a.service, REQUEST_TYPE]
    ensures ',' !in CredentialPart(a)
  {
    ComponentKeys();
    KeyPrefix(CREDENTIAL);
    ScopeRoundTrip(a);
    var front := [a.akid, a.date, a.region, a.service];
    assert front + [REQUEST_TYPE] == [a.akid, a.date, a.region, a.service, REQUEST_TYPE];
    ScopeTrimmed(CREDENTIAL + EQUALS, front, REQUEST_TYPE);
    ComponentKind(CREDENTIAL, ScopeText(a));
  }

  lemma CleanNamesFixed(names: seq<Str>)
    requires forall n :: n in names ==> NameOk(n)
    ensures Map(CleanName, names) == names
  {
    forall i | 0 <= i < |names| ensures CleanName(names[i]) == names[i] {
      assert names[i] in names;
    }
  }

  lemma SignedRoundTrip(a: Auth)
    requires WellFormed(a)
    ensures KindOf(SPACE + SignedPart(a)) == Names(Join(a.signed, ';'))
    ensures NameList(Join(a.signed, ';')) == a.signed
    ensures ',' !in SignedPart(a)
  {
    ComponentKeys();
    KeyPrefix(SIGNED_HEADERS);
    SplitJoin(a.signed, ';');
    CleanNamesFixed(a.signed);
    JoinFree(a.signed, ';', ',');
    JoinedNamesTail(a.signed);
    TrimmedTail(SIGNED_HEADERS + EQUALS, Join(a.signed, ';'));
    ComponentKind(SIGNED_HEADERS, Join(a.signed, ';'));
  }

  lemma HexIsClean(s: Str)
    requires IsLowerHex(s)
    ensures s != [] && IsTrimmed(s) && ToLower(s) == s && ',' !in s
  {
    assert forall i :: 0 <= i < |s| ==> s[i] in s;
    assert forall i :: 0 <= i < |s| ==> ToLower(s)[i] == s[i];
  }

  lemma SignatureRoundTrip(a: Auth)
    requires WellFormed(a)
    ensures KindOf(SPACE + SignaturePart(a)) == Sig(a.signature)
    ensures CleanName(a.signature) == a.signature
    ensures ',' !in SignaturePart(a)
  {
    var s := a.signature;
    ComponentKeys();
    KeyPrefix(SIGNATURE);
    HexIsClean(s);
    TrimmedTail(SIGNATURE + EQUALS, s);
    ComponentKind(SIGNATURE, s);
  }

  /** Printing a well-formed header and parsing it gives the same fields back, and nothing else
      survives the trip. */
  lemma PrintParse(a: Auth)
    ensures Parse(Print(a)) == Ok(a) <==> WellFormed(a)
  {
    ParsedIsWellFormed(Print(a));
    if WellFormed(a) {
      PrintedParts(a, SPACE + CredentialPart(a), SPACE + SignedPart(a), SPACE + SignaturePart(a));
      CredentialRoundTrip(a);
      SignedRoundTrip(a);
      SignatureRoundTrip(a);
      PartsUpdate(a, SPACE + CredentialPart(a), SPACE + SignedPart(a), SPACE + SignaturePart(a));
    }
  }

  lemma PrintedParts(a: Auth, cred: Str, names: Str, sig: Str)
    requires WellFormed(a)
    requires cred == SPACE + CredentialPart(a) && names == SPACE + SignedPart(a) && sig == SPACE + SignaturePart(a)
    ensures Parse(Print(a)) == ParseParts([cred, names, sig])
  {
    CredentialRoundTrip(a);
    SignedRoundTrip(a);
    SignatureRoundTrip(a);
    SplitJoin([cred, names, sig], ',');
    DropAlgorithm(Join([cred, names, sig], ','));
  }

  lemma DropAlgorithm(rest: Str)
    ensures HasPrefix(ALGORITHM + rest, ALGORITHM) && (ALGORITHM + rest)[|ALGORITHM|..] == rest
  {
  }

  lemma PartsUpdate(a: Auth, cred: Str, names: Str, sig: Str)
    requires Good(cred) && Good(names) && Good(sig) && WellFormed(a)
    requires KindOf(cred).Cred? && Split(KindOf(cred).v, '/') == [a.akid, a.date, a.region, a.service, REQUEST_TYPE]
    requires KindOf(names).Names? && NameList(KindOf(names).v) == a.signed
    requires KindOf(sig).Sig? && CleanName(KindOf(sig).v) == a.signature
    ensures ParseParts([cred, names, sig]) == Ok(a)
  {
    UpdateThree(EMPTY_AUTH, cred, names, sig);
    var a1 := Update(EMPTY_AUTH, cred);
    assert a1 == EMPTY_AUTH.(akid := a.akid, date := a.date, region := a.region, service := a.service);
    assert [] + a.signed == a.signed;
    assert Update(a1, names) == a1.(signed := a.signed);
    assert Update(Update(a1, names), sig) == a;
    assert Complete(a);
  }

  lemma UpdateThree(a: Auth, x: Str, y: Str, z: Str)
    requires Good(x) && Good(y) && Good(z)
    ensures UpdateAll(a, [x, y, z]) == Update(Update(Update(a, x), y), z)
  {
    UpdateAllSnoc(a, [], x);
    UpdateAllSnoc(a, [x], y);
    UpdateAllSnoc(a, [x, y], z);
    assert [] + [x] == [x] && [x] + [y] == [x, y] && [x, y] + [z] == [x, y, z];
  }

  // ---- Order of the components ----

  predicate IsCred(part: Str) { KindOf(part).Cred? }
  predicate IsNames(part: Str) { KindOf(part).Names? }
  predicate IsSig(part: Str) { KindOf(part).Sig? }

  /** Each field of the result depends on the components of its own kind only. */
  lemma {:induction false} Projections(a: Auth, ac: Auth, an: Auth, sg: Auth, parts: seq<Str>)
    requires forall p :: p in parts ==> Good(p)
    requires a.(signed := ac.signed, signature := ac.signature) == ac
    requires a.signed == an.signed && a.signature == sg.signature
    ensures var r := UpdateAll(a, parts);
            && r.(signed := [], signature := []) == UpdateAll(ac, Filter(IsCred, parts)).(signed := [], signature := [])
            && r.signed == UpdateAll(an, Filter(IsNames, parts)).signed
            && r.signature == UpdateAll(sg, Filter(IsSig, parts)).signature
    decreases |parts|
  {
    if parts != [] {
      var p := parts[0];
      Projections(Update(a, p),
                  if IsCred(p) then Update(ac, p) else ac,
                  if IsNames(p) then Update(an, p) else an,
                  if IsSig(p) then Update(sg, p) else sg,
                  parts[1..]);
      var rest := parts[1..];
      assert ([p] + Filter(IsCred, rest))[1..] == Filter(IsCred, rest);
      assert ([p] + Filter(IsNames, rest))[1..] == Filter(IsNames, rest);
      assert ([p] + Filter(IsSig, rest))[1..] == Filter(IsSig, rest);
    }
  }

  /** Components parse the same in any order, as long as those of one kind keep their order. */
  lemma AnyOrder(ps: seq<Str>, qs: seq<Str>)
    requires multiset(ps) == multiset(qs)
    requires Filter(IsCred, ps) == Filter(IsCred, qs)
    requires Filter(IsNames, ps) == Filter(IsNames, qs)
    requires Filter(IsSig, ps) == Filter(IsSig, qs)
    ensures ParseParts(ps) == ParseParts(qs)
  {
    assert forall p :: p in ps <==> p in multiset(ps);
    assert forall p :: p in qs <==> p in multiset(qs);
    if forall p :: p in ps ==> Good(p) {
      Projections(EMPTY_AUTH, EMPTY_AUTH, EMPTY_AUTH, EMPTY_AUTH, ps);
      Projections(EMPTY_AUTH, EMPTY_AUTH, EMPTY_AUTH, EMPTY_AUTH, qs);
    }
  }

  lemma SingletonFilter(p: Str -> bool, xs: seq<Str>, ys: seq<Str>)
    requires multiset(xs) == multiset(ys) && |Filter(p, xs)| <= 1
    ensures Filter(p, xs) == Filter(p, ys)
  {
    FilterMultiset(p, xs, ys);
    var fx, fy := Filter(p, xs), Filter(p, ys);
    assert |multiset(fx)| == |multiset(fy)|;
    if |fx| == 1 {
      assert fy[0] in multiset(fx);
    }
  }

  /** A header with at most one component of each kind parses the same in every order. */
  lemma ComponentsCommute(ps: seq<Str>, qs: seq<Str>)
    requires ps != [] && multiset(ps) == multiset(qs)
    requires forall p :: p in ps ==> ',' !in p
    requires |Filter(IsCred, ps)| <= 1 && |Filter(IsNames, ps)| <= 1 && |Filter(IsSig, ps)| <= 1
    ensures Parse(ALGORITHM + Join(ps, ',')) == Parse(ALGORITHM + Join(qs, ','))
  {
    assert forall p :: p in qs ==> p in multiset(ps);
    assert |multiset(qs)| == |multiset(ps)|;
    SplitJoin(ps, ',');
    SplitJoin(qs, ',');
    assert (ALGORITHM + Join(ps, ','))[|ALGORITHM|..] == Join(ps, ',');
    assert (ALGORITHM + Join(qs, ','))[|ALGORITHM|..] == Join(qs, ',');
    SingletonFilter(IsCred, ps, qs);
    SingletonFilter(IsNames, ps, qs);
    SingletonFilter(IsSig, ps, qs);
    AnyOrder(ps, qs);
  }
}
