/** The token exchange form: what the STS handler checks before it validates the token. */
module Exchange {
  import opened Seqs
  import opened Strings

  datatype Form = Form(
    isPost: bool, parsed: bool, action: Str, token: Str, roleArn: Str, sessionName: Str, duration: Str)

  /** The result code reported for one exchange; Granted is the empty code. */
  datatype Code =
    | Granted | ValidationError | AccessDenied | ExpiredIdentity | ProviderError | InvalidIdentity | ServiceFailure

  datatype TokenError = TokenExpired | IssuerUnavailable | UnknownIssuer | BadUsername | TokenInvalid

  function MapTokenError(e: TokenError): Code {
    match e
    case TokenExpired => ExpiredIdentity
    case IssuerUnavailable => ProviderError
    case _ => InvalidIdentity
  }

  const ACTION: Str := "AssumeRoleWithWebIdentity"
  const DEFAULT_SESSION: Str := "web-identity"

  /** `^[\w+=,.@-]{2,64}$`. */
  predicate SessionNameOk(s: Str) {
    && 2 <= |s| <= 64
    && forall c :: c in s ==>
         || 'A' <= c <= 'Z' || 'a' <= c <= 'z' || IsDigit(c) || c == '_'
         || c == '+' || c == '=' || c == ',' || c == '.' || c == '@' || c == '-'
  }

  datatype Checked = Refuse(code: Code) | Proceed(token: Str, requested: int)

  /** The checks, in the order the handler makes them. `requested` is 0 when no duration is given. */
  function CheckForm(f: Form, allowlist: seq<Str>): Checked {
    var session := if f.sessionName == [] then DEFAULT_SESSION else f.sessionName;
    var requested := if f.duration == [] then Some(0) else Atoi(f.duration);
    if !f.isPost || !f.parsed || f.action != ACTION || f.token == [] || f.roleArn == [] then Refuse(ValidationError)
    else if allowlist != [] && f.roleArn !in allowlist then Refuse(AccessDenied)
    else if !SessionNameOk(session) then Refuse(ValidationError)
    else if requested.None? || (f.duration != [] && requested.value <= 0) then Refuse(ValidationError)
    else Proceed(f.token, requested.value)
  }

  predicate BasicsOk(f: Form) {
    f.isPost && f.parsed && f.action == "AssumeRoleWithWebIdentity" && f.token != [] && f.roleArn != []
  }

  predicate RoleAllowed(f: Form, allowlist: seq<Str>) { allowlist == [] || f.roleArn in allowlist }

  predicate DetailsOk(f: Form) {
    && (f.sessionName == [] || SessionNameOk(f.sessionName))
    && (f.duration == [] || (Atoi(f.duration).Some? && Atoi(f.duration).value > 0))
  }

  /** Two to 64 letters, digits and underscores, or one of the seven other signs. */
  lemma SessionNameMeans(s: Str)
    ensures SessionNameOk(s) <==>
            2 <= |s| <= 64 && forall i :: 0 <= i < |s| ==>
              'A' <= s[i] <= 'Z' || 'a' <= s[i] <= 'z' || '0' <= s[i] <= '9' || s[i] in "_+=,.@-"
  {
    assert forall i :: 0 <= i < |s| ==> s[i] in s;
    assert forall c :: c in "_+=,.@-" <==>
             c == '_' || c == '+' || c == '=' || c == ',' || c == '.' || c == '@' || c == '-';
  }

  lemma DefaultSessionOk()
    ensures SessionNameOk(DEFAULT_SESSION)
  {
    assert |DEFAULT_SESSION| == 12;
  }

  /** Exactly which forms proceed, which are refused for their role, and with what the exchange
      goes on: the token, and a duration that is absent (0) or a positive int64. */
  lemma FormDecision(f: Form, allowlist: seq<Str>)
    ensures CheckForm(f, allowlist).Proceed? <==> BasicsOk(f) && RoleAllowed(f, allowlist) && DetailsOk(f)
    ensures CheckForm(f, allowlist) == Refuse(AccessDenied) <==> BasicsOk(f) && !RoleAllowed(f, allowlist)
    ensures var c := CheckForm(f, allowlist); c.Refuse? ==> c.code == ValidationError || c.code == AccessDenied
    ensures var c := CheckForm(f, allowlist);
            c.Proceed? ==>
              c.token == f.token && 0 <= c.requested <= MAX_INT64 && (c.requested == 0 <==> f.duration == [])
    ensures var c := CheckForm(f, allowlist);
            c.Proceed? && f.duration != [] ==> Atoi(f.duration) == Some(c.requested)
  {
    hide SessionNameOk;
    DefaultSessionOk();
  }

  /** A duration printed in the form is the duration requested, and none other proceeds. */
  lemma RequestedIsPrinted(f: Form, allowlist: seq<Str>, n: nat)
    requires f.duration == FormatNat(n)
    ensures var c := CheckForm(f, allowlist);
            && (c.Proceed? ==> c.requested == n && 0 < n <= MAX_INT64)
            && (BasicsOk(f) && RoleAllowed(f, allowlist) && DetailsOk(f) ==> c == Proceed(f.token, n))
  {
    hide BasicsOk, RoleAllowed, DetailsOk, Atoi, CheckForm, FormatNat;
    FormDecision(f, allowlist);
    if n <= MAX_INT64 {
      AtoiFormat(n);
    } else {
      AtoiOverflow(n);
    }
  }

  /** Which code a token error is answered with. */
  lemma TokenErrorCodes(e: TokenError)
    ensures MapTokenError(e) == ExpiredIdentity <==> e == TokenExpired
    ensures MapTokenError(e) == ProviderError <==> e == IssuerUnavailable
    ensures e != TokenExpired && e != IssuerUnavailable ==> MapTokenError(e) == InvalidIdentity
  {
  }
}
