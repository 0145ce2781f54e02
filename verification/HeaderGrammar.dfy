/** The grammar of the Authorization header, spelled out: what is printed, what is accepted, and what
    is read of it. */
module HeaderGrammar {
  import opened Seqs
  import opened Strings
  import opened Authorization

  // ---- What is printed ----

  /** The printed header, as on the wire. */
  lemma PrintIs(a: Auth)
    ensures Print(a) ==
            "AWS4-HMAC-SHA256 Credential=" + (a.akid + "/" + a.date + "/" + a.region + "/" + a.service)
            + "/aws4_request, SignedHeaders=" + Join(a.signed, ';') + ", Signature=" + a.signature
  {
    hide Print, Join, ScopeText;
    var scope, names, sig := ScopeText(a), Join(a.signed, ';'), a.signature;
    ScopeIs(a);
    ThreeParts(" Credential=" + scope, " SignedHeaders=" + names, " Signature=" + sig);
    PrintedParts(a, scope, names, sig);
    Glue(a.akid + "/" + a.date + "/" + a.region + "/" + a.service, names, sig);
  }

  lemma PrintedParts(a: Auth, scope: Str, names: Str, sig: Str)
    requires scope == ScopeText(a) && names == Join(a.signed, ';') && sig == a.signature
    ensures Print(a) ==
            "AWS4-HMAC-SHA256" + Join([" Credential=" + scope, " SignedHeaders=" + names, " Signature=" + sig], ',')
  {
    hide Join, ScopeText;
    assert SPACE + CredentialPart(a) == " Credential=" + scope;
    assert SPACE + SignedPart(a) == " SignedHeaders=" + names;
    assert SPACE + SignaturePart(a) == " Signature=" + sig;
  }

  lemma Glue(scope: Str, names: Str, sig: Str)
    ensures "AWS4-HMAC-SHA256" + (" Credential=" + (scope + "/aws4_request") + "," + (" SignedHeaders=" + names) + ","
                                  + (" Signature=" + sig))
         == "AWS4-HMAC-SHA256 Credential=" + scope + "/aws4_request, SignedHeaders=" + names + ", Signature=" + sig
  {
    assert "AWS4-HMAC-SHA256" + " Credential=" == "AWS4-HMAC-SHA256 Credential=";
    assert "/aws4_request" + "," + " SignedHeaders=" == "/aws4_request, SignedHeaders=";
    assert "," + " Signature=" == ", Signature=";
  }

  lemma ThreeParts(a: Str, b: Str, c: Str)
    ensures Join([a, b, c], ',') == a + "," + b + "," + c
  {
    JoinAppend([a, b], [c], ',');
    JoinAppend([a], [b], ',');
    assert [a, b] + [c] == [a, b, c] && [a] + [b] == [a, b];
  }

  lemma ScopeIs(a: Auth)
    ensures ScopeText(a) == (a.akid + "/" + a.date + "/" + a.region + "/" + a.service) + "/aws4_request"
  {
    FiveParts(a.akid, a.date, a.region, a.service, "aws4_request");
    assert "/" + "aws4_request" == "/aws4_request";
    assert (a.akid + "/" + a.date + "/" + a.region + "/" + a.service) + "/" + "aws4_request"
        == (a.akid + "/" + a.date + "/" + a.region + "/" + a.service) + ("/" + "aws4_request");
  }

  lemma FiveParts(a: Str, b: Str, c: Str, d: Str, e: Str)
    ensures Join([a, b, c, d, e], '/') == a + "/" + b + "/" + c + "/" + d + "/" + e
  {
    JoinAppend([a, b, c, d], [e], '/');
    JoinAppend([a, b, c], [d], '/');
    JoinAppend([a, b], [c], '/');
    JoinAppend([a], [b], '/');
    assert [a, b, c, d] + [e] == [a, b, c, d, e] && [a, b, c] + [d] == [a, b, c, d];
    assert [a, b] + [c] == [a, b, c] && [a] + [b] == [a, b];
  }

  // ---- One component ----

  /** `<AKID>/<date>/<region>/<service>/aws4_request`. */
  ghost predicate IsScope(v: Str, akid: Str, date: Str, region: Str, service: Str) {
    && v == akid + "/" + date + "/" + region + "/" + service + "/" + "aws4_request"
    && '/' !in akid && '/' !in date && '/' !in region && '/' !in service
  }

  lemma ScopeSplits(v: Str, akid: Str, date: Str, region: Str, service: Str)
    requires IsScope(v, akid, date, region, service)
    ensures Split(v, '/') == [akid, date, region, service, "aws4_request"]
  {
    hide Split;
    FiveParts(akid, date, region, service, "aws4_request");
    assert '/' !in "aws4_request";
    SplitJoin([akid, date, region, service, "aws4_request"], '/');
  }

  /** A credential is accepted exactly in that form, with a key and a date of eight bytes, and read
      field by field. */
  lemma CredentialMeans(v: Str)
    ensures CredentialOk(v) <==>
            exists akid, date, region, service ::
              IsScope(v, akid, date, region, service) && akid != [] && |date| == 8
  {
    hide Split;
    if CredentialOk(v) {
      var s := Split(v, '/');
      JoinSplit(v, '/');
      assert s == [s[0], s[1], s[2], s[3], s[4]];
      FiveParts(s[0], s[1], s[2], s[3], s[4]);
      assert IsScope(v, s[0], s[1], s[2], s[3]);
    }
    if akid, date, region, service :| IsScope(v, akid, date, region, service) && akid != [] && |date| == 8 {
      ScopeSplits(v, akid, date, region, service);
    }
  }

  lemma ScopeReads(a: Auth, v: Str, akid: Str, date: Str, region: Str, service: Str)
    requires IsScope(v, akid, date, region, service)
    ensures ScopeShape(v) && WithScope(a, v) == a.(akid := akid, date := date, region := region, service := service)
  {
    hide Split;
    ScopeSplits(v, akid, date, region, service);
  }

  /** A signature is 64 small hexadecimal digits, after trimming and lower-casing. */
  lemma SignatureMeans(v: Str)
    ensures SignatureOk(v) <==>
            var s := ToLower(TrimSpace(v));
            |s| == 64 && forall i :: 0 <= i < 64 ==> '0' <= s[i] <= '9' || 'a' <= s[i] <= 'f'
  {
    hide ToLower, TrimSpace;
    var s := ToLower(TrimSpace(v));
    assert forall i :: 0 <= i < |s| ==> s[i] in s;
  }

  /** The names of a list, each trimmed and lower-cased; none may be empty. */
  lemma NamesMean(v: Str)
    ensures |NameList(v)| == |Split(v, ';')|
    ensures forall i :: 0 <= i < |NameList(v)| ==> NameList(v)[i] == ToLower(TrimSpace(Split(v, ';')[i]))
    ensures NamesOk(v) <==> forall i :: 0 <= i < |NameList(v)| ==> NameList(v)[i] != []
  {
    hide ToLower, TrimSpace, Split;
  }

  /** A failing list leaves the names before the first empty one. */
  lemma {:induction false} BeforeEmptyMeans(names: seq<Str>, rest: seq<Str>)
    requires [] !in names
    ensures BeforeEmpty(names + [[]] + rest) == names
  {
    if names == [] {
      assert (names + [[]] + rest)[0] == [];
    } else {
      assert (names + [[]] + rest)[1..] == names[1..] + [[]] + rest;
      BeforeEmptyMeans(names[1..], rest);
    }
  }

  lemma KeyOf(p: Str, key: Str, v: Str)
    requires '=' !in key
    ensures p == key + "=" + v <==> Cut(p, '=') == Pieces(key, v, true)
  {
    CutAt(key, '=', v);
  }

  /** What a part of the header is, by the text of its component. */
  lemma KindMeans(part: Str, v: Str)
    ensures KindOf(part) == Blank <==> TrimSpace(part) == []
    ensures KindOf(part) == Cred(v) <==> TrimSpace(part) == "Credential" + "=" + v
    ensures KindOf(part) == Names(v) <==> TrimSpace(part) == "SignedHeaders" + "=" + v
    ensures KindOf(part) == Sig(v) <==> TrimSpace(part) == "Signature" + "=" + v
  {
    hide TrimSpace, Cut;
    var p := TrimSpace(part);
    ComponentKeys();
    KeyOf(p, CREDENTIAL, v);
    KeyOf(p, SIGNED_HEADERS, v);
    KeyOf(p, SIGNATURE, v);
  }

  /** A part is accepted if and only if it is blank or one of the three components, with a value that
      is accepted. */
  lemma GoodMeans(part: Str)
    ensures Good(part) <==>
            || TrimSpace(part) == []
            || (exists v :: TrimSpace(part) == "Credential" + "=" + v && CredentialOk(v))
            || (exists v :: TrimSpace(part) == "SignedHeaders" + "=" + v && NamesOk(v))
            || (exists v :: TrimSpace(part) == "Signature" + "=" + v && SignatureOk(v))
  {
    hide TrimSpace, KindOf, CredentialOk, NamesOk, SignatureOk;
    forall v
      ensures KindOf(part) == Cred(v) <==> TrimSpace(part) == "Credential" + "=" + v
      ensures KindOf(part) == Names(v) <==> TrimSpace(part) == "SignedHeaders" + "=" + v
      ensures KindOf(part) == Sig(v) <==> TrimSpace(part) == "Signature" + "=" + v
      ensures KindOf(part) == Blank <==> TrimSpace(part) == []
    {
      KindMeans(part, v);
    }
    KindMeans(part, []);
  }

  // ---- The whole header ----

  lemma {:induction false} CompleteMeans(a: Auth, parts: seq<Str>)
    requires forall p :: p in parts ==> Good(p)
    ensures var r := UpdateAll(a, parts);
            && (r.akid != [] <==> a.akid != [] || exists p :: p in parts && IsCred(p))
            && (r.signed != [] <==> a.signed != [] || exists p :: p in parts && IsNames(p))
            && (r.signature != [] <==> a.signature != [] || exists p :: p in parts && IsSig(p))
    decreases |parts|
  {
    hide KindOf, Split, ToLower, TrimSpace;
    if parts != [] {
      var p, rest := parts[0], parts[1..];
      CompleteMeans(Update(a, p), rest);
      assert parts == [p] + rest;
    }
  }

  /** A header is accepted if and only if it starts with the algorithm, all its parts are accepted,
      and each of the three components occurs. */
  lemma ParseExactlyWhen(header: Str)
    ensures Parse(header).Ok? <==>
            && "AWS4-HMAC-SHA256" <= header
            && var parts := Split(header[16..], ',');
               && (forall p :: p in parts ==> Good(p))
               && (exists p :: p in parts && IsCred(p)) && (exists p :: p in parts && IsNames(p))
               && (exists p :: p in parts && IsSig(p))
    ensures Parse(header).Ok? || Parse(header) == Err(Malformed)
  {
    hide Good, UpdateAll, IsCred, IsNames, IsSig, Split;
    assert |ALGORITHM| == 16;
    if ALGORITHM <= header {
      var parts := Split(header[16..], ',');
      if forall p :: p in parts ==> Good(p) {
        CompleteMeans(EMPTY_AUTH, parts);
      }
    }
  }

  /** All signed names of the parts, in order. */
  ghost function AllNames(parts: seq<Str>): seq<Str> {
    if parts == [] then []
    else AllNames(parts[..|parts| - 1]) +
         if IsNames(parts[|parts| - 1]) then NameList(KindOf(parts[|parts| - 1]).v) else []
  }

  lemma {:induction false} NamesAccumulate(a: Auth, parts: seq<Str>)
    requires forall p :: p in parts ==> Good(p)
    ensures UpdateAll(a, parts).signed == a.signed + AllNames(parts)
    decreases |parts|
  {
    hide Good, KindOf, NameList, Update;
    if parts != [] {
      var n := |parts| - 1;
      assert parts == parts[..n] + [parts[n]];
      NamesAccumulate(a, parts[..n]);
      UpdateAllSnoc(a, parts[..n], parts[n]);
      NamesOfOne(UpdateAll(a, parts[..n]), parts[n]);
    }
  }

  lemma NamesOfOne(a: Auth, part: Str)
    requires Good(part)
    ensures Update(a, part).signed == a.signed + if IsNames(part) then NameList(KindOf(part).v) else []
  {
    hide NameList, Split, TrimSpace, ToLower;
  }

  /** Of several credentials or signatures the last one counts; signed lists add up. */
  lemma {:induction false} LastWins(a: Auth, parts: seq<Str>, i: nat)
    requires (forall p :: p in parts ==> Good(p)) && i < |parts|
    ensures IsCred(parts[i]) && (forall j :: i < j < |parts| ==> !IsCred(parts[j])) ==>
              && ScopeShape(KindOf(parts[i]).v)
              && var r, c := UpdateAll(a, parts), WithScope(a, KindOf(parts[i]).v);
                 r.akid == c.akid && r.date == c.date && r.region == c.region && r.service == c.service
    ensures IsSig(parts[i]) && (forall j :: i < j < |parts| ==> !IsSig(parts[j])) ==>
              UpdateAll(a, parts).signature == CleanName(KindOf(parts[i]).v)
    decreases |parts|
  {
    hide KindOf, CleanName, NameList, Split;
    var n := |parts| - 1;
    assert parts == parts[..n] + [parts[n]];
    UpdateAllSnoc(a, parts[..n], parts[n]);
    if i < n {
      LastWins(a, parts[..n], i);
    }
  }
}
