/** Minted credentials and the in-process store with its sweeper. */
module Store {
  import opened Seqs
  import opened Strings
  import Authorization

  datatype Credentials = Credentials(
    akid: Str, secret: Str, token: Str, username: Str, issuer: Str, expiresAt: int)

  predicate Expired(c: Credentials, now: int) { now >= c.expiresAt }

  type Records = map<Str, Credentials>

  function Lookup(m: Records, akid: Str): Option<Credentials> {
    if akid in m then Some(m[akid]) else None
  }

  // ---- Minting ----

  const AKID_PREFIX: Str := "OZPX"
  const CROCKFORD: Str := "0123456789ABCDEFGHJKMNPQRSTVWXYZ"

  function CrockfordByte(b: Byte): Byte { CROCKFORD[b as int % 32] }

  /** randCrockford: one symbol per random byte, written into a buffer. */
  method RandCrockford(draw: seq<Byte>) returns (text: Str)
    ensures text == Map(CrockfordByte, draw)
  {
    var out := new Byte[|draw|];
    for i := 0 to |draw|
      invariant forall j :: 0 <= j < i ==> out[j] == CrockfordByte(draw[j])
    {
      out[i] := CROCKFORD[draw[i] as int % |CROCKFORD|];
    }
    text := out[..];
  }

  function MintedAkid(draw: seq<Byte>): Str { AKID_PREFIX + Map(CrockfordByte, draw) }

  lemma CrockfordSymbol(b: Byte)
    ensures IsDigit(CrockfordByte(b)) || 'A' <= CrockfordByte(b) <= 'Z'
  {
  }

  /** Every minted access key can stand in a Credential field and be read back from it. */
  lemma MintedAkidFits(draw: seq<Byte>)
    ensures Authorization.FieldOk(MintedAkid(draw)) && |MintedAkid(draw)| == 4 + |draw|
  {
    hide CrockfordByte;
    forall i | 0 <= i < |draw| ensures CrockfordByte(draw[i]) != '/' && CrockfordByte(draw[i]) != ',' {
      CrockfordSymbol(draw[i]);
    }
  }

  /** Two random bytes give the same symbol exactly when their low five bits agree, and no symbol is
      one of the four letters that are left out. */
  lemma CrockfordMeans(a: Byte, b: Byte)
    ensures CrockfordByte(a) == CrockfordByte(b) <==> a as int % 32 == b as int % 32
    ensures CrockfordByte(a) !in "ILOU"
  {
    var i, j := a as int % 32, b as int % 32;
    CrockfordAt(i);
    CrockfordAt(j);
    assert forall c :: c in "ILOU" <==> c == 'I' || c == 'L' || c == 'O' || c == 'U';
  }

  /** The place of a symbol in the alphabet. */
  function Place(c: Byte): int {
    if c <= '9' then c as int - 48
    else if c <= 'H' then c as int - 55
    else if c <= 'K' then c as int - 56
    else if c <= 'N' then c as int - 57
    else if c <= 'T' then c as int - 58
    else c as int - 59
  }

  lemma CrockfordAt(i: nat)
    requires i < 32
    ensures var c := CROCKFORD[i]; Place(c) == i && c != 'I' && c != 'L' && c != 'O' && c != 'U'
  {
  }

  /** Keys are equal exactly when their draws agree in the low five bits throughout, so each drawn
      byte adds five bits to a key. */
  lemma MintedAkidMeans(d: seq<Byte>, e: seq<Byte>)
    ensures MintedAkid(d) == MintedAkid(e) <==>
            |d| == |e| && forall i :: 0 <= i < |d| ==> d[i] as int % 32 == e[i] as int % 32
    ensures "OZPX" <= MintedAkid(d) && |MintedAkid(d)| == 4 + |d|
  {
    hide CrockfordByte;
    var m, n := MintedAkid(d), MintedAkid(e);
    assert |AKID_PREFIX| == 4 && AKID_PREFIX == "OZPX";
    assert m[4..] == Map(CrockfordByte, d) && n[4..] == Map(CrockfordByte, e);
    forall i | 0 <= i < |d| && i < |e|
      ensures m[4..][i] == n[4..][i] <==> d[i] as int % 32 == e[i] as int % 32
    {
      CrockfordMeans(d[i], e[i]);
    }
    if |d| == |e| && forall i :: 0 <= i < |d| ==> d[i] as int % 32 == e[i] as int % 32 {
      assert m[4..] == n[4..];
    }
  }

  // ---- The memory store ----

  function Swept(m: Records, cutoff: int): Records {
    map k | k in m && m[k].expiresAt >= cutoff :: m[k]
  }

  /** A sweep deletes exactly the records that expired before the cutoff, and changes none. */
  lemma SweptMeans(m: Records, cutoff: int, k: Str)
    ensures k in Swept(m, cutoff) <==> k in m && m[k].expiresAt >= cutoff
    ensures k in Swept(m, cutoff) ==> Swept(m, cutoff)[k] == m[k]
  {
  }

  function Live(m: Records, now: int): set<Str> {
    set k | k in m && !Expired(m[k], now)
  }

  lemma CountStep(seen: set<Str>, live: set<Str>, k: Str)
    requires k !in seen
    ensures |(seen + {k}) * live| == |seen * live| + if k in live then 1 else 0
  {
    assert (seen + {k}) * live == seen * live + if k in live then {k} else {};
  }

  /** Every method holds the mutex, so each is one atomic step. */
  class Memory {
    var creds: Records

    constructor ()
      ensures creds == map[]
    {
      creds := map[];
    }

    method Put(c: Credentials)
      modifies this
      ensures creds == old(creds)[c.akid := c]
    {
      creds := creds[c.akid := c];
    }

    method Get(akid: Str) returns (found: Option<Credentials>)
      ensures found == Lookup(creds, akid)
      ensures found.Some? <==> akid in creds
      ensures found.Some? ==> found.value == creds[akid]
    {
      if akid in creds {
        return Some(creds[akid]);
      }
      return None;
    }

    method Delete(akid: Str)
      modifies this
      ensures creds == old(creds) - {akid}
    {
      creds := creds - {akid};
    }

    method Count(now: int) returns (n: nat)
      ensures n == |set k | k in creds && now < creds[k].expiresAt|
    {
      n := 0;
      var left := creds.Keys;
      ghost var seen: set<Str> := {};
      while left != {}
        invariant left !! seen && left + seen == creds.Keys
        invariant n == |seen * Live(creds, now)|
      {
        var k :| k in left;
        CountStep(seen, Live(creds, now), k);
        if !Expired(creds[k], now) {
          n := n + 1;
        }
        left, seen := left - {k}, seen + {k};
      }
      assert seen * Live(creds, now) == Live(creds, now) == set k | k in creds && now < creds[k].expiresAt;
    }

    /** sweep, once its cutoff has been read: delete while ranging over the map. */
    method Sweep(cutoff: int)
      modifies this
      ensures creds == Swept(old(creds), cutoff)
      ensures forall k :: k in creds <==> k in old(creds) && old(creds)[k].expiresAt >= cutoff
      ensures forall k :: k in creds ==> creds[k] == old(creds)[k]
    {
      var left := creds.Keys;
      while left != {}
        invariant left <= old(creds).Keys && creds.Keys <= old(creds).Keys
        invariant forall k :: k in creds ==> creds[k] == old(creds)[k]
        invariant forall k :: k in old(creds) ==>
                    (k in creds <==> k in left || old(creds)[k].expiresAt >= cutoff)
      {
        var k :| k in left;
        if creds[k].expiresAt < cutoff {
          creds := creds - {k};
        }
        left := left - {k};
      }
    }
  }

  // ---- Decisions ----

  /** What the data path answers for a fetched record; `proven` stands for the session-token and
      signature checks. */
  datatype Decision = Accept(c: Credentials) | UnknownAkid | ExpiredToken(c: Credentials, at: int) | Refused

  function Decide(found: Option<Credentials>, now: int, proven: bool): Decision {
    if found.None? then UnknownAkid
    else if Expired(found.value, now) then ExpiredToken(found.value, now)
    else if !proven then Refused
    else Accept(found.value)
  }

  /** A request is accepted exactly with a record that is found, unexpired and proven; otherwise the
      answer says which of these fails first. */
  lemma DecideMeans(found: Option<Credentials>, now: int, proven: bool, c: Credentials)
    ensures Decide(found, now, proven) == Accept(c) <==> found == Some(c) && now < c.expiresAt && proven
    ensures Decide(found, now, proven).UnknownAkid? <==> found == None
    ensures Decide(found, now, proven) == ExpiredToken(c, now) <==> found == Some(c) && c.expiresAt <= now
    ensures found == Some(c) && now < c.expiresAt && !proven ==> Decide(found, now, proven) == Refused
  {
  }
}
