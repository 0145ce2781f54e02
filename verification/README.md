# A verified model of ozone-oidc-proxy

ozone-oidc-proxy stands in front of an S3 gateway. It exchanges OIDC tokens for temporary
credentials, verifies AWS Signature Version 4 on the wire, and rewrites each request so that its
`Credential=` field names the authenticated user. This project models that logic in Dafny and
proves what it promises. `dafny verify dfyconfig.toml` checks everything.

Strings are byte sequences. SHA-256 and HMAC are arbitrary total functions, and the `X-Amz-Date`
format is an arbitrary pair that round-trips on whole seconds (`Primitives.Env`, which is shown to
be inhabited); every theorem holds for each choice of them. Times are integer nanoseconds, with the
saturation and wrap-around of Go's int64 durations written out.

## Layout

| file | part of the proxy |
|---|---|
| Seqs, Strings, UriCoding, Primitives, Http | sorting, Go's `strings` and `net/url` functions, time, requests |
| CanonicalQuery, CanonicalRequest | the canonical form a signature is computed over |
| Authorization, HeaderGrammar, SigV4, Presign, Binding | header parser and printer, their grammar, signer, both verifiers, what a signature commits to |
| QueryReading, PresignUrl | what is read of a query against what is signed of it, presigned URLs as clients make them |
| StripQuery, Forward | query stripping and identity injection |
| Lifetime, Exchange, Store, Sweep, Valkey, Replica | STS lifetime and form, the stores, sweeping, TTLs, client-side caches |
| Jwks, DeviceFlow | the refresh gate and the polling loop |
| Proxy, ProxyTrace, ProxyInvariant | the whole proxy as interleaved threads, its trace, what every thread has behind it |
| ProxySafety, ProxyCounters, ProxyProgress | what is never let through, what is counted, what is let through |

Code that works by loops and updates is modelled by methods and classes that are proved against
specification functions; the theorems are about those functions. The request handlers, token
exchanges, revocations and sweeps are threads of a state machine (`Proxy.Next`) whose steps
interleave freely: each store access is one step because it holds the store's mutex, and each clock
reading is a step of its own. A run is any sequence of steps. Each step is a move of one thread, and
what it did is logged as an event with the thread's id and the clock of that moment;
`ProxyTrace.EventsAreSteps` proves that every event is one step of the run, on the clock and the
store of that moment and on the grounds of that step's input (the verdict of the validator, an error
of the store, the random draw), so that theorems about the trace are theorems about the run.

## Main results

- Over every interleaved run: strict-mode safety of what is sent, from the exchange's own token to the
  outgoing header (`ProxySafety.StrictSafety`), small-step revocation on the request's own Get
  (`RevokedStaysOut`), lifetime by the run's clock (`LifetimeBounded`), attribution in every lane
  (`SentIsAttributed`), expired URLs staying out (`ExpiredUrlStaysOut`), no fallback after a
  verification (`ResignFallbackOnlyOnBearer`), refusals only for their cause (`RefusedForCause`).
- Counters are conserved in total (`ProxyCounters.CountersConserved`) and request by request, exchange
  by exchange (`EveryThreadSettled`).
- The converse of safety, whatever other threads do between the steps, on all three lanes: a request
  signed with a credential, a URL presigned with one, and a request with an accepted token are
  forwarded as their user (`ProxyProgress.SignedRequestIsForwarded`, `SignedUrlIsForwarded`,
  `BearerRequestIsForwarded`), from the token to the upstream (`ExchangedUserIsServed`); sweeps never
  take an unexpired record (`RecordStays`).
- The formats are pinned to the standard, not only to themselves: the canonical request line by line
  (`CanonicalRequest.BuildIs`, `PathIsWirePath`, `CanonicalQuery.CanonicalAscends`), the encoding byte
  by byte (`UriCoding.EncodeMeans`, `UnescapeMeans`), the key derivation and the string to sign
  (`SigV4.SignatureIs`), the header's text and grammar (`HeaderGrammar.PrintIs`, `ParseExactlyWhen`).
- The canonical query is a complete invariant of the multiset of decoded pairs
  (`CanonicalQuery.CanonicalSoundAndComplete`), the canonical request determines every signed field
  (`CanonicalRequest.Unambiguous`), and equal signatures mean equal signed requests or an explicit
  hash collision (`Binding.SignatureBinds`, `SameSignatureSameRequest`).
- Sign, parse and verify compose, for headers and for URLs (`SigV4.SignThenVerify`,
  `PresignUrl.PresignThenVerify`), acceptance is characterised exactly (`SigV4.AcceptedExactlyWhen`,
  `Presign.AcceptedUrlExactlyWhen`), and printing and parsing are inverse exactly on well-formed
  headers (`Authorization.PrintParse`).
- What was verified is what is forwarded, query and headers (`StripQuery.StripKeepsPairs`,
  `ForwardedQueryIsVerifiedQuery`, `Forward.HeadersArrive`, `SignedHeadersArrive`).
- The swept store, the TTL store and the cached replicas refine the plain map
  (`Sweep.SweepIsInvisible`, `Valkey.TtlStoreRefinesMap`, `Replica.GoneAfterCacheTtl`).

Four promises do not hold as stated, and the model follows the code and gives the exact condition:

- internal/sts/sts.go:135 calls the lifetime the minimum of three terms; a duration above
  9223372036 seconds wraps. `Lifetime.WrapRefusesLiveToken` shows it,
  `Lifetime.PromiseKeptExactlyWhen` says exactly when the promise is kept, and
  `Lifetime.MintedLifetimeBounded` what holds regardless.
- internal/forward/forward.go:78-90 rewrites a header that signs only the session token into one
  that no longer parses. `Forward.RewriteIsFieldUpdate` gives the exact condition and
  `Forward.OnlyTokenSigned` the case.
- internal/sigv4/presign.go:65-98 reads the first form-decoded value of a parameter, while the
  signature covers the sorted path-decoded pairs. A URL signed with two lifetimes is accepted with
  either, by swapping them (`PresignUrl.OneSignatureTwoLifetimes`).
  `QueryReading.ReadingFixedExactlyWhen` gives the exact condition under which what is read is what
  was signed (one value at most, without `+` and `;`), `PresignUrl.UrlFixedExactlyWhen` applies it to
  access key, lifetime and token, and `PresignUrl.SignatureFixesUrl` concludes that one signature then
  fixes the whole parsed URL.
- internal/store/valkey.go:103-114 truncates the record's life to milliseconds. Records outlive
  their credentials exactly when the retention is at least 999999 ns (`Valkey.RecordOutlives`,
  `Valkey.ShorterRetentionLoses`).

The comment at internal/sigv4/sign.go:48-49 lists three signed headers; the code signs host and
every x-amz-* header, and the model follows the code.

## Model

| member | source | states |
|---|---|---|
| UriCoding.UnescapeEncode | internal/sigv4/sigv4.go:294-311 | both percent-decoders undo the SigV4 encoder on every byte string |
| UriCoding.EncodeUri | internal/sigv4/sigv4.go:296-311 | the encoder's loop computes the encoding, for either treatment of "/" |
| UriCoding.UnescapersAgree | internal/forward/forward.go:117-122 | form and path decoding accept the same strings and agree on every name without "+" or space |
| UriCoding.EncodeMeans | internal/sigv4/sigv4.go:294-311 | letters, digits and the four other unreserved bytes stand for themselves, every other byte is a percent sign and two upper-case digits |
| UriCoding.UnescapeMeans | internal/sigv4/sigv4.go:265-275 | escapes in digits of either case are the byte they name, any other byte is itself, and a plus is a space in forms only |
| UriCoding.UnescapeRefuses | internal/sigv4/sigv4.go:268-275 | a percent sign without two digits makes the text malformed |
| Strings.TrimSpaceDrops | internal/sigv4/sigv4.go:69 | trimming takes white space off both ends and nothing else |
| Strings.LeadingSpaceMeans | internal/sigv4/sigv4.go:332-336 | white space is exactly the UTF-8 of Unicode's space code points |
| Strings.AtoiFormat | internal/sigv4/presign.go:86-97 | a printed number is read back |
| CanonicalQuery.EncodeParts | internal/sigv4/sigv4.go:260-280 | the first loop fails exactly on a part with a malformed escape, else yields the encoded kept pairs |
| CanonicalQuery.BuildCanonicalQuery | internal/sigv4/sigv4.go:255-292 | the source's function computes the canonical query the lemmas below are about |
| CanonicalQuery.CanonicalSoundAndComplete | internal/sigv4/sigv4.go:252-292 | two decodable queries have equal canonical forms if and only if their multisets of decoded pairs, the skipped key aside, are equal |
| CanonicalQuery.CanonicalReorder | internal/sigv4/sigv4.go:281-286 | reordering the parts, or adding empty ones, changes nothing, errors included |
| CanonicalQuery.CanonicalIdempotent | internal/sigv4/sigv4.go:252-292 | canonicalising a canonical query returns it |
| CanonicalQuery.RenderedPairs | internal/sigv4/sigv4.go:279-291 | a canonical query decodes to a permutation of the pairs it was made from |
| CanonicalQuery.CanonicalOneLine | internal/sigv4/sigv4.go:287-291 | a canonical query holds no newline |
| CanonicalQuery.CanonicalAscends | internal/sigv4/sigv4.go:281-291 | the parts of a canonical query ascend byte by byte, by encoded key and then by encoded value |
| CanonicalQuery.CanonicalOfOne | internal/sigv4/sigv4.go:255-292 | one pair is printed as its encoded key, an equals sign and its encoded value, and left out when its key is skipped |
| CanonicalRequest.CanonicalHeaderValue | internal/sigv4/sigv4.go:315-337 | the loop computes the canonical value of a signed header |
| CanonicalRequest.NormalizeKeepsWords | internal/sigv4/sigv4.go:332-336 | trimming and collapsing keeps exactly the words of a value and is idempotent |
| CanonicalRequest.NormalizeMeans | internal/sigv4/sigv4.go:332-336 | normalising identifies exactly the values with the same words and prints them with single spaces |
| CanonicalRequest.HeaderValueMeans | internal/sigv4/sigv4.go:315-337 | what host, content-length and any other signed name stand for, values joined with commas in order |
| CanonicalRequest.PathIsWirePath | internal/sigv4/sigv4.go:226-250 | the canonical URI of an origin-form request is its path bytes before the question mark, a slash if there are none |
| CanonicalRequest.PathOfOtherForms | internal/sigv4/sigv4.go:228-243 | an absolute form that parses gives its escaped path, and a request without request line its own |
| CanonicalRequest.BuildIs | internal/sigv4/sigv4.go:204-224 | the canonical request, line by line |
| CanonicalRequest.BuildCanonical | internal/sigv4/sigv4.go:204-224 | the source's function computes the canonical request, or fails exactly with the query |
| CanonicalRequest.BuildCongruent | internal/sigv4/sigv4.go:204-224 | requests that agree on the signed fields have the same canonical request |
| CanonicalRequest.Unambiguous | internal/sigv4/sigv4.go:204-224 | equal canonical requests agree on verb, URI, query pairs, signed list, every header value and payload hash |
| Authorization.Fields.SetCredential | internal/sigv4/sigv4.go:100-110 | accepts exactly a five-part scope with a key and an eight-byte date; what it leaves in the fields on success and failure |
| Authorization.Fields.SetSignedHeaders | internal/sigv4/sigv4.go:112-121 | appends the cleaned names, stopping at the first empty one |
| Authorization.Fields.SetSignature | internal/sigv4/sigv4.go:123-133 | stores the cleaned signature exactly when it is 64 hex characters |
| Authorization.ParseAuthorization | internal/sigv4/sigv4.go:62-96 | the one-pass parser computes the specification parser |
| Authorization.ParsedIsWellFormed | internal/sigv4/sigv4.go:62-133 | whatever parses has a key without "/" or ",", clean signed names and a lower-case hex signature |
| Authorization.PrintParse | internal/sigv4/sigv4.go:60-96 | printing then parsing is the identity exactly on well-formed headers |
| Authorization.AnyOrder | internal/sigv4/sigv4.go:60-91 | components parse the same in any order in which those of one kind keep theirs |
| Authorization.ComponentsCommute | internal/sigv4/sigv4.go:60-91 | with at most one component of each kind every order parses the same |
| HeaderGrammar.PrintIs | internal/sigv4/sign.go:81-84 | the printed header, byte for byte |
| HeaderGrammar.ParseExactlyWhen | internal/sigv4/sigv4.go:62-96 | a header is accepted if and only if it starts with the algorithm, all its parts are accepted and each component occurs |
| HeaderGrammar.GoodMeans | internal/sigv4/sigv4.go:68-91 | a part is accepted if and only if it is blank or one of the three components with an accepted value |
| HeaderGrammar.CredentialMeans | internal/sigv4/sigv4.go:98-110 | a credential is accepted exactly as key, eight-byte date, region, service and aws4_request between slashes |
| HeaderGrammar.SignatureMeans | internal/sigv4/sigv4.go:123-133 | a signature is exactly 64 hexadecimal digits, trimmed and lower-cased |
| HeaderGrammar.LastWins | internal/sigv4/sigv4.go:68-91 | of several credentials or signatures the last one counts |
| HeaderGrammar.NamesAccumulate | internal/sigv4/sigv4.go:112-121 | signed lists add up, in order |
| SigV4.CollectSignedNames | internal/sigv4/sign.go:22-31 | ranging over the header map in any order yields the same sorted list |
| SigV4.OrderIsInvisible | internal/sigv4/sign.go:22-31 | every iteration order gives the same signed list |
| SigV4.SignedNamesAre | internal/sigv4/sign.go:16-31 | a name is signed if and only if it is host or an x-amz-* header of the request |
| SigV4.SignedNamesMean | internal/sigv4/sign.go:16-31 | the signed names are "host" and the lower-case names that start with "x-amz-" |
| SigV4.SignedNamesAscend | internal/sigv4/sign.go:22-31 | the signed names ascend byte by byte |
| SigV4.SignatureIs | internal/sigv4/sigv4.go:175-185 | the four-step key and the four-line string to sign, spelled out |
| SigV4.PayloadMeans | internal/sigv4/sigv4.go:193-199 | the declared payload hash, or the hash of no bytes |
| SigV4.SignCoversAmzHeaders | internal/sigv4/sign.go:16-31 | every x-amz-* header is signed with all its values |
| SigV4.PrepareRequest | internal/sigv4/sign.go:53-63 | host, date and payload hash are set before signing |
| SigV4.SignRequest | internal/sigv4/sign.go:52-86 | the method leaves the request and result that the specification gives, partial update on failure included |
| SigV4.SignFailsOnlyOnQuery | internal/sigv4/sign.go:65-69 | signing fails exactly on an undecodable query |
| SigV4.SignThenParse | internal/sigv4/sign.go:70-84 | the signed header parses back to exactly the fields it was signed with |
| SigV4.SignThenVerify | internal/sigv4/sigv4.go:147-189 | a signed request is accepted under the same secret and scope by any clock within the skew of the signed second |
| SigV4.AcceptedExactlyWhen | internal/sigv4/sigv4.go:147-189 | a request is accepted if and only if its date is fresh and its header is, field by field, the one an honest signer holding the secret prints for it |
| SigV4.RefusalMeans | internal/sigv4/sigv4.go:147-189 | what each verification error says about the request |
| Binding.SignatureBinds | internal/sigv4/sigv4.go:175-187 | equal signatures come from the same secret, instant, scope and canonical request, or the two computations collide at one of six named places |
| Binding.SameSignatureSameRequest | internal/sigv4/sigv4.go:147-224 | two accepted requests with one signature agree on everything signed, path bytes and payload hash included, or collide |
| Binding.SameSignatureSameUrl | internal/sigv4/presign.go:114-153 | two accepted URLs with one signature agree on secret, scope, date, verb, path bytes, every query pair but the signature, signed list and header values, or collide |
| Presign.ParsePresignedQuery | internal/sigv4/presign.go:64-98 | the field-by-field parser computes the specification parser |
| Presign.ParsePresigned | internal/sigv4/presign.go:82-97 | a parsed URL has a sixteen-byte date and a life of one second to one week |
| Presign.AcceptedUrlExactlyWhen | internal/sigv4/presign.go:114-153 | a URL is accepted if and only if the clock is in its window and its fields, signature included, are those an honest signer holding the secret puts into it |
| Presign.UrlRefusalMeans | internal/sigv4/presign.go:114-153 | what each verification error says about the URL |
| Presign.ParsedUrlMeans | internal/sigv4/presign.go:64-98 | a parsed URL names the supported algorithm, and every field comes from the parameter of its name |
| Presign.IsPresignedMeans | internal/sigv4/presign.go:41-49 | a query asks for presigned authentication exactly when one of the two markers can be read |
| Presign.LookupReads | internal/sigv4/presign.go:65-98 | the first readable value of a name is the one that is read |
| QueryReading.ReadsAsSigned | internal/sigv4/presign.go:65-98 | queries with one canonical form give one reading of a parameter that is signed with one plain value at most |
| QueryReading.ReadingFixedExactlyWhen | internal/sigv4/presign.go:65-98 | what is read of a parameter is fixed by what is signed if and only if the signed pairs give it one value at most, without plus and semicolon |
| PresignUrl.UrlParses | internal/sigv4/presign.go:64-98 | a URL parses back to the fields it was made from, whatever other parameters follow |
| PresignUrl.PresignThenVerify | internal/sigv4/presign.go:111-153 | a URL presigned with the secret is accepted by every clock inside its window |
| PresignUrl.OneSignatureTwoLifetimes | internal/sigv4/presign.go:83-97 | a URL signed with two lifetimes is accepted with either: swapping the parameters keeps the signature and changes the lifetime |
| PresignUrl.UrlFixedExactlyWhen | internal/sigv4/presign.go:65-98 | every query under one signature is read alike in access key, lifetime and token if and only if each is signed with one plain value at most |
| PresignUrl.SignatureFixesUrl | internal/sigv4/presign.go:64-153 | under that condition one signature fixes the whole parsed URL, lifetime and token included, or the computations collide |
| Presign.AcceptedInWindow | internal/sigv4/presign.go:111-133 | an accepted URL is used between X-Amz-Date minus skew and X-Amz-Date plus Expires |
| Presign.ExpiredStaysExpired | internal/sigv4/presign.go:128-133 | a URL refused as expired is refused as expired at every later time |
| Presign.WindowEnds | internal/sigv4/presign.go:128-133 | acceptance lies before the end of the window and the expired refusal after it, whatever the secret |
| Presign.VerifiedQueryDecodes | internal/sigv4/presign.go:135-138 | both verifiers accept only requests whose whole query decodes |
| StripQuery.FilterInPlace | internal/forward/forward.go:111-124 | the in-place filter over the shared backing array keeps exactly the retained parts |
| StripQuery.StripPresignedQuery | internal/forward/forward.go:107-126 | only the raw query changes, to the stripped one |
| StripQuery.StripKeepsParts | internal/forward/forward.go:105-126 | the parts that stay are kept byte for byte and in order |
| StripQuery.StripLeavesNoAuthParam | internal/forward/forward.go:95-103 | no part that stays decodes to one of the seven auth names, under either decoder |
| StripQuery.StripKeepsPairs | internal/forward/forward.go:105-126 | every other decoded pair survives, in order, and the stripped query still decodes |
| StripQuery.ForwardedQueryIsVerifiedQuery | internal/forward/forward.go:105-126 | the forwarded canonical query is the verified one without the auth parameters |
| StripQuery.StripSends | internal/forward/forward.go:92-126 | what is sent are the parts whose key is none of the seven names under either decoder, byte for byte and in order, and their decoded pairs |
| Forward.ApplySynthetic | internal/forward/forward.go:35-43 | the header updates of the synthetic shape, in place |
| Forward.ApplyResign | internal/forward/forward.go:60-71 | drops the token header and signs, in place |
| Forward.RewriteAccessKeyID | internal/forward/forward.go:78-90 | the loop and updates of the rewrite shape, in place |
| Forward.Inject | internal/server/server.go:92-107 | the choice between the three shapes, with the fallback after a failed resign |
| Forward.SyntheticAttribution | internal/forward/forward.go:33-43 | the synthetic header parses back to the user; no session token remains |
| Forward.ResignAttribution | internal/forward/forward.go:54-71 | the re-signed header parses back to the user and verifies under the resign secret |
| Forward.RewriteIsFieldUpdate | internal/forward/forward.go:78-90 | the rewritten Authorization is exactly a field update of the client's, and parses if and only if another header was signed |
| Forward.OnlyTokenSigned | internal/forward/forward.go:79-88 | a header signing only the session token is rewritten into one that does not parse |
| Forward.VerifiedNeverFallsBack | internal/server/server.go:92-101 | after either verifier accepted, re-signing cannot fail |
| Forward.Attribution | internal/server/server.go:89-107 | in every lane and mode the outgoing header parses back to the user, exactly when attributable, with the fields of its shape |
| Forward.UsernameMeans | internal/config/config.go:232 | the default username policy, spelled out |
| Forward.TokenNeverLeaves | internal/forward/forward.go:35-90 | whatever the clock, names or user, no session token leaves and verb, path and query stay the client's |
| Forward.HeadersArrive | internal/forward/forward.go:33-90 | every header but those the identity is written into arrives as sent; rewriting touches Authorization and session token only, the other shapes also date and payload hash, and to what |
| Forward.SignedHeadersArrive | internal/forward/forward.go:73-90 | on the rewrite lane every signed header but the session token arrives with the canonical value the client signed |
| Lifetime.EffectiveTtl | internal/sts/sts.go:136-145 | the updates of ttl compute the wrapped minimum |
| Lifetime.ExpiryIsMin | internal/sts/sts.go:135-152 | below the wrap-around ExpiresAt is exactly the minimum of the three terms |
| Lifetime.WithinToken | internal/sts/sts.go:135-152 | no minted credential outlives its token, for any configuration |
| Lifetime.MintedLifetimeBounded | internal/sts/sts.go:135-152 | a minted lifetime is within all three terms even when a duration wraps |
| Lifetime.PromiseKeptExactlyWhen | internal/sts/sts.go:135-152 | the documented minimum is granted if and only if no duration wraps below it, or the token is dead |
| Lifetime.WrapRefusesLiveToken | internal/sts/sts.go:141-150 | the first wrapping duration makes a live token be refused as expired |
| Exchange.FormDecision | internal/sts/sts.go:71-124 | exactly which forms proceed, which are refused for their role, and the requested duration that the form states |
| Exchange.RequestedIsPrinted | internal/sts/sts.go:115-124 | a duration printed in the form is the duration requested |
| Exchange.TokenErrorCodes | internal/sts/sts.go:186-198 | which code a token error is answered with |
| Store.Memory.Put | internal/store/memory.go:62-67 | one record changes |
| Store.Memory.Get | internal/store/memory.go:69-74 | returns the record, expired or not |
| Store.Memory.Delete | internal/store/memory.go:76-81 | one record goes |
| Store.Memory.Count | internal/store/memory.go:83-94 | the loop counts the unexpired records |
| Store.Memory.Sweep | internal/store/memory.go:114-123 | deleting while ranging removes exactly the records that expired before the cutoff |
| Store.RandCrockford | internal/store/store.go:79-89 | the buffer is filled with one symbol per random byte |
| Store.MintedAkidFits | internal/store/store.go:56-77 | a minted key can stand in a Credential field |
| Store.MintedAkidMeans | internal/store/store.go:48-89 | keys carry the prefix and are equal exactly when their draws agree in the low five bits of every byte |
| Store.DecideMeans | internal/server/server.go:249-268 | a request is accepted exactly with a record that is found, unexpired and proven |
| Sweep.SweepIsInvisible | internal/store/memory.go:101-123 | in every interleaving the swept and the never-swept store accept and refuse the same requests; only records expired beyond the retention turn from expired to unknown |
| Sweep.PlainDecision | internal/store/memory.go:62-81 | without sweeps a request is decided by the record put last and not deleted since |
| Sweep.SweptIsGone | internal/store/memory.go:101-123 | right after a sweep a record is found exactly if it was put last and has not been expired for longer than the retention |
| Valkey.RecordOutlives | internal/store/valkey.go:95-115 | with enough retention an unexpired credential is stored and its record outlives it |
| Valkey.ShorterRetentionLoses | internal/store/valkey.go:103-114 | any shorter retention loses some credential early |
| Valkey.PutFailsOnlyExpired | internal/store/valkey.go:95-115 | the server refuses a Put only for an expired credential |
| Valkey.OpensOnlyUnderItsKey | internal/store/valkey.go:182-200 | however ciphertexts are moved between keys, Get returns a record only under its own key, and only one that was put |
| Valkey.TtlStoreRefinesMap | internal/store/valkey.go:95-143 | in every interleaving the TTL store and the map accept and refuse the same requests; only records expired for longer than the retention less a millisecond turn from expired to unknown |
| Valkey.PlainDecision | internal/store/valkey.go:117-135 | the map decides by the record put last, successfully, and not deleted since |
| Valkey.PxMeans | internal/store/valkey.go:103-114 | the time to live in whole milliseconds, less than one short |
| Replica.StaleOnlyWhilePushed | internal/store/valkey.go:137-143 | a cached record differs from the server's only while an invalidation for it is undelivered |
| Replica.GoneAfterCacheTtl | internal/store/valkey.go:117-143 | a Get that starts cacheTTL after a Delete does not return the record, on any replica, unless it was put again |
| Replica.QuietReplicaReadsServer | internal/store/valkey.go:40-43 | without an outstanding invalidation a replica's Get is the server's |
| Replica.DrainedReadsLastWrite | internal/store/valkey.go:117-143 | once the outstanding invalidations are delivered, a replica answers what was written last |
| Jwks.IssuerState.Gate | internal/oidc/oidc.go:201-206 | the critical section: when a refresh is due and what is stamped |
| Jwks.RunGate | internal/oidc/oidc.go:188-221 | the shared object produces the run's stamps |
| Jwks.RefreshesRateLimited | internal/oidc/oidc.go:39-41 | any n refresh stamps of a concurrent run span more than n - 1 cooldowns |
| Jwks.RefreshesExactlyWhenQuiet | internal/oidc/oidc.go:188-221 | over every concurrent run a visit refreshes if and only if it comes more than a cooldown after every refresh before it |
| DeviceFlow.Poll | internal/devicelogin/devicelogin.go:152-194 | each sleep's length, the outcome of each reply, that all sleeps but the last fit the device-code lifetime, and the bound on the number of polls |
| DeviceFlow.PollBound | internal/devicelogin/devicelogin.go:152-194 | at most E/i0 + 1 polls, and the quadratic bound when every reply is slow_down |
| Proxy.LabelsTellErrorsApart | internal/server/server.go:284-298 | counter labels tell verification errors apart; none is counted as success |
| Proxy.Policy | internal/oidc/oidc.go:165-175 | an accepted identity has a username the policy allows |
| ProxyTrace.RunIsOrderly | internal/server/server.go:139-410 | every run keeps its events in the order of the clock, each thread's acts in order and each at most once, and the store equal to what the events left |
| ProxyTrace.EventsAreSteps | internal/server/server.go:139-410 | every event is the act of one step of the run, with that step's thread, the clock and the store of that moment, on the grounds of that step's verdict, store error or draw |
| ProxyInvariant.NextKeeps | internal/server/server.go:139-410 | every step of every thread keeps the trail of own acts that each thread has behind it |
| ProxyInvariant.RunKeeps | internal/server/server.go:139-410 | every run, from any state that satisfies the invariant, keeps it |
| ProxySafety.StrictSafety | internal/server/server.go:167-410 | in strict mode nothing passes unauthenticated, and every forwarded request leaves in the name of a user whom the validator accepted: by the request's own token, or by the token of the exchange that issued the credential its own Get returned, which was unexpired by the clock of its check, whose session token it presented and with whose secret it was signed, on either lane |
| ProxySafety.RevokedStaysOut | internal/server/server.go:139-165 | a forwarded request made its own Get of its key after arriving; if the key was deleted before that Get, or before it arrived, it was stored again in between |
| ProxySafety.LifetimeBounded | internal/sts/sts.go:135-152 | by the run's clock, every request that passes the expiry check does so before the exp of the exchanged token and within max_duration and the DurationSeconds stated in the form, counted from the minting; every presigned URL that passes verification does so inside its window, and what is sent has passed both |
| ProxySafety.SentIsAttributed | internal/server/server.go:92-107 | every forwarded request carries no session token, the client's target and headers but those the identity is written into, its query (less the seven auth parameters on the presigned lane), and a header that parses back to its authenticated user, exactly when attributable |
| ProxySafety.ResignFallbackOnlyOnBearer | internal/server/server.go:92-101 | a request cleared by a credential is always re-signable, so only the bearer lane can fall back |
| ProxySafety.RecordOrigin | internal/store/memory.go:62-81 | a record in the store was put at some point and neither deleted nor overwritten since |
| ProxySafety.ExpiredUrlStaysOut | internal/sigv4/presign.go:128-133 | once a URL was refused as expired, no request with the same query passes verification on the query lane later |
| ProxySafety.RefusedForCause | internal/server/server.go:201-386 | a request is refused with a result only if that check failed, and an exchange fails only for its cause; where the cause comes from outside, the event's own step has that verdict, store error or failed draw |
| ProxySafety.RefusedByVerdict | internal/server/server.go:213-222 | a bearer request is refused for its token only in a step whose verdict, username policy included, is that refusal |
| ProxySafety.SweepsDelete | internal/store/memory.go:101-123 | in every run a sweep deletes exactly the records that expired before its cutoff, which its own thread read the retention before the clock |
| ProxyCounters.NextCounts | internal/server/server.go:201-386 | every step keeps each lane's counters equal to its decided requests, and each thread's result equal to its last act |
| ProxyCounters.CountersConserved | internal/server/server.go:201-386 | in every reachable state a lane's counters sum to the requests it decided, success is forwarded plus pending, in a quiet lane the sums are over all its requests; exchange counters sum to the exchanges that reported |
| ProxyCounters.EveryThreadSettled | internal/sts/sts.go:60-183 | each exchange reports success if and only if it stored a credential, each request ends in success if and only if it was forwarded and in a refusal if and only if it was refused so, always by one single act |
| ProxyProgress.ClientRequestVerifies | internal/server/server.go:230-307 | a request a client signs with its credential takes the header lane, presents its key and session token, and verifies |
| ProxyProgress.RecordStays | internal/store/memory.go:114-123 | a record that nobody deletes or overwrites is there as long as it is unexpired, however sweeps interleave |
| ProxyProgress.RecordRequestIsForwarded | internal/server/server.go:230-386 | on either lane a request that names a stored credential, presents its token and verifies is forwarded as its user, whatever other threads do between its steps |
| ProxyProgress.SignedRequestIsForwarded | internal/server/server.go:230-307 | whatever other threads do between its steps, a request signed with a stored credential is forwarded as the credential's user, unless they delete or overwrite the record before its Get |
| ProxyProgress.SignedUrlIsForwarded | internal/server/server.go:314-386 | the same for a URL presigned with a stored credential, inside its window |
| ProxyProgress.BearerRequestIsForwarded | internal/server/server.go:201-227 | with the lane enabled, a request whose token the validator accepts is forwarded as that user, whatever other threads do between its steps |
| ProxyProgress.ExchangeStores | internal/sts/sts.go:67-183 | whatever other threads do between its steps, a passing form with an accepted token and life left stores a credential for its user that lives to the earliest of the token's exp, max_duration and the stated DurationSeconds, and never longer |
| ProxyProgress.ExchangedUserIsServed | internal/server/server.go:230-307 | from token to upstream: after an exchange a request signed with its credential is forwarded as the token's user until the granted life ends |
| ProxyProgress.RevokeDeletes | internal/server/server.go:139-165 | a revocation that finds its key deletes it, whatever other threads do between its steps |
| ProxyProgress.SweepDeletes | internal/store/memory.go:101-123 | a sweep deletes every record expired for longer than the retention when it read the clock, and no other, whatever other threads do in between |
| ProxyProgress.UnauthenticatedRequest | internal/server/server.go:389-410 | a request without authentication is passed through as it came outside strict mode, and not in strict mode |

## Left out

- SHA-256, HMAC, AES-GCM, base64 and random number generation: foreign code; hashes are arbitrary functions, sealing is an ideal AEAD, random bytes are inputs.
- The HTTP server and reverse proxy, URL and MIME parsing, body streaming, and the test for an STS request: library behaviour; requests arrive parsed, and exchanges arrive as forms.
- JWT and JWS parsing, OIDC discovery, audience checks and the JWKS cache: library and network; the validator's answer is an input, and only its username policy is modelled.
- Username patterns other than the default one: configuration.
- Calendar arithmetic: X-Amz-Date is an arbitrary codec, so theorems about printed dates are for instants from 1970 to the year 9999, and the day of a synthetic header is the first eight bytes of the timestamp.
- Authorization.Fields.SetSignedHeaders: lower-cases ASCII letters only, as Strings.ToLower below; header field names are ASCII.
- Strings.ToLower: ASCII only; bytes from 0x80 are left alone, while the source maps Unicode letters. White space is the full Unicode set.
- DeviceFlow.Poll: durations are unbounded integers, so intervals and lifetimes beyond 292 years, where the source's durations wrap, are not modelled; cancellation of the context is the end of the reply sequence.
- Valkey.TtlStoreRefinesMap: for records whose life is below 292 years, and for a server that shares the proxies' clock; SCAN-based counting is not modelled.
- ProxySafety.SentIsAttributed: where a clock or the region is printed, for clocks from 1970 to the year 9999 and a region without "/" and ",", and when re-signing for token header names; the rewrite lane needs none of these.
- A store error is an access that did nothing; a failed Put that reached the shared server all the same is not modelled.
- Replica: fetches are atomic and invalidations are delivered in order, as the source's comments assume of the client library; lost connections are not modelled.
- The handlers of internal/server/server.go and the mutex-protected parts of internal/sts/sts.go are steps on values rather than methods on objects, because what is proved is about their interleaving; response bodies, status codes, logs, timing histograms and the revocation counter are not modelled.
- The wording of the SigV2 rejection, XML rendering, configuration loading, metrics registration, the portal, the login command, and the tools under hack, charts and examples: plumbing without properties worth a proof.
- Constant-time comparison is equality; per-chunk streaming signatures are not verified by the source either.
