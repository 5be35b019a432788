/**
 * Node-to-node transport (the newer copy): `did:wba` syntax, DID resolution
 * through a cache whose entries expire after 300 seconds, public-key
 * extraction from a DID document, the early exits of `send_message` and the
 * fail-closed chain of checks in `receive_message`. HTTP GET and POST are
 * oracles, the clock is an integer number of seconds and ISO-8601 parsing is
 * an oracle from timestamp strings to seconds.
 */
module Transport {
  import opened Wrappers
  import opened Values
  import Text
  import Base64Url
  import Identity
  import Message

  /** Seconds a resolved DID document stays cached. */
  const CacheTtl := 300
  /** Largest accepted distance, in seconds, between a message's timestamp
      and the receiver's clock. */
  const MaxAge := 300
  const DidPrefix := "did:wba:"

  // ---------------------------------------------------------------------
  // `_DID_RE`: did:wba:<[A-Za-z0-9._:%-]+>:<[A-Za-z0-9_-]+>
  // ---------------------------------------------------------------------

  predicate IsAlnum(c: char)
  {
    ('a' <= c <= 'z') || ('A' <= c <= 'Z') || ('0' <= c <= '9')
  }

  predicate DomainChar(c: char)
  {
    IsAlnum(c) || c == '.' || c == '_' || c == ':' || c == '%' || c == '-'
  }

  predicate NameChar(c: char)
  {
    IsAlnum(c) || c == '_' || c == '-'
  }

  predicate AllDomainChars(s: string)
  {
    forall k :: 0 <= k < |s| ==> DomainChar(s[k])
  }

  predicate AllNameChars(s: string)
  {
    forall k :: 0 <= k < |s| ==> NameChar(s[k])
  }

  /** `s` is the prefix, a non-empty domain run, the colon at `i` and a
      non-empty name run, up to the end of the string. */
  predicate SplitsAt(s: string, i: int)
  {
    Text.StartsWith(s, DidPrefix) && 8 < i < |s| - 1 && s[i] == ':' &&
    AllDomainChars(s[8..i]) && AllNameChars(s[i + 1..])
  }

  /** What the pattern describes: some colon splits the rest into a domain
      and a name. */
  ghost predicate DidShape(s: string)
  {
    exists i :: SplitsAt(s, i)
  }

  /** Index of the last `c` in `s`, or -1. */
  function LastIndexOf(s: string, c: char): (r: int)
    ensures -1 <= r < |s|
    ensures r >= 0 ==> s[r] == c
    ensures forall k :: r < k < |s| ==> s[k] != c
  {
    if s == [] then -1
    else if s[|s| - 1] == c then |s| - 1
    else LastIndexOf(s[..|s| - 1], c)
  }

  /** The whole-string DID check: the name is what follows the last colon. */
  predicate DidRe(s: string)
  {
    SplitsAt(s, LastIndexOf(s, ':'))
  }

  /** The check accepts exactly the strings of the shape the pattern
      describes. */
  lemma DidReMeaning(s: string)
    ensures DidRe(s) <==> DidShape(s)
  {
    if DidShape(s) {
      var i :| SplitsAt(s, i);
      var j := LastIndexOf(s, ':');
      forall k | i < k < |s|
        ensures s[k] != ':'
      {
        assert s[k] == s[i + 1..][k - i - 1];
      }
      assert j == i;
    }
  }

  /** `DidRe` for a DID built from a domain and a name of the allowed
      characters, the name without a colon. */
  lemma DidReOfWbaDid(domain: string, name: string)
    requires domain != [] && name != [] && AllDomainChars(domain) && AllNameChars(name)
    ensures DidRe(Identity.WbaDid(domain, name))
  {
    var s := Identity.WbaDid(domain, name);
    var i := 8 + |domain|;
    assert s[8..i] == domain;
    assert s[i + 1..] == name;
    assert s[..8] == DidPrefix;
    assert SplitsAt(s, i);
    DidReMeaning(s);
  }

  /** A DID whose domain carries an escaped port, as `localhost%3A7777`, is
      accepted. */
  lemma DidReAcceptsPort(host: string, port: string, name: string)
    requires host != [] && AllDomainChars(host) && AllDomainChars(port)
    requires name != [] && AllNameChars(name)
    ensures DidRe(Identity.WbaDid(host + "%3A" + port, name))
  {
    var domain := host + "%3A" + port;
    forall k | 0 <= k < |domain| ensures DomainChar(domain[k]) {
      if k < |host| {
        assert domain[k] == host[k];
      } else if k < |host| + 3 {
        assert domain[k] == "%3A"[k - |host|];
      } else {
        assert domain[k] == port[k - |host| - 3];
      }
    }
    DidReOfWbaDid(domain, name);
  }

  /** A DID without a name segment is rejected. */
  lemma DidReNeedsName()
    ensures !DidRe("did:wba:example.com")
  {
    var s := "did:wba:example.com";
    assert s[9..] == "xample.com";
    DidReMeaning(s);
  }

  /** `_DID_RE.match(s)` as written: Python's `$` also matches just before a
      final newline, so one trailing `\n` after a valid DID is accepted. */
  predicate DidReAsWritten(s: string)
  {
    DidRe(s) || (s != [] && s[|s| - 1] == '\n' && DidRe(s[..|s| - 1]))
  }

  /** A DID with a trailing newline passes the pattern as written although it
      is not a DID of the intended shape. */
  lemma TrailingNewlineAccepted(domain: string, name: string)
    requires domain != [] && name != [] && AllDomainChars(domain) && AllNameChars(name)
    ensures DidReAsWritten(Identity.WbaDid(domain, name) + "\n")
    ensures !DidRe(Identity.WbaDid(domain, name) + "\n")
  {
    var d := Identity.WbaDid(domain, name);
    var s := d + "\n";
    assert s[..|s| - 1] == d;
    DidReOfWbaDid(domain, name);
    var j := LastIndexOf(s, ':');
    assert s[|s| - 1] == '\n';
    var tail := s[j + 1..];
    assert tail[|tail| - 1] == '\n';
  }

  // ---------------------------------------------------------------------
  // Domain and URL derivation
  // ---------------------------------------------------------------------

  datatype ResolveError = InvalidDid | FetchFailed

  /** `%3A` in the domain segment stands for the port colon. */
  function DecodeDomain(raw: string): string
  {
    if Text.Contains(raw, "%3A") then Text.ReplaceAll(raw, "%3A", ":") else raw
  }

  /** Decoding only when `%3A` occurs is the same as always replacing, as
      `send_message` does. */
  lemma DecodeDomainReplaces(raw: string)
    ensures DecodeDomain(raw) == Text.ReplaceAll(raw, "%3A", ":")
  {
    if !Text.Contains(raw, "%3A") {
      Text.ReplaceAbsent(raw, "%3A", ":");
    }
  }

  /** The parse step of `resolve_did`: at least four colon segments, method
      `wba`; the domain is the third segment, decoded. */
  function DidDomain(did: string): (r: Result<string, ResolveError>)
    ensures r.Ok? <==> |Text.Split(did, ':')| >= 4 && Text.Split(did, ':')[1] == "wba"
    ensures r.Ok? ==> r.value == Text.ReplaceAll(Text.Split(did, ':')[2], "%3A", ":")
  {
    var parts := Text.Split(did, ':');
    if |parts| < 4 || parts[1] != "wba" then Err(InvalidDid)
    else
      DecodeDomainReplaces(parts[2]);
      Ok(DecodeDomain(parts[2]))
  }

  /** A DID minted from a colon-free domain and name resolves to that
      domain. */
  lemma DomainOfWbaDid(domain: string, name: string)
    requires ':' !in domain && ':' !in name && !Text.Contains(domain, "%3A")
    ensures DidDomain(Identity.WbaDid(domain, name)) == Ok(domain)
  {
    Identity.WbaDidSegments(domain, name);
    Text.ReplaceAbsent(domain, "%3A", ":");
  }

  /** Local development hosts are reached over plain http. */
  predicate IsLocal(domain: string)
  {
    Text.StartsWith(domain, "localhost") || Text.StartsWith(domain, "127.0.0.1")
  }

  function Scheme(domain: string): (s: string)
    ensures s == "http" <==> IsLocal(domain)
    ensures s == "https" <==> !IsLocal(domain)
  {
    if IsLocal(domain) then "http" else "https"
  }

  /** Where `resolve_did` fetches the DID document. */
  function DocumentUrl(domain: string): (url: string)
    ensures Text.StartsWith(url, "https://") <==> !IsLocal(domain)
    ensures Text.StartsWith(url, "http://") <==> IsLocal(domain)
  {
    var url := if IsLocal(domain) then "http://" + domain + "/.well-known/did.json"
               else "https://" + domain + "/.well-known/did.json";
    assert url[4] == (if IsLocal(domain) then ':' else 's');
    assert IsLocal(domain) ==> url[..7] == "http://";
    assert !IsLocal(domain) ==> url[..8] == "https://";
    url
  }

  /** Where `send_message` posts a message. */
  function MessageUrl(domain: string): (url: string)
    ensures Text.StartsWith(url, "https://") <==> !IsLocal(domain)
    ensures Text.StartsWith(url, "http://") <==> IsLocal(domain)
  {
    var url := Scheme(domain) + "://" + domain + "/anp/message";
    assert url[4] == (if IsLocal(domain) then ':' else 's');
    assert IsLocal(domain) ==> url[..7] == "http://";
    assert !IsLocal(domain) ==> url[..8] == "https://";
    url
  }

  /** Resolution and delivery reach the same host with the same scheme. */
  lemma SameOrigin(domain: string)
    ensures DocumentUrl(domain) == Scheme(domain) + "://" + domain + "/.well-known/did.json"
    ensures MessageUrl(domain) == Scheme(domain) + "://" + domain + "/anp/message"
  {
    if IsLocal(domain) {
      assert Scheme(domain) == "http";
    } else {
      assert Scheme(domain) == "https";
    }
  }

  // ---------------------------------------------------------------------
  // Resolution with an expiring cache
  // ---------------------------------------------------------------------

  datatype Entry = Entry(doc: Value, cachedAt: int)

  /** The outcome of `resolve_did` and the cache it leaves behind. */
  datatype Resolution = Resolution(result: Result<Value, ResolveError>, cache: map<string, Entry>)

  /** Resolution without a usable cache entry: parse, fetch, store. A failed
      fetch (any exception of the HTTP client or of decoding the body) is
      `None`. */
  function Fetched(cache: map<string, Entry>, did: string, now: int, fetch: string -> Option<Value>): Resolution
  {
    match DidDomain(did)
    case Err(e) => Resolution(Err(e), cache)
    case Ok(domain) =>
      match fetch(DocumentUrl(domain))
      case None => Resolution(Err(FetchFailed), cache)
      case Some(doc) => Resolution(Ok(doc), cache[did := Entry(doc, now)])
  }

  /** `resolve_did(did)` at time `now`: an entry younger than the TTL is
      served without fetching; an older one is deleted first. */
  function Resolved(cache: map<string, Entry>, did: string, now: int, fetch: string -> Option<Value>): (r: Resolution)
    ensures r.result.Ok? ==> did in r.cache && r.result.value == r.cache[did].doc
    ensures r.result.Err? ==> r.cache == cache - {did} || r.cache == cache
    ensures forall d :: d != did ==> (d in r.cache <==> d in cache) && (d in cache ==> r.cache[d] == cache[d])
  {
    if did in cache && now - cache[did].cachedAt < CacheTtl then Resolution(Ok(cache[did].doc), cache)
    else Fetched(cache - {did}, did, now, fetch)
  }

  /** After a fetch at time `t`, every resolution before `t + 300` is served
      from the cache without consulting the network; from `t + 300` on the
      entry is dropped and the document fetched again, the new entry
      carrying the new time. */
  lemma CacheTtlWindow(cache: map<string, Entry>, did: string, t: int, fetch: string -> Option<Value>,
                       t2: int, refetch: string -> Option<Value>)
    requires !(did in cache && t - cache[did].cachedAt < CacheTtl)
    requires Resolved(cache, did, t, fetch).result.Ok?
    ensures var first := Resolved(cache, did, t, fetch);
      t2 - t < CacheTtl ==> Resolved(first.cache, did, t2, refetch) == first
    ensures var first := Resolved(cache, did, t, fetch);
      t2 - t >= CacheTtl ==> Resolved(first.cache, did, t2, refetch) == Resolved(cache - {did}, did, t2, refetch)
    ensures var again := Resolved(Resolved(cache, did, t, fetch).cache, did, t2, refetch);
      t2 - t >= CacheTtl && again.result.Ok? ==> again.cache[did].cachedAt == t2
  {
    var first := Resolved(cache, did, t, fetch);
    assert first.cache[did].cachedAt == t;
    if t2 - t >= CacheTtl {
      assert first.cache - {did} == (cache - {did}) - {did};
    }
  }

  /** Every cached DID parsed; so does every DID the cache will hold. */
  predicate CacheValid(cache: map<string, Entry>)
  {
    forall d :: d in cache ==> DidDomain(d).Ok?
  }

  /** A malformed DID fails before any fetch: the outcome is the same
      whatever the network would answer. */
  lemma InvalidDidNeverFetched(cache: map<string, Entry>, did: string, now: int,
                               fetch: string -> Option<Value>, other: string -> Option<Value>)
    requires CacheValid(cache)
    requires DidDomain(did).Err?
    ensures Resolved(cache, did, now, fetch).result == Err(InvalidDid)
    ensures Resolved(cache, did, now, fetch) == Resolved(cache, did, now, other)
  {
  }

  /** Resolution keeps the cache valid, and a DID it resolves parses. */
  lemma ResolvedValid(cache: map<string, Entry>, did: string, now: int, fetch: string -> Option<Value>)
    requires CacheValid(cache)
    ensures CacheValid(Resolved(cache, did, now, fetch).cache)
    ensures Resolved(cache, did, now, fetch).result.Ok? ==> DidDomain(did).Ok?
  {
  }

  /** The module-level `_DID_CACHE`. */
  class DidCache {
    var entries: map<string, Entry>

    predicate Valid()
      reads this
    {
      CacheValid(entries)
    }

    constructor ()
      ensures entries == map[] && Valid()
    {
      entries := map[];
    }

    /** `resolve_did(did)` */
    method Resolve(did: string, now: int, fetch: string -> Option<Value>) returns (r: Result<Value, ResolveError>)
      modifies this
      ensures Resolution(r, entries) == Resolved(old(entries), did, now, fetch)
      ensures old(Valid()) ==> Valid()
    {
      if did in entries {
        var entry := entries[did];
        if now - entry.cachedAt < CacheTtl {
          return Ok(entry.doc);
        }
        entries := entries - {did};
      }
      assert entries == old(entries) - {did};
      var parts := Text.Split(did, ':');
      if |parts| < 4 || parts[1] != "wba" {
        return Err(InvalidDid);
      }
      var domain := parts[2];
      if Text.Contains(domain, "%3A") {
        domain := Text.ReplaceAll(domain, "%3A", ":");
      }
      var url := if IsLocal(domain) then "http://" + domain + "/.well-known/did.json"
                 else "https://" + domain + "/.well-known/did.json";
      assert url == DocumentUrl(domain);
      var fetched := fetch(url);
      if fetched.None? {
        return Err(FetchFailed);
      }
      entries := entries[did := Entry(fetched.value, now)];
      r := Ok(fetched.value);
      if old(Valid()) {
        ResolvedValid(old(entries), did, now, fetch);
      }
    }
  }

  // ---------------------------------------------------------------------
  // Public-key extraction
  // ---------------------------------------------------------------------

  /** An exception raised inside the transport (an `AttributeError` or
      `TypeError` on a document of an unexpected shape). */
  datatype Raised = Raised

  /** A verification method that is skipped: a dict whose multibase string
      does not start with `z`. */
  predicate SkippedMethod(v: Value)
  {
    v.VObj? && Get(v.fields, "publicKeyMultibase", VStr("")).VStr? &&
    !Text.StartsWith(Get(v.fields, "publicKeyMultibase", VStr("")).s, "z")
  }

  /** The loop of `_extract_public_key_from_did_doc` over the verification
      methods: the first multibase value starting with `z`, minus the `z`. */
  function FirstKey(methods: seq<Value>): (r: Result<Option<string>, Raised>)
    ensures r == Ok(None) <==> forall i :: 0 <= i < |methods| ==> SkippedMethod(methods[i])
    ensures r.Ok? && r.value.Some? ==>
      (exists i :: 0 <= i < |methods| && methods[i].VObj? &&
        Get(methods[i].fields, "publicKeyMultibase", VStr("")) == VStr("z" + r.value.value) &&
        forall j :: 0 <= j < i ==> SkippedMethod(methods[j]))
  {
    if methods == [] then Ok(None)
    else match methods[0]
      case VObj(vm) =>
        var mb := Get(vm, "publicKeyMultibase", VStr(""));
        if !mb.VStr? then Err(Raised)
        else if Text.StartsWith(mb.s, "z") then
          assert mb.s == "z" + mb.s[1..];
          Ok(Some(mb.s[1..]))
        else
          var rest := FirstKey(methods[1..]);
          assert forall i :: 1 <= i < |methods| ==> methods[i] == methods[1..][i - 1];
          if rest.Ok? && rest.value.Some? then
            var i :| 0 <= i < |methods[1..]| && methods[1..][i].VObj? &&
              Get(methods[1..][i].fields, "publicKeyMultibase", VStr("")) == VStr("z" + rest.value.value) &&
              forall j :: 0 <= j < i ==> SkippedMethod(methods[1..][j]);
            assert forall j :: 0 <= j < i + 1 ==> SkippedMethod(methods[j]);
            rest
          else rest
      case _ => Err(Raised)
  }

  /** Iterating `did_doc.get("verificationMethod", [])`: a list yields its
      items, an empty string or dict yields nothing, anything else raises
      before or at its first element. */
  function MethodsOf(v: Value): Result<seq<Value>, Raised>
  {
    match v
    case VList(items) => Ok(items)
    case VStr(s) => if s == "" then Ok([]) else Err(Raised)
    case VObj(m) => if m == map[] then Ok([]) else Err(Raised)
    case _ => Err(Raised)
  }

  /** `_extract_public_key_from_did_doc(doc)`; a document that is not a
      dict raises. */
  function ExtractKey(doc: Value): (r: Result<Option<string>, Raised>)
    ensures !doc.VObj? ==> r.Err?
    ensures doc.VObj? && "verificationMethod" !in doc.fields ==> r == Ok(None)
    ensures doc.VObj? && "verificationMethod" in doc.fields && doc.fields["verificationMethod"].VList? ==>
      r == FirstKey(doc.fields["verificationMethod"].items)
  {
    if !doc.VObj? then Err(Raised)
    else match MethodsOf(Get(doc.fields, "verificationMethod", VList([])))
      case Err(e) => Err(e)
      case Ok(methods) => FirstKey(methods)
  }

  /** The key extracted from a node's own DID document is its
      `public_key_b64()`. */
  lemma KeyOfOwnDocument(e: Identity.Ed25519, id: Identity.Identity, created: string)
    ensures ExtractKey(VObj(Identity.ToDidDocument(e, id, created))) == Ok(Some(Identity.PublicKeyB64(e, id)))
  {
    Identity.DidDocumentKey(e, id, created);
    var vm := Identity.VerificationMethod(e, id);
    var mb := "z" + Identity.PublicKeyB64(e, id);
    assert Get(vm, "publicKeyMultibase", VStr("")) == VStr(mb);
    assert mb[1..] == Identity.PublicKeyB64(e, id);
    assert Text.StartsWith(mb, "z");
  }

  // ---------------------------------------------------------------------
  // `receive_message`
  // ---------------------------------------------------------------------

  /** Why `receive_message` answered as it did; only `Accepted` is
      `valid == True`. */
  datatype Verdict = Accepted | BadDid | BadTimestamp | Stale | Unsigned | Failed | NoKey | BadSignature

  function Abs(x: int): nat
  {
    if x < 0 then -x else x
  }

  predicate Signed(m: Message.Message)
  {
    m.signature.Some? && m.signature.value != ""
  }

  /** The checks before resolution: DID format, timestamp, age in either
      direction, signature present. */
  function Precheck(m: Message.Message, now: int, parseTime: string -> Option<int>): (v: Verdict)
    ensures v == Accepted ==>
      (DidRe(m.fromDid) && parseTime(m.timestamp).Some? &&
       Abs(now - parseTime(m.timestamp).value) <= MaxAge && Signed(m))
  {
    if !DidRe(m.fromDid) then BadDid
    else match parseTime(m.timestamp)
      case None => BadTimestamp
      case Some(t) =>
        if Abs(now - t) > MaxAge then Stale
        else if !Signed(m) then Unsigned
        else Accepted
  }

  /** The bytes a signature covers: the signable form of a copy of the
      message whose signature is cleared. */
  function SignedBytes(m: Message.Message, serialize: Record -> Identity.Bytes): Identity.Bytes
  {
    serialize(Message.Signable(m.(signature := None)))
  }

  /** The checks after resolution, inside the `try`: any exception, a missing
      key or a failed verification is a rejection. */
  function KeyVerdict(e: Identity.Ed25519, m: Message.Message, resolved: Result<Value, ResolveError>,
                      serialize: Record -> Identity.Bytes): (v: Verdict)
    requires Signed(m)
    ensures v == Accepted ==>
      (resolved.Ok? && ExtractKey(resolved.value).Ok? && ExtractKey(resolved.value).value.Some? &&
       Identity.VerifyWithPublicKey(e, ExtractKey(resolved.value).value.value, SignedBytes(m, serialize), m.signature.value))
  {
    match resolved
    case Err(_) => Failed
    case Ok(doc) =>
      match ExtractKey(doc)
      case Err(_) => Failed
      case Ok(key) =>
        if key.None? || key.value == "" then NoKey
        else if Identity.VerifyWithPublicKey(e, key.value, SignedBytes(m, serialize), m.signature.value) then Accepted
        else BadSignature
  }

  /** A message is valid only when every check passes: well-formed DID,
      parseable and fresh timestamp, a signature, a resolved document with a
      `z` key, and a signature that checks against that key over the
      signable bytes, which do not depend on the signature itself. */
  lemma ReceiveFailClosed(e: Identity.Ed25519, m: Message.Message, now: int, parseTime: string -> Option<int>,
                          resolved: Result<Value, ResolveError>, serialize: Record -> Identity.Bytes)
    requires Precheck(m, now, parseTime) == Accepted
    requires KeyVerdict(e, m, resolved, serialize) == Accepted
    ensures DidRe(m.fromDid) && parseTime(m.timestamp).Some?
    ensures Abs(now - parseTime(m.timestamp).value) <= 300
    ensures resolved.Ok? && ExtractKey(resolved.value).Ok? && ExtractKey(resolved.value).value.Some?
    ensures var key := ExtractKey(resolved.value).value.value;
      && Base64Url.Decode(key).Ok? && Base64Url.Decode(m.signature.value).Ok?
      && e.check(Base64Url.Decode(key).value, Base64Url.Decode(m.signature.value).value,
                 serialize(Message.Signable(m)))
  {
    Message.SignableIgnoresSignature(m, None);
  }

  /** A message signed by the holder of a DID, checked against the document
      `to_did_document` publishes for that DID, passes every check after
      resolution. */
  lemma HonestKeyAccepted(e: Identity.Ed25519, id: Identity.Identity, created: string, m: Message.Message,
                          serialize: Record -> Identity.Bytes)
    requires Identity.Sound(e)
    requires m.signature == Some(Identity.Sign(e, id, serialize(Message.Signable(m))))
    requires m.signature.value != ""
    ensures KeyVerdict(e, m, Ok(VObj(Identity.ToDidDocument(e, id, created))), serialize) == Accepted
  {
    var data := serialize(Message.Signable(m));
    var pk := Identity.PublicKeyB64(e, id);
    var doc := VObj(Identity.ToDidDocument(e, id, created));
    assert SignedBytes(m, serialize) == data by {
      Message.SignableIgnoresSignature(m, None);
    }
    assert ExtractKey(doc) == Ok(Some(pk)) by {
      KeyOfOwnDocument(e, id, created);
    }
    assert Identity.VerifyWithPublicKey(e, pk, data, m.signature.value) && pk != "" by {
      Identity.SignThenVerifyWithPublicKey(e, id, data);
    }
    KeyVerdictOfKey(e, m, doc, pk, serialize);
  }

  /** ... and if its DID is well-formed and its timestamp fresh, it is
      accepted. */
  lemma HonestMessageAccepted(e: Identity.Ed25519, id: Identity.Identity, created: string, m: Message.Message,
                              now: int, parseTime: string -> Option<int>, serialize: Record -> Identity.Bytes)
    requires Identity.Sound(e)
    requires m.fromDid == id.did && DidRe(id.did)
    requires parseTime(m.timestamp).Some? && Abs(now - parseTime(m.timestamp).value) <= MaxAge
    requires m.signature == Some(Identity.Sign(e, id, serialize(Message.Signable(m))))
    requires m.signature.value != ""
    ensures Precheck(m, now, parseTime) == Accepted
    ensures KeyVerdict(e, m, Ok(VObj(Identity.ToDidDocument(e, id, created))), serialize) == Accepted
  {
    assert Precheck(m, now, parseTime) == Accepted;
    HonestKeyAccepted(e, id, created, m, serialize);
  }

  /** A document yielding a non-empty key that verifies the signature is
      accepted. */
  lemma KeyVerdictOfKey(e: Identity.Ed25519, m: Message.Message, doc: Value, key: string,
                        serialize: Record -> Identity.Bytes)
    requires Signed(m) && key != ""
    requires ExtractKey(doc) == Ok(Some(key))
    requires Identity.VerifyWithPublicKey(e, key, SignedBytes(m, serialize), m.signature.value)
    ensures KeyVerdict(e, m, Ok(doc), serialize) == Accepted
  {
  }

  /** `receive_message(payload)`. A payload that does not validate raises
      (`None`); otherwise the message is returned with its verdict. The
      sender's DID is resolved, through the cache, only when the checks
      before resolution pass. */
  method ReceiveMessage(cache: DidCache, e: Identity.Ed25519, payload: Record, freshId: string, nowIso: string,
                        now: int, parseTime: string -> Option<int>, fetch: string -> Option<Value>,
                        serialize: Record -> Identity.Bytes)
    returns (r: Option<(Message.Message, bool)>)
    modifies cache
    ensures Message.Parse(payload, freshId, nowIso).None? ==> r.None? && cache.entries == old(cache.entries)
    ensures Message.Parse(payload, freshId, nowIso).Some? ==>
      var m := Message.Parse(payload, freshId, nowIso).value;
      && r.Some? && r.value.0 == m
      && (Precheck(m, now, parseTime) != Accepted ==> !r.value.1 && cache.entries == old(cache.entries))
      && (Precheck(m, now, parseTime) == Accepted ==>
            var res := Resolved(old(cache.entries), m.fromDid, now, fetch);
            cache.entries == res.cache && r.value.1 == (KeyVerdict(e, m, res.result, serialize) == Accepted))
    ensures old(cache.Valid()) ==> cache.Valid()
  {
    var parsed := Message.Parse(payload, freshId, nowIso);
    if parsed.None? {
      return None;
    }
    var m := parsed.value;
    if !DidRe(m.fromDid) {
      return Some((m, false));
    }
    var t := parseTime(m.timestamp);
    if t.None? {
      return Some((m, false));
    }
    var age := if now - t.value < 0 then t.value - now else now - t.value;
    if age > MaxAge {
      return Some((m, false));
    }
    if m.signature.None? || m.signature.value == "" {
      return Some((m, false));
    }
    var resolved := cache.Resolve(m.fromDid, now, fetch);
    var valid := KeyVerdict(e, m, resolved, serialize) == Accepted;
    return Some((m, valid));
  }

  // ---------------------------------------------------------------------
  // `send_message`
  // ---------------------------------------------------------------------

  /** The message as sent: signed over its signable bytes. */
  function SignedMessage(e: Identity.Ed25519, id: Identity.Identity, m: Message.Message,
                         serialize: Record -> Identity.Bytes): (s: Message.Message)
    ensures s.(signature := m.signature) == m
    ensures Message.Signable(s) == Message.Signable(m)
  {
    Message.SignableIgnoresSignature(m, Some(Identity.Sign(e, id, serialize(Message.Signable(m)))));
    m.(signature := Some(Identity.Sign(e, id, serialize(Message.Signable(m)))))
  }

  /** `send_message(message, identity)`: when the recipient's DID does not
      resolve, nothing is signed or posted and the answer is `False`;
      otherwise the signed dump is posted to the recipient's `/anp/message`
      and the answer is whether the POST succeeded. `request` is the POST
      made, if any; `signed` is the message after its signature is set. */
  method SendMessage(cache: DidCache, e: Identity.Ed25519, id: Identity.Identity, m: Message.Message,
                     now: int, fetch: string -> Option<Value>, serialize: Record -> Identity.Bytes,
                     post: (string, Record) -> bool)
    returns (ok: bool, signed: Message.Message, request: Option<(string, Record)>)
    requires cache.Valid()
    modifies cache
    ensures var res := Resolved(old(cache.entries), m.toDid, now, fetch);
      && cache.entries == res.cache
      && (res.result.Err? ==> !ok && signed == m && request.None?)
      && (res.result.Ok? ==>
            DidDomain(m.toDid).Ok? &&
            signed == SignedMessage(e, id, m, serialize) &&
            request == Some((MessageUrl(DidDomain(m.toDid).value), Message.Dump(signed))) &&
            ok == post(MessageUrl(DidDomain(m.toDid).value), Message.Dump(signed)))
    ensures cache.Valid()
  {
    ResolvedValid(cache.entries, m.toDid, now, fetch);
    var resolved := cache.Resolve(m.toDid, now, fetch);
    if resolved.Err? {
      return false, m, None;
    }
    signed := m.(signature := Some(Identity.Sign(e, id, serialize(Message.Signable(m)))));
    var parts := Text.Split(m.toDid, ':');
    var domain := Text.ReplaceAll(parts[2], "%3A", ":");
    var url := Scheme(domain) + "://" + domain + "/anp/message";
    var payload := Message.Dump(signed);
    request := Some((url, payload));
    ok := post(url, payload);
  }
}
