/**
 * The older transport copy. DID parsing, URL derivation, key extraction and
 * the checks after resolution are those of the newer copy; the differences
 * are a DID cache that never expires and a `receive_message` that checks
 * neither the DID format nor the message's age.
 */
module LegacyTransport {
  import opened Wrappers
  import opened Values
  import Text
  import Identity
  import Message
  import Transport

  /** The outcome of `resolve_did` and the cache it leaves behind. */
  datatype Resolution = Resolution(result: Result<Value, Transport.ResolveError>, cache: map<string, Value>)

  /** `resolve_did(did)`: a cached document is returned as it is; otherwise
      the DID is parsed, its document fetched and cached for good. */
  function Resolved(cache: map<string, Value>, did: string, fetch: string -> Option<Value>): (r: Resolution)
    ensures r.result.Ok? ==> did in r.cache && r.cache[did] == r.result.value
    ensures forall d :: d in cache ==> d in r.cache && r.cache[d] == cache[d]
    ensures r.cache.Keys <= cache.Keys + {did}
  {
    if did in cache then Resolution(Ok(cache[did]), cache)
    else match Transport.DidDomain(did)
      case Err(e) => Resolution(Err(e), cache)
      case Ok(domain) =>
        match fetch(Transport.DocumentUrl(domain))
        case None => Resolution(Err(Transport.FetchFailed), cache)
        case Some(doc) => Resolution(Ok(doc), cache[did := doc])
  }

  /** Once a DID is resolved, every later resolution returns the same
      document without consulting the network, however much later. */
  lemma CachedForever(cache: map<string, Value>, did: string, fetch: string -> Option<Value>,
                      refetch: string -> Option<Value>)
    requires Resolved(cache, did, fetch).result.Ok?
    ensures var first := Resolved(cache, did, fetch);
      Resolved(first.cache, did, refetch) == first
  {
  }

  predicate CacheValid(cache: map<string, Value>)
  {
    forall d :: d in cache ==> Transport.DidDomain(d).Ok?
  }

  /** A malformed DID fails before any fetch. */
  lemma InvalidDidNeverFetched(cache: map<string, Value>, did: string,
                               fetch: string -> Option<Value>, other: string -> Option<Value>)
    requires CacheValid(cache)
    requires Transport.DidDomain(did).Err?
    ensures Resolved(cache, did, fetch).result == Err(Transport.InvalidDid)
    ensures Resolved(cache, did, fetch) == Resolved(cache, did, other)
  {
  }

  /** The module-level `_DID_CACHE` of this copy. */
  class DocCache {
    var docs: map<string, Value>

    predicate Valid()
      reads this
    {
      CacheValid(docs)
    }

    constructor ()
      ensures docs == map[] && Valid()
    {
      docs := map[];
    }

    /** `resolve_did(did)` */
    method Resolve(did: string, fetch: string -> Option<Value>) returns (r: Result<Value, Transport.ResolveError>)
      modifies this
      ensures Resolution(r, docs) == Resolved(old(docs), did, fetch)
      ensures old(Valid()) ==> Valid()
    {
      if did in docs {
        return Ok(docs[did]);
      }
      var parts := Text.Split(did, ':');
      if |parts| < 4 || parts[1] != "wba" {
        return Err(Transport.InvalidDid);
      }
      var domain := parts[2];
      if Text.Contains(domain, "%3A") {
        domain := Text.ReplaceAll(domain, "%3A", ":");
      }
      var url := if Transport.IsLocal(domain) then "http://" + domain + "/.well-known/did.json"
                 else "https://" + domain + "/.well-known/did.json";
      assert url == Transport.DocumentUrl(domain);
      var fetched := fetch(url);
      if fetched.None? {
        return Err(Transport.FetchFailed);
      }
      docs := docs[did := fetched.value];
      r := Ok(fetched.value);
    }
  }

  /** The verdict of this copy's `receive_message`: a signature must be
      present, then the checks after resolution decide. */
  function Verdict(e: Identity.Ed25519, m: Message.Message, resolved: Result<Value, Transport.ResolveError>,
                   serialize: Record -> Identity.Bytes): (v: Transport.Verdict)
    ensures v == Transport.Accepted ==> Transport.Signed(m)
  {
    if !Transport.Signed(m) then Transport.Unsigned
    else Transport.KeyVerdict(e, m, resolved, serialize)
  }

  /** Whatever the newer copy accepts, this one accepts too. */
  lemma NewerIsStricter(e: Identity.Ed25519, m: Message.Message, now: int, parseTime: string -> Option<int>,
                        resolved: Result<Value, Transport.ResolveError>, serialize: Record -> Identity.Bytes)
    requires Transport.Precheck(m, now, parseTime) == Transport.Accepted
    requires Transport.KeyVerdict(e, m, resolved, serialize) == Transport.Accepted
    ensures Verdict(e, m, resolved, serialize) == Transport.Accepted
  {
  }

  /** An honestly signed message is accepted here even when its sender's DID
      does not have the `did:wba` shape or its timestamp is stale or
      unreadable, all of which the newer copy rejects. */
  lemma AcceptsWithoutFormatOrFreshness(e: Identity.Ed25519, id: Identity.Identity, created: string,
                                        m: Message.Message, now: int, parseTime: string -> Option<int>,
                                        serialize: Record -> Identity.Bytes)
    requires Identity.Sound(e)
    requires m.fromDid == id.did
    requires m.signature == Some(Identity.Sign(e, id, serialize(Message.Signable(m))))
    requires m.signature.value != ""
    requires !Transport.DidRe(id.did) || parseTime(m.timestamp).None? ||
             Transport.Abs(now - parseTime(m.timestamp).value) > Transport.MaxAge
    ensures Verdict(e, m, Ok(VObj(Identity.ToDidDocument(e, id, created))), serialize) == Transport.Accepted
    ensures Transport.Precheck(m, now, parseTime) != Transport.Accepted
  {
    assert Transport.Precheck(m, now, parseTime) != Transport.Accepted;
    Transport.HonestKeyAccepted(e, id, created, m, serialize);
  }

  /** `receive_message(payload)` of this copy: a payload that does not
      validate raises (`None`); an unsigned message is refused without
      resolution; otherwise the sender's DID is resolved and the signature
      checked. */
  method ReceiveMessage(cache: DocCache, e: Identity.Ed25519, payload: Record, freshId: string, nowIso: string,
                        fetch: string -> Option<Value>, serialize: Record -> Identity.Bytes)
    returns (r: Option<(Message.Message, bool)>)
    modifies cache
    ensures Message.Parse(payload, freshId, nowIso).None? ==> r.None? && cache.docs == old(cache.docs)
    ensures Message.Parse(payload, freshId, nowIso).Some? ==>
      var m := Message.Parse(payload, freshId, nowIso).value;
      && r.Some? && r.value.0 == m
      && (!Transport.Signed(m) ==> !r.value.1 && cache.docs == old(cache.docs))
      && (Transport.Signed(m) ==>
            var res := Resolved(old(cache.docs), m.fromDid, fetch);
            cache.docs == res.cache && r.value.1 == (Verdict(e, m, res.result, serialize) == Transport.Accepted))
    ensures old(cache.Valid()) ==> cache.Valid()
  {
    var parsed := Message.Parse(payload, freshId, nowIso);
    if parsed.None? {
      return None;
    }
    var m := parsed.value;
    if m.signature.None? || m.signature.value == "" {
      return Some((m, false));
    }
    var resolved := cache.Resolve(m.fromDid, fetch);
    var valid := Transport.KeyVerdict(e, m, resolved, serialize) == Transport.Accepted;
    return Some((m, valid));
  }

  /** Whether `send_message` reports delivery: the recipient's DID resolves
      and the POST of the signed message to its domain succeeds. */
  function Delivered(docs: map<string, Value>, e: Identity.Ed25519, id: Identity.Identity, m: Message.Message,
                     fetch: string -> Option<Value>, serialize: Record -> Identity.Bytes,
                     post: (string, Record) -> bool): bool
  {
    && Resolved(docs, m.toDid, fetch).result.Ok?
    && Transport.DidDomain(m.toDid).Ok?
    && post(Transport.MessageUrl(Transport.DidDomain(m.toDid).value),
            Message.Dump(Transport.SignedMessage(e, id, m, serialize)))
  }

  /** `send_message(message, identity)` of this copy: as in the newer one,
      an unresolvable recipient means `False` with nothing signed or posted. */
  method SendMessage(cache: DocCache, e: Identity.Ed25519, id: Identity.Identity, m: Message.Message,
                     fetch: string -> Option<Value>, serialize: Record -> Identity.Bytes,
                     post: (string, Record) -> bool)
    returns (ok: bool, signed: Message.Message, request: Option<(string, Record)>)
    requires cache.Valid()
    modifies cache
    ensures var res := Resolved(old(cache.docs), m.toDid, fetch);
      && cache.docs == res.cache
      && (res.result.Err? ==> !ok && signed == m && request.None?)
      && (res.result.Ok? ==>
            Transport.DidDomain(m.toDid).Ok? &&
            signed == Transport.SignedMessage(e, id, m, serialize) &&
            request == Some((Transport.MessageUrl(Transport.DidDomain(m.toDid).value), Message.Dump(signed))) &&
            ok == post(Transport.MessageUrl(Transport.DidDomain(m.toDid).value), Message.Dump(signed)))
    ensures ok == Delivered(old(cache.docs), e, id, m, fetch, serialize, post)
    ensures cache.Valid()
  {
    var resolved := cache.Resolve(m.toDid, fetch);
    if resolved.Err? {
      return false, m, None;
    }
    signed := m.(signature := Some(Identity.Sign(e, id, serialize(Message.Signable(m)))));
    var parts := Text.Split(m.toDid, ':');
    var domain := Text.ReplaceAll(parts[2], "%3A", ":");
    var url := Transport.Scheme(domain) + "://" + domain + "/anp/message";
    var payload := Message.Dump(signed);
    request := Some((url, payload));
    ok := post(url, payload);
  }
}
