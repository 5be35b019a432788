/**
 * The node's identity: a `did:wba` identifier, an Ed25519 key pair, base64url
 * signatures and the W3C DID document published at `/.well-known/did.json`.
 *
 * Ed25519 itself is not modelled. An `Ed25519` value bundles the three
 * primitives as functions; `Sound` is the one law the node relies on, that a
 * signature made with a private key checks against that key's public half.
 * Lemmas that need the law take it as a precondition.
 */
module Identity {
  import opened Wrappers
  import opened Values
  import Base64Url
  import Text

  type Bytes = seq<Base64Url.byte>

  /** The primitives: the public key of a private key, signing, and checking
      `check(publicKey, signature, data)`. */
  datatype Ed25519 = Ed25519(
    publicOf: Bytes -> Bytes,
    sign: (Bytes, Bytes) -> Bytes,
    check: (Bytes, Bytes, Bytes) -> bool)

  /** Raw public keys are 32 bytes and honest signatures verify. */
  ghost predicate Sound(e: Ed25519)
  {
    && (forall sk :: |e.publicOf(sk)| == 32)
    && (forall sk, data :: e.check(e.publicOf(sk), e.sign(sk, data), data))
  }

  /** A private key and the DID it is published under. */
  datatype Identity = Identity(privateKey: Bytes, did: string)

  /** `f"did:wba:{domain}:{node_name}"` */
  function WbaDid(domain: string, name: string): (did: string)
    ensures Text.StartsWith(did, "did:wba:")
    ensures |did| == 9 + |domain| + |name|
  {
    "did:wba:" + domain + ":" + name
  }

  /** A DID built from a colon-free domain and name splits back into its four
      segments, which is how the transport parses it. */
  lemma WbaDidSegments(domain: string, name: string)
    requires ':' !in domain && ':' !in name
    ensures Text.Split(WbaDid(domain, name), ':') == ["did", "wba", domain, name]
  {
    var parts := ["did", "wba", domain, name];
    assert parts[1..] == ["wba", domain, name] && parts[2..] == [domain, name] && parts[3..] == [name];
    assert Text.Join([domain, name], ":") == domain + ":" + name;
    assert Text.Join(parts[1..], ":") == "wba" + ":" + (domain + ":" + name);
    assert Text.Join(parts, ":") == WbaDid(domain, name);
    assert ':' !in "wba" && ':' !in "did";
    Text.JoinSplit(parts, ':');
  }

  /** `Identity.generate(node_name, domain)`; the fresh key is a parameter. */
  function Generate(name: string, domain: string, freshKey: Bytes): (id: Identity)
    ensures id.did == WbaDid(domain, name) && id.privateKey == freshKey
  {
    Identity(freshKey, WbaDid(domain, name))
  }

  /** `public_key_b64()`: the raw public key in unpadded base64url. */
  function PublicKeyB64(e: Ed25519, id: Identity): (s: string)
    ensures '=' !in s
    ensures Base64Url.Decode(s) == Ok(e.publicOf(id.privateKey))
  {
    Base64Url.RoundTrip(e.publicOf(id.privateKey));
    Base64Url.Encode(e.publicOf(id.privateKey))
  }

  /** `sign(data)` */
  function Sign(e: Ed25519, id: Identity, data: Bytes): (s: string)
    ensures '=' !in s
    ensures Base64Url.Decode(s) == Ok(e.sign(id.privateKey, data))
  {
    Base64Url.RoundTrip(e.sign(id.privateKey, data));
    Base64Url.Encode(e.sign(id.privateKey, data))
  }

  /** `verify(data, signature_b64)`: an undecodable signature is `False`, not
      an exception. */
  function Verify(e: Ed25519, id: Identity, data: Bytes, signatureB64: string): (ok: bool)
    ensures ok ==> Base64Url.Decode(signatureB64).Ok?
    ensures ok ==> e.check(e.publicOf(id.privateKey), Base64Url.Decode(signatureB64).value, data)
  {
    match Base64Url.Decode(signatureB64)
    case Err(_) => false
    case Ok(sig) => e.check(e.publicOf(id.privateKey), sig, data)
  }

  /** `verify_with_public_key(public_key_b64, data, signature_b64)`: a key that
      does not decode, or does not decode to 32 bytes, or a signature that does
      not decode, gives `False`. */
  function VerifyWithPublicKey(e: Ed25519, publicKeyB64: string, data: Bytes, signatureB64: string): (ok: bool)
    ensures ok ==> Base64Url.Decode(publicKeyB64).Ok? && |Base64Url.Decode(publicKeyB64).value| == 32
    ensures ok ==> Base64Url.Decode(signatureB64).Ok?
    ensures ok ==> e.check(Base64Url.Decode(publicKeyB64).value, Base64Url.Decode(signatureB64).value, data)
  {
    match Base64Url.Decode(publicKeyB64)
    case Err(_) => false
    case Ok(pub) =>
      if |pub| != 32 then false
      else
        match Base64Url.Decode(signatureB64)
        case Err(_) => false
        case Ok(sig) => e.check(pub, sig, data)
  }

  /** A node's own signatures verify against itself. */
  lemma SignThenVerify(e: Ed25519, id: Identity, data: Bytes)
    requires Sound(e)
    ensures Verify(e, id, data, Sign(e, id, data))
  {
  }

  /** A node's signatures verify for anyone holding its published key. */
  lemma SignThenVerifyWithPublicKey(e: Ed25519, id: Identity, data: Bytes)
    requires Sound(e)
    ensures VerifyWithPublicKey(e, PublicKeyB64(e, id), data, Sign(e, id, data))
  {
    assert |e.publicOf(id.privateKey)| == 32;
  }

  /** Verification with the published key agrees with self-verification. */
  lemma VerifyWithOwnKey(e: Ed25519, id: Identity, data: Bytes, signatureB64: string)
    requires Sound(e)
    ensures VerifyWithPublicKey(e, PublicKeyB64(e, id), data, signatureB64) == Verify(e, id, data, signatureB64)
  {
    assert |e.publicOf(id.privateKey)| == 32;
  }

  /** The verification method's id: `f"{did}#key-1"`. */
  function KeyId(did: string): string
  {
    did + "#key-1"
  }

  /** The single verification method of the document. */
  function VerificationMethod(e: Ed25519, id: Identity): Record
  {
    map[
      "id" := VStr(KeyId(id.did)),
      "type" := VStr("Ed25519VerificationKey2020"),
      "controller" := VStr(id.did),
      "publicKeyMultibase" := VStr("z" + PublicKeyB64(e, id))]
  }

  /** The JSON-LD contexts a DID document declares. */
  const DidContext := "https://www.w3.org/ns/did/v1"
  const Ed25519Context := "https://w3id.org/security/suites/ed25519-2020/v1"

  /** `to_did_document()`; the creation time is a parameter. */
  function ToDidDocument(e: Ed25519, id: Identity, created: string): (doc: Record)
    ensures doc.Keys == {"@context", "id", "verificationMethod", "authentication", "assertionMethod", "created"}
    ensures doc["id"] == VStr(id.did)
    ensures doc["verificationMethod"] == VList([VObj(VerificationMethod(e, id))])
    ensures doc["authentication"] == doc["assertionMethod"] == VList([VStr(KeyId(id.did))])
  {
    var keyRef := VList([VStr(KeyId(id.did))]);
    map[
      "@context" := VList([VStr(DidContext), VStr(Ed25519Context)]),
      "id" := VStr(id.did),
      "verificationMethod" := VList([VObj(VerificationMethod(e, id))]),
      "authentication" := keyRef,
      "assertionMethod" := keyRef,
      "created" := VStr(created)]
  }

  /** The document's one method is controlled by the DID, carries the key id
      that authentication and assertion refer to, and publishes the key as 'z'
      followed by its base64url text (not the base58btc that a multibase 'z'
      normally announces), which decodes back to the raw public key. */
  lemma DidDocumentKey(e: Ed25519, id: Identity, created: string)
    ensures var vm := ToDidDocument(e, id, created)["verificationMethod"].items[0].fields;
      && vm["id"] == VStr(KeyId(id.did))
      && vm["controller"] == VStr(id.did)
      && vm["publicKeyMultibase"].VStr?
      && var mb := vm["publicKeyMultibase"].s;
         mb != [] && mb[0] == 'z' && Base64Url.Decode(mb[1..]) == Ok(e.publicOf(id.privateKey))
  {
    MethodKey(e, id);
  }

  lemma MethodKey(e: Ed25519, id: Identity)
    ensures var vm := VerificationMethod(e, id);
      && vm["id"] == VStr(KeyId(id.did))
      && vm["controller"] == VStr(id.did)
      && vm["publicKeyMultibase"].VStr?
      && var mb := vm["publicKeyMultibase"].s;
         mb != [] && mb[0] == 'z' && Base64Url.Decode(mb[1..]) == Ok(e.publicOf(id.privateKey))
  {
    MethodOwner(e, id);
    MethodMultibase(e, id);
  }

  lemma MethodOwner(e: Ed25519, id: Identity)
    ensures VerificationMethod(e, id)["id"] == VStr(KeyId(id.did))
    ensures VerificationMethod(e, id)["controller"] == VStr(id.did)
  {
  }

  lemma MethodMultibase(e: Ed25519, id: Identity)
    ensures var mb := VerificationMethod(e, id)["publicKeyMultibase"];
      mb.VStr? && mb.s != [] && mb.s[0] == 'z' && Base64Url.Decode(mb.s[1..]) == Ok(e.publicOf(id.privateKey))
  {
    var mb := "z" + PublicKeyB64(e, id);
    assert VerificationMethod(e, id)["publicKeyMultibase"] == VStr(mb);
    assert mb[1..] == PublicKeyB64(e, id);
  }
}
