/**
 * The node's settings, read once from the environment, and the values derived
 * from them: its DID, the URL of its DID document and the start-up checks.
 */
module Config {
  import Identity
  import Text

  datatype Config = Config(
    provider: string,
    anthropicApiKey: string,
    openaiApiKey: string,
    nodeName: string,
    domain: string,
    donationPct: int,
    port: int)

  /** `Config.did()`: the same identifier a freshly generated identity gets. */
  function Did(c: Config): (did: string)
    ensures did == Identity.WbaDid(c.domain, c.nodeName)
  {
    Identity.WbaDid(c.domain, c.nodeName)
  }

  /** The configured DID is the one `Identity.generate` mints from the
      configured name and domain, whatever key it draws. */
  lemma DidMatchesGeneratedIdentity(c: Config, freshKey: Identity.Bytes)
    ensures Identity.Generate(c.nodeName, c.domain, freshKey).did == Did(c)
  {
  }

  /** `Config.did_document_url()`: always https; the port is spelled out only
      for `localhost`. */
  function DidDocumentUrl(c: Config): (url: string)
    ensures Text.StartsWith(url, "https://" + c.domain)
    ensures c.domain == "localhost" ==> url == "https://localhost:" + Text.IntToStr(c.port) + "/.well-known/did.json"
    ensures c.domain != "localhost" ==> url == "https://" + c.domain + "/.well-known/did.json"
  {
    var portSuffix := if c.domain == "localhost" then ":" + Text.IntToStr(c.port) else "";
    var url := "https://" + c.domain + portSuffix + "/.well-known/did.json";
    assert url[..|"https://" + c.domain|] == "https://" + c.domain;
    url
  }

  const NameError := "ESENCE_NODE_NAME no configurado"
  const KeyError := "ANTHROPIC_API_KEY no configurado"

  /** `Config.validate()`. */
  function Validate(c: Config): (errors: seq<string>)
    ensures NameError in errors <==> c.nodeName == "" || c.nodeName == "yourname"
    ensures KeyError in errors <==> c.provider == "anthropic" && c.anthropicApiKey == ""
    ensures forall e :: e in errors ==> e == NameError || e == KeyError
    ensures |errors| <= 2
    ensures NameError in errors ==> errors[0] == NameError
  {
    var e1 := if c.nodeName == "" || c.nodeName == "yourname" then [NameError] else [];
    var e2 := if c.provider == "anthropic" && c.anthropicApiKey == "" then [KeyError] else [];
    e1 + e2
  }

  /** A configuration without either problem validates cleanly. */
  lemma ValidateClean(c: Config)
    ensures Validate(c) == [] <==>
      (c.nodeName != "" && c.nodeName != "yourname" && (c.provider != "anthropic" || c.anthropicApiKey != ""))
  {
    if Validate(c) == [] {
      assert NameError !in Validate(c);
      assert KeyError !in Validate(c);
    }
  }
}
