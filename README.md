# Esence node core in Dafny

This project models the core of an Esence node. An Esence node is a personal
agent that talks to other nodes over the ANP message protocol. Its parts are:

- **Identity.** The node has an Ed25519 identity. A `did:wba:<domain>:<name>`
  DID names it, and a W3C DID document publishes the public key as a `z`
  multibase value that holds base64url without padding.
- **Store.** The node keeps its "essence" in a store. The store holds
  `identity.json`, `patterns.json`, `context.md`, the JSONL
  `corrections.log`, `peers.json`, `budget.json` and one JSON file per
  conversation thread.
- **Message queue.** Inbound messages are routed by the owner's availability
  mood, the sender's trust and the node's maturity score. They are either
  rejected, auto-approved or held for human review. On approval a correction
  record is logged and the reply is moved to the outbound channel.
- **Peer list.** The node keeps a peer list with trust scores from 0 to 1.
  Peers exchange DID lists by gossip.
- **Transport.** DIDs are resolved to DID documents through an in-memory
  cache. Messages are signed on send and verified on receipt. The repository
  has two transport versions:
  - the newer `esense` one checks the DID format and a 5-minute freshness
    window, and its cache expires after 300 s;
  - the older `esence` one does neither check, and its cache never expires.
- **HTTP server.** The `/anp/message` endpoint applies a per-IP sliding-window
  limit of 30 requests per 60 seconds.
- **Pattern extraction.** Pattern extraction asks the language engine to
  distil the last corrections into reasoning patterns. It removes a Markdown
  fence from the reply and keeps only patterns whose lower-cased description
  is new.
- **Claude Code provider.** This provider builds one tagged prompt from the
  conversation and runs the `claude` command-line tool.
- **Maturity.** The maturity score is a weighted mean of three sigmoids. It
  maps to a label.
- **Configuration.** The configuration derives the node's DID and DID
  document URL, and it validates the settings.

## How the modules map to the source

Each module corresponds to one source file:

| module | file |
|---|---|
| `Store` | `esence/essence/store.py` |
| `Peers` | `esense/protocol/peers.py` |
| `Queue` | `esense/core/queue.py` |
| `Identity` | `esence/core/identity.py` |
| `Base64Url` | the base64url helpers in `esence/core/identity.py` |
| `Message` | `esence/protocol/message.py` |
| `Transport` | `esense/protocol/transport.py` |
| `LegacyTransport` | `esence/protocol/transport.py` |
| `RateLimit` | the rate limiter and ANP endpoint of `esense/interface/server.py` |
| `Patterns` | `esense/essence/patterns.py` |
| `ClaudeCode` | `esense/essence/providers/claude_code.py` |
| `Maturity` | `esence/essence/maturity.py` |
| `Config` | `esence/config.py` |
| `Node` | the message-handling parts of `esence/core/node.py` |

`Wrappers`, `Values`, `Seqs` and `Text` are shared helpers:

- `Values` models JSON with `Record = map<string, Value>`. It also provides
  Python's `dict.get` and `setdefault`, and truthiness. The Python merge
  `{**a, **b}` becomes `a + b`.
- `Text` provides `split`, `join`, `strip`, `replace`, `lower` and
  `startswith`.
- `Seqs` provides Python slicing with negative bounds and a stable sort.

Objects whose methods update their own state in place are classes:

- `Store.EssenceStore`: each file is a field, and an absent file is `None`.
- `Queue.MessageQueue`
- `Peers.PeerManager`
- `Transport.DidCache` and `LegacyTransport.DocCache`: the module-level DID
  caches.
- `RateLimit.RateLimiter`: the module-level `_rate_limit` dictionary.
- `Node.EsenceNode`

Each mutating method is specified by a pure function of the old state, and the
lemmas are proved about those functions.

Anything that leaves the process is a parameter rather than a call:

- Ed25519, through a function-valued `Identity.Ed25519` and the `Sound`
  hypothesis that ties signing to verification;
- JSON serialisation and decoding;
- HTTP GET and POST;
- ISO-8601 parsing and the clock;
- UUID generation;
- the language engine;
- the CLI subprocess.

## Model

| member | source | states |
|---|---|---|
| Base64Url.Encode | esence/core/identity.py:26-28 | `_b64url` output carries no `=` and uses only the URL-safe alphabet |
| Base64Url.EncodeBodyLength | esence/core/identity.py:26-28 | unpadded length is 0, 2 or 3 mod 4 according to the byte count mod 3 |
| Base64Url.RStripPadding | esence/core/identity.py:28 | stripping `=` from a padded encoding gives back exactly the unpadded text |
| Base64Url.RepadEncode | esence/core/identity.py:31-36 | the pad count computed by `_b64url_decode` restores the standard padded encoding |
| Base64Url.RoundTrip | esence/core/identity.py:26-36 | `_b64url_decode(_b64url(b)) == b` for every byte string |
| Identity.WbaDid | esence/core/identity.py:55 | a generated DID starts with `did:wba:` and has the length of its parts plus separators |
| Identity.WbaDidSegments | esence/core/identity.py:55 | splitting a DID built from colon-free parts on `:` gives `did`, `wba`, domain, name |
| Identity.Generate | esence/core/identity.py:51-56 | the identity's DID is the `did:wba` of its domain and name, with the fresh key |
| Identity.PublicKeyB64 | esence/core/identity.py:148-151 | decodes back to the raw public key of the private key, and has no padding |
| Identity.Sign | esence/core/identity.py:118-121 | decodes back to the Ed25519 signature of the data, and has no padding |
| Identity.Verify | esence/core/identity.py:123-130 | true only when the signature decodes and checks against the node's own key |
| Identity.VerifyWithPublicKey | esence/core/identity.py:132-142 | true only when the key decodes to 32 bytes, the signature decodes and the check passes |
| Identity.SignThenVerify | esence/core/identity.py:118-130 | a node verifies its own signature over any data |
| Identity.SignThenVerifyWithPublicKey | esence/core/identity.py:118-151 | a peer holding the published key verifies the node's signature |
| Identity.VerifyWithOwnKey | esence/core/identity.py:123-151 | verifying with the published key agrees with verifying with the own key |
| Identity.ToDidDocument | esence/core/identity.py:153-174 | the document has exactly the six W3C keys, `id` is the DID, and one verification method is referenced by both `authentication` and `assertionMethod` |
| Identity.DidDocumentKey | esence/core/identity.py:156-169 | the verification method is `<did>#key-1`, of type Ed25519VerificationKey2020, controlled by the DID, with `publicKeyMultibase` = `z` + public key |
| Message.TypeFromName | esence/protocol/message.py:14-18 | a parsed type name prints back as the same string |
| Message.TypeNameRoundTrip | esence/protocol/message.py:14-18 | every message type survives printing and parsing |
| Message.StatusFromName | esence/protocol/message.py:21-26 | a parsed status name prints back as the same string |
| Message.StatusNameRoundTrip | esence/protocol/message.py:21-26 | every status survives printing and parsing |
| Message.ClampPct | esence/protocol/message.py:98-101 | `available_pct` is within 0..100, unchanged inside that range, 0 below it and 100 above it |
| Message.StrList | esence/protocol/message.py:84 | `known_peers` validates only when every item is a string, keeping them in order |
| Message.Parse | esence/protocol/message.py:37-114 | a parsed message is well formed and its type, sender and recipient come from the payload |
| Message.ParseDefaults | esence/protocol/message.py:40-114 | missing fields take the defaults: version 0.2, fresh thread id, pending status, current timestamp, no signature, empty metadata |
| Message.ParseUnknownType | esence/protocol/message.py:104-114 | a payload without a known type string is rejected |
| Message.DumpEnvelope | esence/protocol/message.py:37-49 | the dump carries the envelope fields under their wire names |
| Message.DumpParse | esence/protocol/message.py:37-114 | parsing the dump of a well-formed message gives the same message |
| Message.Signable | esence/protocol/message.py:53-58 | the signable form is the dump minus `signature` and nothing else |
| Message.SignableIgnoresSignature | esence/protocol/message.py:53-58 | the signable form does not depend on the signature |
| Message.SignableSeparatesContent | esence/protocol/message.py:53-58 | equal signable forms imply equal sender, recipient, content, thread, timestamp and type |
| Config.Did | esence/config.py:36-38 | the configured DID is the `did:wba` DID of domain and node name |
| Config.DidMatchesGeneratedIdentity | esence/config.py:36-38 | the configured DID is the one an identity generated from the same settings carries |
| Config.DidDocumentUrl | esence/config.py:40-43 | the URL is always https; `localhost` gets the port and other domains do not |
| Config.Validate | esence/config.py:45-53 | the name error is reported iff the name is empty or `yourname`, and the key error iff the provider is anthropic with an empty key |
| Config.ValidateClean | esence/config.py:45-53 | no errors iff the name is set and an anthropic provider has a key |
| Maturity.WeightsSumToOne | esence/essence/maturity.py:48-52 | the weights 0.40, 0.35 and 0.25 add up to 1 |
| Maturity.Combine | esence/essence/maturity.py:48-54 | the score is clamped into [0, 1] and is the weighted mean when the factors are in range |
| Maturity.CombineMonotone | esence/essence/maturity.py:48-54 | raising any factor never lowers the score |
| Maturity.CalculateMonotone | esence/essence/maturity.py:23-54 | more corrections, patterns or context words never lower maturity, for any monotone sigmoid |
| Maturity.LabelBands | esence/essence/maturity.py:57-67 | each label holds exactly on its band of the score |
| Maturity.LabelMonotone | esence/essence/maturity.py:57-67 | a higher score never gets a less mature label |
| Store.Entries | esence/essence/store.py:116-121 | a record is read back iff its line is in the log; at most one record per line, and exactly one per line when no line is blank |
| Store.EntriesBlank | esence/essence/store.py:116-121 | a blank line anywhere in the log is skipped: removing it changes nothing read back |
| Store.EntriesAppend | esence/essence/store.py:110-121 | appending a correction line adds exactly that record at the end of what is read back |
| Store.UpsertedMerges | esence/essence/store.py:136-143 | the first entry with the peer's DID is merged with it in place, and the other entries are kept |
| Store.UpsertedAppends | esence/essence/store.py:144-145 | with no entry of that DID, the peer is appended |
| Store.FreshBudget | esence/essence/store.py:49-56 | a new budget has zero usage and calls, and a 500 000-token limit |
| Store.EssenceStore.constructor | esence/essence/store.py:17-22 | a new store has no files and no threads |
| Store.EssenceStore.Initialize | esence/essence/store.py:24-56 | each missing file is created with its initial content, and existing files are untouched |
| Store.EssenceStore.WriteIdentity | esence/essence/store.py:68-69 | identity.json is replaced, and nothing else changes |
| Store.EssenceStore.WritePatterns | esence/essence/store.py:81-82 | patterns.json is replaced, and nothing else changes |
| Store.EssenceStore.AddPattern | esence/essence/store.py:84-87 | the pattern is appended and the earlier patterns are kept |
| Store.EssenceStore.AppendContext | esence/essence/store.py:102-104 | context becomes old + `\n## section\n\ncontent\n` |
| Store.EssenceStore.AppendCorrection | esence/essence/store.py:110-114 | the correction, with a default timestamp, is the new last entry read back, and earlier entries are kept |
| Store.EssenceStore.WritePeers | esence/essence/store.py:133-134 | peers.json is replaced, and nothing else changes |
| Store.EssenceStore.UpsertPeer | esence/essence/store.py:136-145 | peers.json becomes the upsert of the peer into the old list |
| Store.EssenceStore.WriteBudget | esence/essence/store.py:157-158 | budget.json is replaced, and nothing else changes |
| Store.EssenceStore.RecordUsage | esence/essence/store.py:160-165 | on numeric counters, used tokens grow by the amount and calls by one (an int counter stays int, a float stays float, a missing one starts at 0), the limit and other budget keys are kept, and an over-budget store stays over budget |
| Store.EssenceStore.WriteThread | esence/essence/store.py:186-187 | only that thread file changes |
| Store.EssenceStore.AppendToThread | esence/essence/store.py:189-192 | the thread file becomes the old thread (empty if missing) followed by the message, and no other file changes |
| Store.OverBudgetDefaults | esence/essence/store.py:167-171 | over budget iff the used-token number reaches the limit number (a bool reads as 0 or 1), with 0 and 500 000 as defaults; a missing budget is never over |
| Peers.ClampTrust | esense/protocol/peers.py:15-73 | trust stays in [0, 1] and is unchanged inside it |
| Peers.PeerIndex | esense/protocol/peers.py:35-39 | the index found is that of a peer with the DID |
| Peers.FindPeer | esense/protocol/peers.py:35-39 | None iff no peer has the DID; otherwise a listed peer with it |
| Peers.UpdatedFields | esense/protocol/peers.py:41-55 | a new peer gets trust 0.5, zero messages and no last-seen; the keyword fields override; `did` and `updated_at` are always set |
| Peers.UpsertShape | esense/protocol/peers.py:41-57 | an existing peer is replaced in place and the others are kept; a new one is appended |
| Peers.Without | esense/protocol/peers.py:59-61 | no remaining peer has the DID, and every remaining peer was listed |
| Peers.WithoutKeeps | esense/protocol/peers.py:59-61 | every other peer is kept |
| Peers.TrustedPeers | esense/protocol/peers.py:89-91 | the result is the listed peers whose trust is at least the minimum |
| Peers.MoreTrustedPreorder | esense/protocol/peers.py:101 | the sort key orders peers totally |
| Peers.GossipSelection | esense/protocol/peers.py:97-102 | at most `max_peers` peers, each with trust ≥ 0.4 and listed |
| Peers.GossipSelectionTop | esense/protocol/peers.py:97-102 | exactly `max_peers` (Python-slice bound) of the trusted peers are chosen, drawn from them, and every trusted peer left out has trust no higher than any chosen one |
| Peers.GossipPayloadShape | esense/protocol/peers.py:97-102 | the payload is the DIDs of the selection, sorted by trust descending |
| Peers.GossipedAppends | esense/protocol/peers.py:104-121 | merging keeps the old peers and appends only unknown, non-source DIDs at trust 0.2 with the source |
| Peers.GossipedKnows | esense/protocol/peers.py:104-121 | every incoming DID other than the source is known afterwards |
| Peers.GossipedDistinct | esense/protocol/peers.py:104-121 | the appended peers are exactly one per new DID (incoming, not the source, not yet known): each is gossip from the source about a new DID, and their DIDs are pairwise distinct |
| Peers.GossipedCount | esense/protocol/peers.py:104-121 | the number of peers added is exactly the number of new DIDs, so at most one per incoming DID |
| Peers.GossipedNothingNew | esense/protocol/peers.py:104-121 | gossip about known peers changes nothing |
| Peers.DisplayName | esense/protocol/peers.py:126-134 | the alias if set; otherwise `@name` for a DID with four parts, or the DID itself |
| Peers.DisplayNameOfWbaDid | esense/protocol/peers.py:126-134 | an unaliased wba DID displays as `@name` |
| Peers.DisplayNameShortDid | esense/protocol/peers.py:131-134 | a DID with fewer than four parts displays as itself |
| Peers.DisplayNameLongDid | esense/protocol/peers.py:131-133 | an unaliased DID with four or more segments displays as `@` and its fourth segment |
| Peers.DisplayNamePortDid | esense/protocol/peers.py:131-133 | an unaliased DID whose domain holds an unescaped port displays as `@` and the port |
| Peers.EnsuredFinds | esense/protocol/peers.py:69-79 | after ensuring a peer, it can be found |
| Peers.PeerManager.constructor | esense/protocol/peers.py:22-23 | the manager wraps the given store |
| Peers.PeerManager.AddOrUpdate | esense/protocol/peers.py:41-57 | returns the merged peer, and peers.json becomes its upsert |
| Peers.PeerManager.Remove | esense/protocol/peers.py:59-61 | the DID is no longer found, and only peers.json changes |
| Peers.PeerManager.AdjustTrust | esense/protocol/peers.py:67-75 | the new score is the clamp of the current trust plus delta, written through an upsert |
| Peers.PeerManager.RecordInteraction | esense/protocol/peers.py:77-87 | the message count goes up by one, last-seen is now, and trust moves +0.02 or -0.05, clamped |
| Peers.PeerManager.Trusted | esense/protocol/peers.py:89-91 | membership iff listed and trust ≥ minimum |
| Peers.PeerManager.MergeGossip | esense/protocol/peers.py:104-121 | peers.json becomes the gossip merge, and the count returned is the number of peers added, which equals the number of distinct incoming DIDs that are neither the source nor already known |
| Queue.RoutePriority | esense/core/queue.py:67-102 | rejected iff the sender is blocked or the mood is dnd; auto-approved iff the toggle is on, or available with trust ≥ 0.3, or moderate with maturity ≥ threshold and trust ≥ 0.5 |
| Queue.UnknownSenderNeedsToggle | esense/core/queue.py:62-102 | an unknown sender (trust 0) is auto-approved only by the global toggle |
| Queue.RouteMonotone | esense/core/queue.py:82-102 | more trust, more maturity or a lower threshold never make the routing less permissive |
| Queue.Sender | esense/core/queue.py:63-65 | the first listed peer whose DID is the message's `from_did` is the sender, unless that record is empty; with no such peer there is no sender |
| Queue.Stamp | esense/core/queue.py:56-104 | the stored message gains exactly `thread_id` and `status` |
| Queue.StampOne | esense/core/queue.py:150-152 | only messages of that thread get the new status |
| Queue.Stamped | esense/core/queue.py:149-153 | every message of the list is stamped and the length is kept |
| Queue.StampedThreadsIdempotent | esense/core/queue.py:144-153 | marking the same status twice is the same as marking it once |
| Queue.FinalReply | esense/core/queue.py:165-168 | the edited reply if given, otherwise the proposed one |
| Queue.CorrectionOf | esense/core/queue.py:171-178 | the correction pairs the proposed reply with the final one and carries a timestamp |
| Queue.ApprovedMessage | esense/core/queue.py:188-192 | status approved; content replaced only by a non-empty final reply |
| Queue.Restored | esense/core/queue.py:207-215 | exactly the threads whose last message awaits review, mapped to that message |
| Queue.RestoredAfterAppend | esense/core/queue.py:207-215 | appending to a thread changes restoration only for that thread |
| Queue.RestoredAfterStamp | esense/core/queue.py:144-215 | a thread marked with another status is not restored, and other threads are unaffected |
| Queue.MessageQueue.constructor | esense/core/queue.py:26-31 | empty channels, no pending messages, no events |
| Queue.MessageQueue.RouteInbound | esense/core/queue.py:59-102 | the imperative routing chain picks exactly the route `RouteOf` defines for the stored sender and budget |
| Queue.MessageQueue.EnqueueInbound | esense/core/queue.py:52-111 | stamps and persists the message; rejects without queueing, or pending + inbound + event; a blocked sender is always rejected |
| Queue.MessageQueue.PeekPending | esense/core/queue.py:117-122 | exactly the pending messages whose status is pending review |
| Queue.MessageQueue.PendingCount | esense/core/queue.py:227-228 | the number of pending threads, at least the number awaiting review |
| Queue.MessageQueue.EnqueueOutbound | esense/core/queue.py:128-134 | the message gets a thread id (an existing one is kept), is persisted, queued and announced |
| Queue.MessageQueue.MarkStatus | esense/core/queue.py:144-155 | the pending copy and every message of the thread on disk get the status, and one event is emitted |
| Queue.MessageQueue.Approve | esense/core/queue.py:157-195 | an unknown thread gives None with nothing changed; otherwise it is popped, the correction logged, the thread marked approved and the message queued outbound |
| Queue.MessageQueue.Conclude | esense/core/queue.py:165-195 | after the pop: the correction is logged, the thread marked approved and the approved message queued outbound once, with the events in that order |
| Queue.MessageQueue.MarkAndQueue | esense/core/queue.py:192-194 | the thread's stored messages are marked approved and the message is appended to its thread and to the outbound queue |
| Queue.ApprovedKeepsThreadId | esense/core/queue.py:188-192 | approving a message never changes its thread id |
| Queue.MessageQueue.LogCorrection | esense/core/queue.py:171-186 | a proposed reply logs one correction and emits `correction_logged` with the new count |
| Queue.MessageQueue.Reject | esense/core/queue.py:197-201 | the thread leaves pending and is marked rejected on disk |
| Queue.MessageQueue.RestorePending | esense/core/queue.py:207-215 | pending gains exactly the restored threads |
| Transport.LastIndexOf | esense/protocol/transport.py:24 | the index is -1 or the position of the character |
| Transport.DidReMeaning | esense/protocol/transport.py:24 | the regex holds iff the string is `did:wba:` + non-empty domain chars + `:` + non-empty name chars |
| Transport.DidReOfWbaDid | esense/protocol/transport.py:24 | a DID generated from valid parts passes the format check |
| Transport.DidReAcceptsPort | esense/protocol/transport.py:24 | a DID whose domain carries an escaped `%3A` port passes |
| Transport.DidReNeedsName | esense/protocol/transport.py:24 | a DID without a name segment fails |
| Transport.TrailingNewlineAccepted | esense/protocol/transport.py:24-131 | Python's `$` lets every well-formed DID followed by a newline through the regex, while the intended anchor rejects it |
| Transport.DecodeDomainReplaces | esense/protocol/transport.py:46-49 | decoding the domain replaces every `%3A` by `:` |
| Transport.DidDomain | esense/protocol/transport.py:42-49 | succeeds iff there are at least four parts and the second is `wba`, giving the third part decoded |
| Transport.DomainOfWbaDid | esense/protocol/transport.py:42-49 | the domain of a generated DID is the domain it was built from |
| Transport.Scheme | esense/protocol/transport.py:53-99 | http exactly for localhost or 127.0.0.1 domains |
| Transport.DocumentUrl | esense/protocol/transport.py:51-54 | the document URL is https, except for local domains |
| Transport.MessageUrl | esense/protocol/transport.py:97-100 | the message URL is https, except for local domains |
| Transport.SameOrigin | esense/protocol/transport.py:51-100 | document and message URLs share scheme and domain |
| Transport.Resolved | esense/protocol/transport.py:27-62 | a success is what the cache now holds for the DID; a failure leaves the cache as before or without the expired entry |
| Transport.CacheTtlWindow | esense/protocol/transport.py:23-39 | a document resolved at t is served from the cache, without fetching, until t + 300 |
| Transport.InvalidDidNeverFetched | esense/protocol/transport.py:42-44 | a malformed DID fails with no network access |
| Transport.ResolvedValid | esense/protocol/transport.py:42-61 | the cache only ever holds DIDs that parse |
| Transport.DidCache.constructor | esense/protocol/transport.py:22 | the cache starts empty |
| Transport.DidCache.Resolve | esense/protocol/transport.py:27-62 | result and new cache are those of `Resolved` |
| Transport.FirstKey | esense/protocol/transport.py:65-72 | the key of the first method with a `z` multibase, minus the `z`; None iff there is none |
| Transport.ExtractKey | esense/protocol/transport.py:65-72 | a non-object document raises; a document without methods has no key |
| Transport.KeyOfOwnDocument | esense/protocol/transport.py:65-72 | the key extracted from a node's own document is its published key |
| Transport.Precheck | esense/protocol/transport.py:128-148 | passes only for a valid DID format, a parseable timestamp at most 300 s away, and a signature |
| Transport.KeyVerdict | esense/protocol/transport.py:150-170 | accepted only when the document resolved, held a key and the signature verifies over the unsigned copy's bytes |
| Transport.ReceiveFailClosed | esense/protocol/transport.py:115-170 | an accepted message passed every check |
| Transport.HonestKeyAccepted | esense/protocol/transport.py:150-166 | a message signed by the identity whose document is resolved is accepted |
| Transport.HonestMessageAccepted | esense/protocol/transport.py:115-166 | an honest, fresh, well-addressed message passes the precheck and the key check |
| Transport.KeyVerdictOfKey | esense/protocol/transport.py:150-166 | a verifying key in the document gives acceptance |
| Transport.ReceiveMessage | esense/protocol/transport.py:115-170 | returns the parsed message with validity = precheck ∧ key verdict, touching the cache only after the precheck |
| Transport.SignedMessage | esense/protocol/transport.py:94 | signing changes only the signature, and the signable form is kept |
| Transport.SendMessage | esense/protocol/transport.py:75-112 | resolution failure returns false unsent; otherwise the signed dump is posted to the recipient's message URL and the post's outcome is returned |
| LegacyTransport.Resolved | esence/protocol/transport.py:22-53 | a success is cached, and cached entries are never evicted |
| LegacyTransport.CachedForever | esence/protocol/transport.py:29-30 | once resolved, a DID is served from the cache forever, whatever the fetcher |
| LegacyTransport.InvalidDidNeverFetched | esence/protocol/transport.py:33-35 | a malformed, uncached DID fails with no network access |
| LegacyTransport.DocCache.constructor | esence/protocol/transport.py:19 | the cache starts empty |
| LegacyTransport.DocCache.Resolve | esence/protocol/transport.py:22-53 | result and new cache are those of `Resolved` |
| LegacyTransport.Verdict | esence/protocol/transport.py:117-144 | acceptance needs a signature and the key check |
| LegacyTransport.NewerIsStricter | esence/protocol/transport.py:117-144 | whatever the newer transport accepts, the older one accepts too |
| LegacyTransport.AcceptsWithoutFormatOrFreshness | esence/protocol/transport.py:117-144 | a stale or badly formatted but honestly signed message is accepted here, and rejected by the newer check |
| LegacyTransport.ReceiveMessage | esence/protocol/transport.py:106-144 | returns the parsed message with validity = the verdict |
| LegacyTransport.SendMessage | esence/protocol/transport.py:66-103 | same as the newer send, over the never-expiring cache |
| RateLimit.Pruned | esense/interface/server.py:60 | keeps exactly the arrivals less than 60 s old |
| RateLimit.PrunedKeepsRecent | esense/interface/server.py:60 | pruning keeps a window of recent arrivals intact |
| RateLimit.Checked | esense/interface/server.py:58-63 | admitted iff fewer than 30 recent arrivals; the arrival is recorded only when admitted |
| RateLimit.CheckedBounded | esense/interface/server.py:60-63 | no IP ever holds more than 30 arrivals |
| RateLimit.CheckedIsolated | esense/interface/server.py:60-63 | other IPs' windows are untouched |
| RateLimit.CheckedAdmits | esense/interface/server.py:58-63 | a request with room left and every earlier arrival inside the window is admitted and appended |
| RateLimit.RanFillsUp | esense/interface/server.py:57-63 | requests below the limit within the window are all admitted and recorded |
| RateLimit.ThirtyFirstRefused | esense/interface/server.py:29-63 | 30 requests within 60 s are admitted and the 31st is refused |
| RateLimit.RateLimiter.constructor | esense/interface/server.py:29 | no arrivals are recorded |
| RateLimit.RateLimiter.Admit | esense/interface/server.py:57-63 | the admission and the new windows are those of `Checked` |
| RateLimit.ReceiveAnpMessage | esense/interface/server.py:53-84 | 429 iff limited, 400 iff the body is not JSON, 500 iff verification raised, 401 iff the signature is invalid without the dev bypass, else 200 |
| Patterns.MeaningfulOf | esense/essence/patterns.py:54-57 | exactly the corrections with a truthy original, a truthy edit and a difference between them |
| Patterns.Pairs | esense/essence/patterns.py:63-64 | one original/edited pair per meaningful correction |
| Patterns.Kept | esense/essence/patterns.py:84-86 | drops the opening fence line, and the closing one only when present |
| Patterns.FencedText | esense/essence/patterns.py:83-86 | a fenced reply is the join of the kept lines |
| Patterns.UnfencedBlock | esense/essence/patterns.py:83-86 | a closed fence block unwraps to its body |
| Patterns.UnfencedUnclosed | esense/essence/patterns.py:83-86 | an unclosed fence block unwraps to its body |
| Patterns.Stamped | esense/essence/patterns.py:108-110 | `extracted_at` is set; `confidence` 0.5 and `examples` [] only by default |
| Patterns.StampedKeepsDescription | esense/essence/patterns.py:105-110 | stamping keeps the description |
| Patterns.FreshDistinct | esense/essence/patterns.py:98-113 | added descriptions are new, non-empty and pairwise distinct |
| Patterns.FreshCovers | esense/essence/patterns.py:98-113 | every non-empty candidate description ends up known |
| Patterns.FreshStamped | esense/essence/patterns.py:104-111 | every added pattern is a stamped candidate |
| Patterns.Extraction | esense/essence/patterns.py:48-96 | no corrections or no meaningful ones give 0 without calling the engine; anything added needs a reply that decodes to a non-empty list |
| Patterns.ExtractionAddsOnlyNew | esense/essence/patterns.py:98-113 | extraction adds only new, distinct descriptions |
| Patterns.Deduplicate | esense/essence/patterns.py:102-113 | the loop computes the fresh, stamped patterns |
| Patterns.ExtractPatterns | esense/essence/patterns.py:42-119 | returns the number added (None where Python raises on a pattern that is not an object or whose description is not a string); writes patterns.json only when something was added |
| ClaudeCode.Block | esense/essence/providers/claude_code.py:100-106 | a human block iff the role is missing or `user`, otherwise an assistant block |
| ClaudeCode.Blocks | esense/essence/providers/claude_code.py:100-106 | one block per message |
| ClaudeCode.PromptWithoutMessages | esense/essence/providers/claude_code.py:98-108 | with no messages the prompt is just the system block |
| ClaudeCode.PromptAppend | esense/essence/providers/claude_code.py:100-108 | one more message appends a separator and its block |
| ClaudeCode.PromptStartsWithSystem | esense/essence/providers/claude_code.py:98-108 | every prompt starts with the system block |
| ClaudeCode.BuildPrompt | esense/essence/providers/claude_code.py:91-108 | the loop builds exactly the joined prompt |
| ClaudeCode.Complete | esense/essence/providers/claude_code.py:36-84 | timeout and missing CLI give the fixed texts; a non-zero exit gives `[error: …]` with at most 200 stderr characters; success gives the stripped output with len // 4 token estimates |
| Node.Summarize | esence/core/node.py:436-444 | the entry carries the thread id, the first message's `from_did`, the last message's status and timestamp (the key the recent list is sorted on), the thread's length, and a preview that is the first min(80, length) characters of the last content |
| Node.NewerPreorder | esence/core/node.py:445 | the timestamp order is total |
| Node.SummariesSpec | esence/core/node.py:430-444 | one summary for each listed non-empty thread, and nothing else |
| Node.RecentSpec | esence/core/node.py:428-446 | the recent list is sorted newest first, at most `limit` long, drawn from the summaries, and complete when the limit allows |
| Node.ContextEntry | esence/core/node.py:233-236 | role `assistant` iff the node itself sent the message, otherwise `user` |
| Node.ContextMessages | esence/core/node.py:231-239 | at most 10 entries |
| Node.EntriesAppend | esence/core/node.py:232-239 | a message adds one entry iff it has content |
| Node.EntriesFrom | esence/core/node.py:232-239 | every entry comes from a history message with content |
| Node.ContextSkipsEmpty | esence/core/node.py:238 | an empty message adds nothing to the context |
| Node.ExtractionsPerFive | esence/core/node.py:315-319 | counts 1..n trigger extraction n // 5 times |
| Node.ApprovalTriggers | esence/core/node.py:316-319 | an approval triggers extraction iff it logs a correction that brings the count to a multiple of 5 |
| Node.KnownPeers | esence/core/node.py:216 | at most one DID per listed item |
| Node.OutboundStatus | esence/core/node.py:296 | sent iff delivered, otherwise back to pending review |
| Node.EsenceNode.constructor | esence/core/node.py:37-47 | queue and peer manager share the node's store |
| Node.EsenceNode.HandleInbound | esence/core/node.py:203-239 | a peer intro merges the gossip and records the interaction; other messages record the interaction and give the context built from the thread |
| Node.EsenceNode.SendOutbound | esence/core/node.py:287-305 | without an identity or a parsable message the store, the queue and the cache are unchanged; otherwise it sends through the cache (which becomes the resolution's cache), marks the thread `sent` or `pending_human_review` on disk and in `_pending` with one status event, records a successful interaction with the recipient only on delivery, and leaves the queues and every other store file as they were |
| Node.EsenceNode.Settle | esence/core/node.py:295-302 | after a send, the thread is marked `sent` or `pending_human_review` on disk and in `_pending` with one status event, and only a delivery records a successful interaction; the queues and the other store files are kept |

## Left out

- Floating-point numbers such as trust scores and maturity are modelled as
  Dafny `real`. Rounding to four places in `calculate_maturity` is not
  modelled.
- Clock readings are whole seconds. `time.time()` in the rate limiter and in
  the DID-document cache, the `now` of the timestamp window, and parsed
  message timestamps are `int`s in the model. Sub-second arrivals, cache
  ages and clock skews at the exact 60 s and 300 s boundaries are therefore
  not modelled.
- Message.Parse: pydantic's lax-mode coercions are not modelled. The model
  accepts `available_pct` only as a JSON number and `monthly_remaining` only
  as a JSON integer. A numeric string or a bool for either field, or a whole
  float such as `1000.0` for `monthly_remaining`, is rejected by the model
  where pydantic would coerce it.
- Transport.Precheck: the receive chain checks the sender with the
  intended anchored pattern `Transport.DidRe`, not the as-written
  `Transport.DidReAsWritten`. A sender DID followed by one `\n` therefore
  fails the precheck in the model, where the source lets it through (see
  Findings).
- Transport.ReceiveMessage: inherits the `Transport.Precheck` choice above.
  A sender DID with a trailing `\n` is refused in the model; in the source
  it passes the format check and reaches the key lookup.
- Store.EssenceStore.IsOverBudget: a counter or limit in `budget.json` that
  is not a number or bool reads as its default (0 or 500 000). In Python,
  comparing such a value with a number raises `TypeError`, while two
  strings or two lists are compared lexicographically. Adding to a
  non-numeric counter raises or concatenates, so
  `Store.EssenceStore.RecordUsage` requires numeric counters.
- Maturity.Calculate takes the number of corrections, of patterns and of
  context words as parameters. Reading the store and counting words with
  `context.split()` are not modelled.
- The sigmoid in maturity is a parameter. `Maturity.CalculateMonotone` assumes
  only that it is monotone.
- Ed25519, JSON serialisation and decoding, HTTP, ISO-8601 parsing, the clock
  and UUIDs are parameters. Their implementations are not part of this model.
  `Identity.Sound` states the only property of Ed25519 used.
- The language engine and the `claude` subprocess are parameters. So are the
  environment clean-up and the timeout value.
- Reading the store's files is modelled by reading fields. So are
  `identity.json` keys and the private-key PEM files, `Identity.load`,
  `save` and `_extract_raw_ed25519`.
- asyncio concerns are not modelled: the queue's `asyncio.Queue` objects
  become sequences, and `dequeue_*`, `qsize_*`, `subscribe` and the
  subscribers' callbacks are left out. `_emit` becomes an event list, with
  the subscriber exceptions it swallows left out.
- `Queue.MessageQueue.PeekPending` returns a map, so Python's dictionary
  ordering of the pending messages is not modelled.
- `Queue.MessageQueue.MarkStatus` models the copies on disk and in
  `_pending` separately. Python aliasing between the pending dictionary and
  the message object passed in is not modelled.
- `Queue.MessageQueue.EnqueueInbound` requires a string `thread_id`
  (`Queue.ThreadIdIsString`). So do `Queue.Stamp`,
  `Queue.ApprovedKeepsThreadId`, `Queue.MessageQueue.EnqueueOutbound`,
  `Queue.MessageQueue.Approve` (for the pending entry),
  `Queue.MessageQueue.Conclude` and `Queue.MessageQueue.MarkAndQueue`. The
  node's callers always pass `model_dump()` output, whose `thread_id` is a
  string. A payload with a non-string id would be written to a file named
  after its `str()`.
- Peers.TrustedPeers: `Peers.TrustOf` reads a `trust_score` that is not a
  JSON number (a string, a list, null or a bool) as 0. In Python,
  `p.get("trust_score", 0) >= min_trust` raises `TypeError` for a string, a
  list or null, and compares a bool as 0 or 1. The same reading is used by
  `Peers.GossipSelection` and `Peers.GossipPayloadShape`, whose sort would
  raise on such a value.
- Peers.PeerManager.AdjustTrust: a non-number `trust_score` reads as the
  default 0.5 (`Peers.CurrentTrust`). Python raises `TypeError` on
  `current + delta` for a string, a list or null, and adds to a bool as 0
  or 1.
- Peers.PeerManager.RecordInteraction: the trust update reads
  `trust_score` as `Peers.PeerManager.AdjustTrust` does. A `message_count`
  that is not a JSON integer reads as 0 (`Peers.MessageCount`), so the
  count restarts at 1. Python adds 1 to a float (keeping it a float) or a
  bool, and raises `TypeError` for a string, a list or null.
- Queue.MessageQueue.RouteInbound: `Queue.SenderTrust` and `Queue.Routed`
  read a non-number `trust_score` as 0 and a non-number
  `autonomy_threshold` as 0.6. In Python the routing comparisons raise
  `TypeError` for a string, a list or null, and treat a bool as 0 or 1.
  `Queue.MessageQueue.EnqueueInbound` inherits this reading.
- Wrong-typed JSON fields read as defaults in the model, where Python would
  raise or print them:
  - `Node.KnownPeers` drops non-string DIDs, and reads a `known_peers` that
    is not a list as [];
  - `Node.StrField` reads non-strings as "";
  - `Node.Summarize` reads a non-string content as "", and a non-string
    `timestamp` as "" where Python keeps the raw value;
  - `Node.TriggersExtraction` reads a non-integer count as 0;
  - `ClaudeCode.Content` reads non-string content as "".
- `Text.Lower` folds ASCII letters only.
- `Patterns.Kept` splits on `\n` only, where Python's `splitlines` also
  splits on other line separators.
- `Values.Value` equality is structural. The Python comparison `1 == 1.0`
  in `Patterns.Meaningful` is not modelled.
- `Node.EsenceNode.HandleInbound`: the engine call, storing of
  `proposed_reply`, the auto-approve dispatch and the WebSocket broadcasts
  are not modelled. The contract covers only peer bookkeeping and the
  context handed to the engine.
- `Node.EsenceNode` uses the `esense` queue and peer manager. The `esence`
  versions, `esence/core/queue.py` and `esence/protocol/peers.py`, are not
  part of this model.
- The mood and the auto-approve toggle are inputs to
  `Queue.MessageQueue.EnqueueInbound`. The store accessors `get_mood` and
  `get_auto_approve` are not part of this model.
- `Node.Recent` takes the thread listing as a parameter, so the order in
  which files are listed is not modelled.
- Node startup, ngrok, the HTTP server's other routes, the gossip loop and
  bootstrap are outside the modelled core.

## Findings

| source | as written | input that shows it | evidently intended | confidence | as-written member | corrected member |
|---|---|---|---|---|---|---|
| esense/protocol/transport.py:24 | `_DID_RE` ends in `$`, which in Python also matches just before a final newline, so `match` accepts a DID followed by `\n` | `"did:wba:example.com:alice\n"` | the DID ends at the name segment (`\Z` or `fullmatch`) | high, not executed | Transport.DidReAsWritten, shown by Transport.TrailingNewlineAccepted | Transport.DidRe, proved by Transport.DidReMeaning |
