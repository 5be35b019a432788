/**
 * The parts of the node process (esence/core/node.py) that decide rather
 * than wait: the recent-thread summary, the conversation context handed
 * to the engine, the peer-introduction branch of inbound handling, the
 * status recorded after an outbound send and the cadence of pattern
 * extraction. The node's asyncio loops are not modelled; each handler is
 * one call.
 */
module Node {
  import opened Wrappers
  import opened Values
  import Seqs
  import Text
  import Identity
  import Message
  import opened Store
  import Peers
  import Queue
  import LegacyTransport

  /** History messages the context is drawn from. */
  const ContextWindow := 10
  /** Characters of the last message a summary quotes. */
  const PreviewChars := 80
  /** Pattern extraction runs after every this many corrections. */
  const ExtractionEvery := 5
  const SentStatus := "sent"
  const CorrectionLogged := "correction_logged"

  // ---------------------------------------------------------------------
  // Recent threads
  // ---------------------------------------------------------------------

  /** One entry of `get_recent_threads`. */
  datatype Summary = Summary(threadId: string, fromDid: Value, lastMessage: string, timestamp: string,
                             status: Value, messageCount: nat)

  /** The entry of a non-empty thread: sender of its first message, status
      and time of its last, the first 80 characters of the last content and
      the thread's length. */
  function Summarize(tid: string, messages: seq<Record>): (r: Summary)
    requires messages != []
    ensures r.threadId == tid && r.messageCount == |messages|
    ensures r.fromDid == Get(messages[0], "from_did", VStr(""))
    ensures var last := messages[|messages| - 1];
      var content := StrOf(Get(last, "content", VStr("")), "");
      && r.lastMessage <= content
      && |r.lastMessage| == (if |content| < PreviewChars then |content| else PreviewChars)
      && r.status == Get(last, "status", VStr(""))
      && r.timestamp == StrOf(Get(last, "timestamp", VStr("")), "")
  {
    var last := messages[|messages| - 1];
    Summary(tid, Get(messages[0], "from_did", VStr("")),
            Seqs.SliceTo(StrOf(Get(last, "content", VStr("")), ""), PreviewChars),
            StrOf(Get(last, "timestamp", VStr("")), ""), Get(last, "status", VStr("")), |messages|)
  }

  /** The ordering `sort(key=timestamp, reverse=True)` uses. */
  predicate Newer(a: Summary, b: Summary)
  {
    Text.StrLe(b.timestamp, a.timestamp)
  }

  lemma NewerPreorder()
    ensures Seqs.TotalPreorder(Newer)
  {
    forall a: Summary, b: Summary
      ensures Newer(a, b) || Newer(b, a)
    {
      Text.StrLeTotal(a.timestamp, b.timestamp);
    }
    forall a: Summary, b: Summary, c: Summary | Newer(a, b) && Newer(b, c)
      ensures Newer(a, c)
    {
      Text.StrLeTransitive(c.timestamp, b.timestamp, a.timestamp);
    }
  }

  function ThreadOf(threads: map<string, seq<Record>>, tid: string): seq<Record>
  {
    if tid in threads then threads[tid] else []
  }

  /** The entries collected for the threads listed in `ids`, in listing
      order; empty threads are skipped. */
  function Summaries(threads: map<string, seq<Record>>, ids: seq<string>): (r: seq<Summary>)
    ensures |r| <= |ids|
  {
    if ids == [] then []
    else
      var init := Summaries(threads, ids[..|ids| - 1]);
      var tid := ids[|ids| - 1];
      if ThreadOf(threads, tid) != [] then init + [Summarize(tid, ThreadOf(threads, tid))] else init
  }

  /** Exactly one entry per non-empty listed thread: every entry summarises
      a listed non-empty thread, every such thread has its entry, and no
      thread has two. */
  lemma {:induction false} SummariesSpec(threads: map<string, seq<Record>>, ids: seq<string>)
    ensures forall s :: s in Summaries(threads, ids) ==>
      s.threadId in ids && ThreadOf(threads, s.threadId) != [] && s == Summarize(s.threadId, ThreadOf(threads, s.threadId))
    ensures forall t :: t in ids && ThreadOf(threads, t) != [] ==> Summarize(t, ThreadOf(threads, t)) in Summaries(threads, ids)
    ensures (forall i, j :: 0 <= i < j < |ids| ==> ids[i] != ids[j]) ==>
      forall i, j :: 0 <= i < j < |Summaries(threads, ids)| ==>
        Summaries(threads, ids)[i].threadId != Summaries(threads, ids)[j].threadId
  {
    SummariesCover(threads, ids);
    if forall i, j :: 0 <= i < j < |ids| ==> ids[i] != ids[j] {
      SummariesDistinct(threads, ids);
    }
  }

  lemma {:induction false} SummariesCover(threads: map<string, seq<Record>>, ids: seq<string>)
    ensures forall s :: s in Summaries(threads, ids) ==>
      s.threadId in ids && ThreadOf(threads, s.threadId) != [] && s == Summarize(s.threadId, ThreadOf(threads, s.threadId))
    ensures forall t :: t in ids && ThreadOf(threads, t) != [] ==> Summarize(t, ThreadOf(threads, t)) in Summaries(threads, ids)
    decreases |ids|
  {
    if ids != [] {
      var prefix := ids[..|ids| - 1];
      var tid := ids[|ids| - 1];
      SummariesCover(threads, prefix);
      assert ids == prefix + [tid];
      forall t | t in prefix
        ensures t in ids
      {
      }
    }
  }

  lemma {:induction false} SummariesDistinct(threads: map<string, seq<Record>>, ids: seq<string>)
    requires forall i, j :: 0 <= i < j < |ids| ==> ids[i] != ids[j]
    ensures forall i, j :: 0 <= i < j < |Summaries(threads, ids)| ==>
      Summaries(threads, ids)[i].threadId != Summaries(threads, ids)[j].threadId
    decreases |ids|
  {
    if ids != [] {
      var prefix := ids[..|ids| - 1];
      var tid := ids[|ids| - 1];
      assert forall i, j :: 0 <= i < j < |prefix| ==> prefix[i] != prefix[j];
      SummariesDistinct(threads, prefix);
      SummariesCover(threads, prefix);
      forall s | s in Summaries(threads, prefix)
        ensures s.threadId != tid
      {
        var k :| 0 <= k < |prefix| && prefix[k] == s.threadId;
        assert ids[k] == prefix[k];
      }
    }
  }

  /** `get_recent_threads(limit)` over the listing `ids` of the thread files. */
  function Recent(threads: map<string, seq<Record>>, ids: seq<string>, limit: int): seq<Summary>
  {
    Seqs.SliceTo(Seqs.SortDesc(Summaries(threads, ids), Newer), limit)
  }

  /** The result is newest first, holds at most `limit` entries, and each is
      the summary of a listed non-empty thread; when `limit` is large
      enough, every such thread is present. */
  lemma RecentSpec(threads: map<string, seq<Record>>, ids: seq<string>, limit: int)
    ensures var r := Recent(threads, ids, limit);
      && Seqs.SortedDesc(r, Newer)
      && (limit >= 0 ==> |r| <= limit)
      && (forall s :: s in r ==> s.threadId in ids && ThreadOf(threads, s.threadId) != [] &&
                                 s == Summarize(s.threadId, ThreadOf(threads, s.threadId)))
      && (limit >= |Summaries(threads, ids)| ==>
            forall t :: t in ids && ThreadOf(threads, t) != [] ==> Summarize(t, ThreadOf(threads, t)) in r)
  {
    var all := Summaries(threads, ids);
    var sorted := Seqs.SortDesc(all, Newer);
    NewerPreorder();
    Seqs.SortDescSorted(all, Newer);
    Seqs.SortDescPermutation(all, Newer);
    SummariesSpec(threads, ids);
    var r := Recent(threads, ids, limit);
    assert r == sorted[..Seqs.Bound(limit, |sorted|)];
    forall i, j | 0 <= i < j < |r|
      ensures Newer(r[i], r[j])
    {
      assert r[i] == sorted[i] && r[j] == sorted[j];
    }
    forall s | s in r
      ensures s in all
    {
      assert s in sorted;
      assert multiset(sorted)[s] > 0;
    }
    if limit >= |all| {
      assert |sorted| == |all| by {
        assert |multiset(sorted)| == |multiset(all)|;
      }
      assert r == sorted;
      forall s | s in all
        ensures s in r
      {
        assert multiset(all)[s] > 0;
      }
    }
  }

  // ---------------------------------------------------------------------
  // Context for the engine
  // ---------------------------------------------------------------------

  /** One history message as the engine sees it: the node's own messages
      are the assistant's turns, everything else the user's. */
  function ContextEntry(m: Record, ownDid: string): (e: Record)
    ensures e.Keys == {"role", "content"}
    ensures e["role"] == VStr("assistant") <==> Get(m, "from_did", VNull) == VStr(ownDid)
    ensures e["role"] == VStr("user") <==> Get(m, "from_did", VNull) != VStr(ownDid)
    ensures e["content"] == Get(m, "content", VStr(""))
  {
    map["role" := VStr(if Get(m, "from_did", VNull) != VStr(ownDid) then "user" else "assistant"),
        "content" := Get(m, "content", VStr(""))]
  }

  predicate HasContent(m: Record)
  {
    Truthy(Get(m, "content", VNull))
  }

  /** The entries of the messages with content, in order. */
  function Entries(ms: seq<Record>, ownDid: string): (r: seq<Record>)
    ensures |r| <= |ms|
  {
    if ms == [] then []
    else (if HasContent(ms[0]) then [ContextEntry(ms[0], ownDid)] else []) + Entries(ms[1..], ownDid)
  }

  /** The context `_handle_inbound` passes to the engine. */
  function ContextMessages(history: seq<Record>, ownDid: string): (r: seq<Record>)
    ensures |r| <= ContextWindow
  {
    Entries(Seqs.SliceFrom(history, -ContextWindow), ownDid)
  }

  /** Each entry comes from a message with content, and a later message's
      entry follows an earlier one's. */
  lemma {:induction false} EntriesAppend(ms: seq<Record>, m: Record, ownDid: string)
    ensures Entries(ms + [m], ownDid) == Entries(ms, ownDid) + (if HasContent(m) then [ContextEntry(m, ownDid)] else [])
    decreases |ms|
  {
    if ms == [] {
      assert [m][1..] == [];
    } else {
      var head := if HasContent(ms[0]) then [ContextEntry(ms[0], ownDid)] else [];
      var last := if HasContent(m) then [ContextEntry(m, ownDid)] else [];
      assert (ms + [m])[1..] == ms[1..] + [m];
      assert Entries(ms + [m], ownDid) == head + Entries(ms[1..] + [m], ownDid);
      EntriesAppend(ms[1..], m, ownDid);
      assert Entries(ms, ownDid) == head + Entries(ms[1..], ownDid);
      assert head + (Entries(ms[1..], ownDid) + last) == (head + Entries(ms[1..], ownDid)) + last;
    }
  }

  /** Every entry of the context is the entry of one of the last ten
      history messages that has content. */
  lemma {:induction false} EntriesFrom(ms: seq<Record>, ownDid: string)
    ensures forall e :: e in Entries(ms, ownDid) ==>
      exists m :: m in ms && HasContent(m) && e == ContextEntry(m, ownDid)
    decreases |ms|
  {
    if ms != [] {
      EntriesFrom(ms[1..], ownDid);
      forall e | e in Entries(ms, ownDid)
        ensures exists m :: m in ms && HasContent(m) && e == ContextEntry(m, ownDid)
      {
        if e !in Entries(ms[1..], ownDid) {
          assert ms[0] in ms;
        } else {
          var m :| m in ms[1..] && HasContent(m) && e == ContextEntry(m, ownDid);
          assert m in ms;
        }
      }
    }
  }

  /** A message without content contributes nothing. */
  lemma ContextSkipsEmpty(history: seq<Record>, m: Record, ownDid: string)
    requires !HasContent(m)
    ensures Entries(history + [m], ownDid) == Entries(history, ownDid)
  {
    EntriesAppend(history, m, ownDid);
  }

  // ---------------------------------------------------------------------
  // Pattern-extraction cadence
  // ---------------------------------------------------------------------

  /** `_on_queue_event` starts pattern extraction for a `correction_logged`
      event whose count is a positive multiple of five. */
  predicate TriggersExtraction(eventType: string, data: Record)
  {
    var count := IntOf(Get(data, "count", VInt(0)), 0);
    eventType == CorrectionLogged && count > 0 && count % ExtractionEvery == 0
  }

  /** How many of the first `n` corrections start an extraction. */
  function Extractions(n: nat): nat
  {
    if n == 0 then 0
    else Extractions(n - 1) + if TriggersExtraction(CorrectionLogged, map["count" := VInt(n)]) then 1 else 0
  }

  /** Over `n` corrections logged one by one, extraction runs `n / 5`
      times: once per five. */
  lemma {:induction false} ExtractionsPerFive(n: nat)
    ensures Extractions(n) == n / ExtractionEvery
  {
    if n > 0 {
      ExtractionsPerFive(n - 1);
      if n % ExtractionEvery == 0 {
        assert n / ExtractionEvery == (n - 1) / ExtractionEvery + 1;
      } else {
        assert n / ExtractionEvery == (n - 1) / ExtractionEvery;
      }
    }
  }

  /** The approval that logs the correction bringing the log to a multiple
      of five starts an extraction, and no other approval does. */
  lemma ApprovalTriggers(m: Record, tid: string, countBefore: nat)
    ensures (exists e :: e in Queue.CorrectionEvents(m, tid, countBefore) && TriggersExtraction(e.kind, e.data)) <==>
      Truthy(Queue.Proposed(m)) && (countBefore + 1) % ExtractionEvery == 0
  {
    if Truthy(Queue.Proposed(m)) {
      var e := Queue.CorrectionEvents(m, tid, countBefore)[0];
      assert e in Queue.CorrectionEvents(m, tid, countBefore);
    }
  }

  // ---------------------------------------------------------------------
  // The node
  // ---------------------------------------------------------------------

  /** Whether a message is a peer introduction. */
  predicate IsPeerIntro(message: Record)
  {
    Get(message, "type", VStr("")) == VStr(Message.TypeName(Message.PeerIntro))
  }

  function StrField(message: Record, k: string): string
  {
    StrOf(Get(message, k, VStr("")), "")
  }

  /** The DIDs a peer introduction lists. */
  function KnownPeers(message: Record): (r: seq<string>)
    ensures |r| <= match Get(message, "known_peers", VList([])) case VList(items) => |items| case _ => 0
  {
    match Get(message, "known_peers", VList([]))
    case VList(items) => StringsOf(items)
    case _ => []
  }

  function StringsOf(items: seq<Value>): (r: seq<string>)
    ensures |r| <= |items|
  {
    if items == [] then []
    else (if items[0].VStr? then [items[0].s] else []) + StringsOf(items[1..])
  }

  /** The status a thread gets after `send_message` returns `delivered`. */
  function OutboundStatus(delivered: bool): (s: string)
    ensures s == SentStatus <==> delivered
    ensures s == Queue.PendingStatus <==> !delivered
  {
    if delivered then SentStatus else Queue.PendingStatus
  }

  class EsenceNode {
    const store: EssenceStore
    const queue: Queue.MessageQueue
    const peers: Peers.PeerManager
    const identity: Option<Identity.Identity>

    /** The queue and the peer manager work on the node's store. */
    predicate Wired()
    {
      queue.store == store && peers.store == store
    }

    constructor (store: EssenceStore, identity: Option<Identity.Identity>)
      ensures this.store == store && this.identity == identity && Wired()
      ensures fresh(queue) && fresh(peers)
      ensures queue.pending == map[] && queue.inbound == [] && queue.outbound == []
    {
      this.store := store;
      this.identity := identity;
      queue := new Queue.MessageQueue(store);
      peers := new Peers.PeerManager(store);
    }

    /** The node's DID, or "" before it has an identity. */
    function OwnDid(): string
    {
      if identity.Some? then identity.value.did else ""
    }

    /** `_handle_inbound(message)` up to the engine call. A peer
        introduction merges the gossip it carries, records a successful
        interaction with its sender and asks for no reply (`None`). Any
        other message records the interaction and yields the context the
        engine is given. */
    method HandleInbound(message: Record, now: string) returns (context: Option<seq<Record>>)
      requires Wired()
      modifies store
      ensures var sender := StrField(message, "from_did");
        IsPeerIntro(message) ==>
          && context.None?
          && store.ReadPeers() ==
             Peers.Interacted(Peers.Gossiped(old(store.ReadPeers()), KnownPeers(message), sender, now), sender, true, now)
      ensures var sender := StrField(message, "from_did");
        !IsPeerIntro(message) ==>
          && context == Some(ContextMessages(old(store.ReadThread(StrField(message, "thread_id"))), OwnDid()))
          && store.ReadPeers() == Peers.Interacted(old(store.ReadPeers()), sender, true, now)
      ensures Peers.OnlyPeersChanged(store)
    {
      var sender := StrField(message, "from_did");
      var tid := StrField(message, "thread_id");
      if IsPeerIntro(message) {
        var added := peers.MergeGossip(KnownPeers(message), sender, now);
        peers.RecordInteraction(sender, true, now);
        return None;
      }
      peers.RecordInteraction(sender, true, now);
      var history := store.ReadThread(tid);
      context := Some(ContextMessages(history, OwnDid()));
    }

    /** `_send_outbound(message)`: a message that parses is signed and sent
        when the node has an identity; its thread is then marked `sent` or
        back to `pending_human_review`, and a delivery counts as a
        successful interaction with the recipient. The result is whether it
        was delivered, `None` when nothing was attempted. */
    method SendOutbound(cache: LegacyTransport.DocCache, e: Identity.Ed25519, message: Record,
                        freshId: string, nowIso: string, fetch: string -> Option<Value>,
                        serialize: Record -> Identity.Bytes, post: (string, Record) -> bool)
      returns (delivered: Option<bool>)
      requires Wired() && cache.Valid()
      modifies store, queue, cache
      ensures Message.Parse(message, freshId, nowIso).None? || identity.None? ==>
        delivered.None? && unchanged(store, queue, cache)
      ensures Message.Parse(message, freshId, nowIso).Some? && identity.Some? ==>
        var m := Message.Parse(message, freshId, nowIso).value;
        var ok := LegacyTransport.Delivered(old(cache.docs), e, identity.value, m, fetch, serialize, post);
        && delivered == Some(ok)
        && cache.docs == LegacyTransport.Resolved(old(cache.docs), m.toDid, fetch).cache
        && store.threads == Queue.StampedThreads(old(store.threads), StrField(message, "thread_id"), OutboundStatus(ok))
        && store.peers == if ok then Some(Peers.Interacted(old(store.ReadPeers()), StrField(message, "to_did"), true, nowIso))
                          else old(store.peers)
      ensures Message.Parse(message, freshId, nowIso).Some? && identity.Some? ==>
        var m := Message.Parse(message, freshId, nowIso).value;
        var ok := LegacyTransport.Delivered(old(cache.docs), e, identity.value, m, fetch, serialize, post);
        var tid := StrField(message, "thread_id");
        && queue.pending == (if tid in old(queue.pending)
                             then old(queue.pending)[tid := old(queue.pending)[tid]["status" := VStr(OutboundStatus(ok))]]
                             else old(queue.pending))
        && queue.events == old(queue.events) + [Queue.StatusEvent(tid, OutboundStatus(ok))]
        && queue.inbound == old(queue.inbound) && queue.outbound == old(queue.outbound)
      ensures store.identity == old(store.identity) && store.patterns == old(store.patterns)
      ensures store.context == old(store.context) && store.corrections == old(store.corrections)
      ensures store.budget == old(store.budget)
      ensures cache.Valid()
    {
      var parsed := Message.Parse(message, freshId, nowIso);
      if parsed.None? || identity.None? {
        return None;
      }
      var ok, signed, request := LegacyTransport.SendMessage(cache, e, identity.value, parsed.value, fetch, serialize, post);
      Settle(StrField(message, "thread_id"), StrField(message, "to_did"), ok, nowIso);
      delivered := Some(ok);
    }

    /** The bookkeeping after a send: thread `tid` is marked `sent` or back
        to `pending_human_review` and, on delivery, a successful interaction
        with `to` is recorded. */
    method Settle(tid: string, to: string, ok: bool, nowIso: string)
      requires Wired()
      modifies store, queue
      ensures store.threads == Queue.StampedThreads(old(store.threads), tid, OutboundStatus(ok))
      ensures store.peers == if ok then Some(Peers.Interacted(old(store.ReadPeers()), to, true, nowIso))
                             else old(store.peers)
      ensures queue.pending == (if tid in old(queue.pending)
                                then old(queue.pending)[tid := old(queue.pending)[tid]["status" := VStr(OutboundStatus(ok))]]
                                else old(queue.pending))
      ensures queue.events == old(queue.events) + [Queue.StatusEvent(tid, OutboundStatus(ok))]
      ensures queue.inbound == old(queue.inbound) && queue.outbound == old(queue.outbound)
      ensures store.identity == old(store.identity) && store.patterns == old(store.patterns)
      ensures store.context == old(store.context) && store.corrections == old(store.corrections)
      ensures store.budget == old(store.budget)
    {
      queue.MarkStatus(tid, OutboundStatus(ok));
      if ok {
        peers.RecordInteraction(to, true, nowIso);
      }
    }
  }
}
