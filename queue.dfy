/**
 * The review queue of a node (`MessageQueue`). An inbound message is routed
 * to rejected, auto-approved or pending human review; routed messages wait
 * in a table keyed by thread until the owner approves or rejects them, and
 * approved ones move to the outbound FIFO. Every step is persisted in the
 * thread files of the essence store and announced to subscribers as an
 * event. The two asyncio queues are sequences; the mood, the auto-approve
 * toggle and the maturity score are inputs, while peers and the autonomy
 * threshold are read from the store.
 */
module Queue {
  import opened Wrappers
  import opened Values
  import opened Store
  import Peers

  const RejectedStatus := "rejected"
  const AutoApprovedStatus := "auto_approved"
  const PendingStatus := "pending_human_review"
  const ApprovedStatus := "approved"

  /** Trust a sender needs in the `available` mood. */
  const AvailableMinTrust: real := 0.3
  /** Trust a sender needs in the `moderate` mood. */
  const ModerateMinTrust: real := 0.5
  /** `autonomy_threshold` when the budget does not set one. */
  const DefaultAutonomyThreshold: real := 0.6

  datatype Route = Rejected | AutoApproved | PendingReview

  function StatusOf(r: Route): string
  {
    match r
    case Rejected => RejectedStatus
    case AutoApproved => AutoApprovedStatus
    case PendingReview => PendingStatus
  }

  /** How favourable a route is for the sender. */
  function Rank(r: Route): nat
  {
    match r
    case Rejected => 0
    case PendingReview => 1
    case AutoApproved => 2
  }

  /** The routing decision of `enqueue_inbound`, checked in order: blocked
      sender, `dnd`, the global toggle, `available`, `moderate`. */
  function RouteOf(blocked: bool, mood: string, autoApprove: bool, trust: real, maturity: real, threshold: real): Route
  {
    if blocked then Rejected
    else if mood == "dnd" then Rejected
    else if autoApprove then AutoApproved
    else if mood == "available" && trust >= AvailableMinTrust then AutoApproved
    else if mood == "moderate" then
      (if maturity >= threshold && trust >= ModerateMinTrust then AutoApproved else PendingReview)
    else PendingReview
  }

  /** A blocked sender is rejected and so is everything in `dnd`; otherwise
      the message is auto-approved exactly when the toggle is on, or the mood
      is `available` with trust at least 0.3, or `moderate` with maturity at
      the threshold and trust at least 0.5. */
  lemma RoutePriority(blocked: bool, mood: string, autoApprove: bool, trust: real, maturity: real, threshold: real)
    ensures RouteOf(blocked, mood, autoApprove, trust, maturity, threshold) == Rejected <==> blocked || mood == "dnd"
    ensures RouteOf(blocked, mood, autoApprove, trust, maturity, threshold) == AutoApproved <==>
      !blocked && mood != "dnd" &&
      (autoApprove || (mood == "available" && trust >= 0.3) || (mood == "moderate" && maturity >= threshold && trust >= 0.5))
    ensures mood == "absent" && !autoApprove && !blocked ==>
      RouteOf(blocked, mood, autoApprove, trust, maturity, threshold) == PendingReview
  {
  }

  /** A sender unknown to the peer table has trust 0.0 and is auto-approved
      only through the global toggle. */
  lemma UnknownSenderNeedsToggle(mood: string, autoApprove: bool, maturity: real, threshold: real)
    ensures RouteOf(false, mood, autoApprove, 0.0, maturity, threshold) == AutoApproved <==>
      mood != "dnd" && autoApprove
  {
  }

  /** More trust, more maturity, a lower threshold or switching the toggle
      on never gives a less favourable route. */
  lemma RouteMonotone(blocked: bool, mood: string, a1: bool, a2: bool, t1: real, t2: real,
                      m1: real, m2: real, th1: real, th2: real)
    requires a1 ==> a2
    requires t1 <= t2 && m1 <= m2 && th2 <= th1
    ensures Rank(RouteOf(blocked, mood, a1, t1, m1, th1)) <= Rank(RouteOf(blocked, mood, a2, t2, m2, th2))
  {
  }

  /** The sender's peer record (`next(p for p in peers if p.get("did") ==
      from_did)`), when there is one and it is non-empty. */
  function Sender(peers: seq<Record>, message: Record): (r: Option<Record>)
    ensures r.Some? ==> r.value in peers && r.value != map[]
    ensures r.Some? ==> Get(r.value, "did", VNull) == Get(message, "from_did", VStr(""))
    // the first listed peer with that DID decides: it is the sender unless it is empty
    ensures var from := Get(message, "from_did", VStr(""));
      forall i :: 0 <= i < |peers| && Peers.HasDid(peers[i], from) &&
                  (forall j :: 0 <= j < i ==> !Peers.HasDid(peers[j], from)) ==>
        r == if peers[i] != map[] then Some(peers[i]) else None
    ensures var from := Get(message, "from_did", VStr(""));
      (forall j :: 0 <= j < |peers| ==> !Peers.HasDid(peers[j], from)) ==> r.None?
  {
    match Peers.FindPeer(peers, Get(message, "from_did", VStr("")))
    case Some(p) => if p != map[] then Some(p) else None
    case None => None
  }

  /** The sender's `trust_score`, 0.0 for an unknown sender. */
  function SenderTrust(peers: seq<Record>, message: Record): real
  {
    match Sender(peers, message)
    case Some(p) => GetNum(p, "trust_score", 0.0)
    case None => 0.0
  }

  predicate SenderBlocked(peers: seq<Record>, message: Record)
  {
    match Sender(peers, message)
    case Some(p) => Truthy(Get(p, "blocked", VNull))
    case None => false
  }

  /** The route `enqueue_inbound` takes for `message` given the stored peers
      and budget. */
  function Routed(message: Record, peers: seq<Record>, budget: Record, mood: string, autoApprove: bool, maturity: real): Route
  {
    RouteOf(SenderBlocked(peers, message), mood, autoApprove, SenderTrust(peers, message), maturity,
            GetNum(budget, "autonomy_threshold", DefaultAutonomyThreshold))
  }

  /** Thread files are named after string thread ids. */
  predicate ThreadIdIsString(message: Record)
  {
    "thread_id" in message ==> message["thread_id"].VStr?
  }

  /** `message.get("thread_id", str(uuid.uuid4()))`, the fresh id supplied. */
  function ThreadKey(message: Record, freshId: string): string
  {
    if "thread_id" in message && message["thread_id"].VStr? then message["thread_id"].s else freshId
  }

  /** The message after `message["thread_id"] = thread_id` and
      `message["status"] = status`. */
  function Stamp(message: Record, tid: string, status: string): (r: Record)
    requires ThreadIdIsString(message)
    ensures r.Keys == message.Keys + {"thread_id", "status"}
    ensures r["status"] == VStr(status) && r["thread_id"] == VStr(tid)
    ensures forall k :: k in message && k != "thread_id" && k != "status" ==> r[k] == message[k]
  {
    message["thread_id" := VStr(tid)]["status" := VStr(status)]
  }

  /** The thread files after one more message at the end of thread `tid`. */
  function Appended(threads: map<string, seq<Record>>, tid: string, m: Record): map<string, seq<Record>>
  {
    threads[tid := (if tid in threads then threads[tid] else []) + [m]]
  }

  /** One stored message after `mark_status(tid, status)`: restamped when it
      belongs to `tid`, otherwise unchanged. */
  function StampOne(m: Record, tid: string, status: string): (r: Record)
    ensures Get(m, "thread_id", VNull) == VStr(tid) ==> r.Keys == m.Keys + {"status"} && r["status"] == VStr(status)
    ensures Get(m, "thread_id", VNull) != VStr(tid) ==> r == m
    ensures forall k :: k in m && k != "status" ==> k in r && r[k] == m[k]
  {
    if Get(m, "thread_id", VNull) == VStr(tid) then m["status" := VStr(status)] else m
  }

  /** A stored thread after `mark_status(tid, status)`. */
  function Stamped(messages: seq<Record>, tid: string, status: string): (r: seq<Record>)
    ensures |r| == |messages|
    ensures forall i :: 0 <= i < |r| ==> r[i] == StampOne(messages[i], tid, status)
  {
    seq(|messages|, i requires 0 <= i < |messages| => StampOne(messages[i], tid, status))
  }

  /** The thread files after `mark_status(tid, status)`; the file of `tid`
      is written even when it did not exist. */
  function StampedThreads(threads: map<string, seq<Record>>, tid: string, status: string): map<string, seq<Record>>
  {
    threads[tid := Stamped(if tid in threads then threads[tid] else [], tid, status)]
  }

  /** Marking a thread twice with the same status is the same as once, so a
      repeated `reject` leaves the same files. */
  lemma StampedThreadsIdempotent(threads: map<string, seq<Record>>, tid: string, status: string)
    ensures StampedThreads(StampedThreads(threads, tid, status), tid, status) == StampedThreads(threads, tid, status)
  {
    var once := Stamped(if tid in threads then threads[tid] else [], tid, status);
    var twice := Stamped(once, tid, status);
    assert twice == once by {
      forall i | 0 <= i < |once|
        ensures twice[i] == once[i]
      {
        var m := if tid in threads then threads[tid][i] else map[];
        if Get(m, "thread_id", VNull) == VStr(tid) {
          assert Get(once[i], "thread_id", VNull) == VStr(tid);
        }
      }
    }
  }

  function Proposed(m: Record): Value
  {
    Get(m, "proposed_reply", VStr(""))
  }

  /** The reply `approve` sends: the edit when one is given, else the
      proposal. */
  function FinalReply(m: Record, edited: Option<string>): (r: Value)
    ensures edited.Some? ==> r == VStr(edited.value)
    ensures edited.None? ==> r == Proposed(m)
  {
    if edited.Some? then VStr(edited.value) else Proposed(m)
  }

  /** The correction `approve` logs; its timestamp is the clock reading. */
  function CorrectionOf(m: Record, tid: string, edited: Option<string>, now: string): (c: Record)
    ensures "timestamp" in c
    ensures "original" in c && "edited" in c && c["original"] == Proposed(m) && c["edited"] == FinalReply(m, edited)
  {
    map["original" := Proposed(m), "edited" := FinalReply(m, edited), "thread_id" := VStr(tid),
        "from_did" := Get(m, "from_did", VStr("")), "timestamp" := VStr(now)]
  }

  /** The message `approve` moves to outbound: its content becomes the final
      reply when that is non-empty, its status becomes `approved`, and every
      other field is kept. */
  function ApprovedMessage(m: Record, edited: Option<string>): (r: Record)
    ensures "status" in r && r["status"] == VStr(ApprovedStatus)
    ensures edited.Some? && edited.value != "" ==> "content" in r && r["content"] == VStr(edited.value)
    ensures edited.None? && Truthy(Proposed(m)) ==> "content" in r && r["content"] == Proposed(m)
    ensures !Truthy(FinalReply(m, edited)) ==> Get(r, "content", VNull) == Get(m, "content", VNull)
    ensures forall k :: k in m && k != "content" && k != "status" ==> k in r && r[k] == m[k]
    ensures r.Keys == m.Keys + {"status"} + (if Truthy(FinalReply(m, edited)) then {"content"} else {})
  {
    var f := FinalReply(m, edited);
    (if Truthy(f) then m["content" := f] else m)["status" := VStr(ApprovedStatus)]
  }

  /** Approval leaves the thread id alone. */
  lemma ApprovedKeepsThreadId(m: Record, edited: Option<string>)
    requires ThreadIdIsString(m)
    ensures ThreadIdIsString(ApprovedMessage(m, edited))
  {
    var r := ApprovedMessage(m, edited);
    if "thread_id" in r {
      assert "thread_id" in m && r["thread_id"] == m["thread_id"];
    }
  }

  /** The events `approve` emits before `status_changed`. */
  function CorrectionEvents(m: Record, tid: string, countBefore: nat): seq<Event>
  {
    if Truthy(Proposed(m)) then [Event("correction_logged", map["count" := VInt(countBefore + 1), "thread_id" := VStr(tid)])]
    else []
  }

  function StatusEvent(tid: string, status: string): Event
  {
    Event("status_changed", map["thread_id" := VStr(tid), "status" := VStr(status)])
  }

  /** A subscriber notification `(event_type, data)`. */
  datatype Event = Event(kind: string, data: Record)

  function Last(messages: seq<Record>): Record
    requires messages != []
  {
    messages[|messages| - 1]
  }

  predicate IsPendingReview(m: Record)
  {
    Get(m, "status", VNull) == VStr(PendingStatus)
  }

  /** A thread whose last stored message awaits review. */
  predicate AwaitsReview(messages: seq<Record>)
  {
    messages != [] && IsPendingReview(Last(messages))
  }

  /** What `restore_pending` loads: the last message of every thread that
      awaits review; empty threads are skipped. */
  function Restored(threads: map<string, seq<Record>>): (r: map<string, Record>)
    ensures forall t :: t in r <==> t in threads && AwaitsReview(threads[t])
    ensures forall t :: t in r ==> t in threads && threads[t] != [] && r[t] == Last(threads[t])
  {
    RestoredWithin(threads, threads.Keys)
  }

  /** The part of `Restored(threads)` for the threads in `ids`. */
  function RestoredWithin(threads: map<string, seq<Record>>, ids: set<string>): map<string, Record>
  {
    map t | t in ids && t in threads && AwaitsReview(threads[t]) :: Last(threads[t])
  }

  /** One more thread visited by `restore_pending`. */
  lemma RestoredWithinStep(threads: map<string, seq<Record>>, ids: set<string>, t: string)
    requires t in threads && t !in ids
    ensures RestoredWithin(threads, ids + {t}) ==
      if AwaitsReview(threads[t]) then RestoredWithin(threads, ids)[t := Last(threads[t])]
      else RestoredWithin(threads, ids)
  {
  }

  /** The pending map after `restore_pending` visits one more thread. */
  lemma RestoreStep(base: map<string, Record>, threads: map<string, seq<Record>>, ids: set<string>, t: string)
    requires t in threads && t !in ids
    ensures base + RestoredWithin(threads, ids + {t}) ==
      if AwaitsReview(threads[t]) then (base + RestoredWithin(threads, ids))[t := Last(threads[t])]
      else base + RestoredWithin(threads, ids)
  {
    RestoredWithinStep(threads, ids, t);
    if AwaitsReview(threads[t]) {
      UnionUpdate(base, RestoredWithin(threads, ids), t, Last(threads[t]));
    }
  }

  lemma UnionUpdate(a: map<string, Record>, b: map<string, Record>, k: string, v: Record)
    ensures (a + b)[k := v] == a + b[k := v]
  {
  }

  /** After one more message in thread `tid`, a restart restores `tid`
      exactly when that message awaits review, and no other thread changes. */
  lemma RestoredAfterAppend(threads: map<string, seq<Record>>, tid: string, m: Record)
    ensures Restored(Appended(threads, tid, m)) ==
      if IsPendingReview(m) then Restored(threads)[tid := m] else Restored(threads) - {tid}
  {
    var after := Appended(threads, tid, m);
    assert Last(after[tid]) == m;
    var lhs := Restored(after);
    var rhs := if IsPendingReview(m) then Restored(threads)[tid := m] else Restored(threads) - {tid};
    forall t
      ensures t in lhs <==> t in rhs
    {
      if t != tid {
        assert t in after <==> t in threads;
        if t in threads {
          assert after[t] == threads[t];
        }
      }
    }
    forall t | t in lhs
      ensures lhs[t] == rhs[t]
    {
      if t != tid {
        assert after[t] == threads[t];
      }
    }
  }

  /** After `mark_status(tid, status)` with a status other than pending, a
      thread whose last message belongs to `tid` is not restored on restart;
      other threads are unaffected. */
  lemma RestoredAfterStamp(threads: map<string, seq<Record>>, tid: string, status: string)
    requires status != PendingStatus
    requires tid in threads && threads[tid] != [] && Get(Last(threads[tid]), "thread_id", VNull) == VStr(tid)
    ensures tid !in Restored(StampedThreads(threads, tid, status))
    ensures forall t :: t != tid ==> (t in Restored(StampedThreads(threads, tid, status)) <==> t in Restored(threads))
  {
    var s := Stamped(threads[tid], tid, status);
    assert Last(s) == StampOne(Last(threads[tid]), tid, status);
    assert Last(s)["status"] == VStr(status);
    forall t | t != tid
      ensures t in Restored(StampedThreads(threads, tid, status)) <==> t in Restored(threads)
    {
      if t in threads {
        assert StampedThreads(threads, tid, status)[t] == threads[t];
      }
    }
  }

  /** The store files other than the thread files and the corrections log. */
  twostate predicate OnlyThreadsAndLogChanged(s: EssenceStore)
    reads s
  {
    s.identity == old(s.identity) && s.patterns == old(s.patterns) && s.context == old(s.context) &&
    s.peers == old(s.peers) && s.budget == old(s.budget)
  }

  class MessageQueue {
    const store: EssenceStore
    /** The inbound asyncio queue, oldest first. */
    var inbound: seq<Record>
    /** The outbound asyncio queue, oldest first. */
    var outbound: seq<Record>
    /** `_pending`: thread id to message awaiting a decision. */
    var pending: map<string, Record>
    /** Every event emitted so far, in order. */
    var events: seq<Event>

    constructor (store: EssenceStore)
      ensures this.store == store
      ensures inbound == [] && outbound == [] && pending == map[] && events == []
    {
      this.store := store;
      inbound := [];
      outbound := [];
      pending := map[];
      events := [];
    }

    /** `enqueue_inbound(message)`: the message, stamped with its thread id
        and the status of its route, is appended to its thread. A rejected
        one is only announced; any other one is also stored in `_pending`
        and put once on the inbound queue. The stamped message is returned,
        as Python mutates the caller's dict. */
    method EnqueueInbound(message: Record, freshId: string, mood: string, autoApprove: bool, maturity: real)
      returns (stored: Record)
      requires ThreadIdIsString(message)
      modifies this, store
      ensures var tid := ThreadKey(message, freshId);
        var route := Routed(message, old(store.ReadPeers()), old(store.ReadBudget()), mood, autoApprove, maturity);
        && stored == Stamp(message, tid, StatusOf(route))
        && store.threads == Appended(old(store.threads), tid, stored)
        && (route == Rejected ==>
              pending == old(pending) && inbound == old(inbound) &&
              events == old(events) + [Event("rejected", map["thread_id" := VStr(tid)])])
        && (route != Rejected ==>
              pending == old(pending)[tid := stored] && inbound == old(inbound) + [stored] &&
              events == old(events) + [Event("inbound_message", stored)])
      ensures SenderBlocked(old(store.ReadPeers()), message) ==>
        stored["status"] == VStr(RejectedStatus) && pending == old(pending) && inbound == old(inbound)
      ensures outbound == old(outbound)
      ensures OnlyThreadsAndLogChanged(store) && store.corrections == old(store.corrections)
    {
      var tid := ThreadKey(message, freshId);
      var route := RouteInbound(message, mood, autoApprove, maturity);
      stored := Stamp(message, tid, StatusOf(route));
      store.AppendToThread(tid, stored);
      if route == Rejected {
        events := events + [Event("rejected", map["thread_id" := VStr(tid)])];
      } else {
        pending := pending[tid := stored];
        inbound := inbound + [stored];
        events := events + [Event("inbound_message", stored)];
      }
    }

    /** The routing part of `enqueue_inbound`: the sender's record and trust
        are looked up among the stored peers, and the budget's autonomy
        threshold is read only in the `moderate` mood. */
    method RouteInbound(message: Record, mood: string, autoApprove: bool, maturity: real) returns (route: Route)
      ensures route == Routed(message, store.ReadPeers(), store.ReadBudget(), mood, autoApprove, maturity)
    {
      var peers := store.ReadPeers();
      var sender := Sender(peers, message);
      var trust := if sender.Some? then GetNum(sender.value, "trust_score", 0.0) else 0.0;
      if sender.Some? && Truthy(Get(sender.value, "blocked", VNull)) {
        route := Rejected;
      } else if mood == "dnd" {
        route := Rejected;
      } else if autoApprove {
        route := AutoApproved;
      } else if mood == "available" && trust >= AvailableMinTrust {
        route := AutoApproved;
      } else if mood == "moderate" {
        var threshold := GetNum(store.ReadBudget(), "autonomy_threshold", DefaultAutonomyThreshold);
        if maturity >= threshold && trust >= ModerateMinTrust {
          route := AutoApproved;
        } else {
          route := PendingReview;
        }
      } else {
        route := PendingReview;
      }
    }

    /** `peek_pending()`: the `_pending` entries whose status is
        `pending_human_review`, keyed by thread. */
    function PeekPending(): (r: map<string, Record>)
      reads this
      ensures forall t :: t in r <==> t in pending && IsPendingReview(pending[t])
      ensures forall t :: t in r ==> r[t] == pending[t]
      ensures r.Keys <= pending.Keys
    {
      map t | t in pending && IsPendingReview(pending[t]) :: pending[t]
    }

    /** `pending_count()`: every `_pending` entry, whatever its status. */
    function PendingCount(): (n: nat)
      reads this
      ensures n == |pending.Keys|
      ensures |PeekPending().Keys| <= n
    {
      SubsetCard(PeekPending().Keys, pending.Keys);
      |pending.Keys|
    }

    /** `enqueue_outbound(message)`: the message, with its thread id filled
        in, is appended to its thread and put once on the outbound queue. */
    method EnqueueOutbound(message: Record, freshId: string) returns (queued: Record)
      requires ThreadIdIsString(message)
      modifies this, store
      ensures queued == message["thread_id" := VStr(ThreadKey(message, freshId))]
      ensures "thread_id" in message ==> queued == message
      ensures store.threads == Appended(old(store.threads), ThreadKey(message, freshId), queued)
      ensures outbound == old(outbound) + [queued]
      ensures events == old(events) + [Event("outbound_queued", queued)]
      ensures pending == old(pending) && inbound == old(inbound)
      ensures OnlyThreadsAndLogChanged(store) && store.corrections == old(store.corrections)
    {
      var tid := ThreadKey(message, freshId);
      queued := message["thread_id" := VStr(tid)];
      store.AppendToThread(tid, queued);
      outbound := outbound + [queued];
      events := events + [Event("outbound_queued", queued)];
    }

    /** `mark_status(thread_id, status)`: the `_pending` entry, if any, and
        every stored message of the thread that carries that thread id get
        the new status; nothing else changes. */
    method MarkStatus(tid: string, status: string)
      modifies this, store
      ensures pending == if tid in old(pending) then old(pending)[tid := old(pending)[tid]["status" := VStr(status)]]
                         else old(pending)
      ensures store.threads == StampedThreads(old(store.threads), tid, status)
      ensures events == old(events) + [StatusEvent(tid, status)]
      ensures inbound == old(inbound) && outbound == old(outbound)
      ensures OnlyThreadsAndLogChanged(store) && store.corrections == old(store.corrections)
    {
      if tid in pending {
        pending := pending[tid := pending[tid]["status" := VStr(status)]];
      }
      var messages := store.ReadThread(tid);
      ghost var original := messages;
      var i := 0;
      while i < |messages|
        invariant 0 <= i <= |messages| == |original|
        invariant forall j :: 0 <= j < i ==> messages[j] == StampOne(original[j], tid, status)
        invariant forall j :: i <= j < |messages| ==> messages[j] == original[j]
      {
        if Get(messages[i], "thread_id", VNull) == VStr(tid) {
          messages := messages[i := messages[i]["status" := VStr(status)]];
        }
        i := i + 1;
      }
      assert messages == Stamped(original, tid, status);
      store.WriteThread(tid, messages);
      events := events + [StatusEvent(tid, status)];
    }

    /** `approve(thread_id, edited_reply)`: nothing happens for a thread not
        in `_pending`. Otherwise the thread leaves `_pending`, a correction
        is logged when there was a proposal, the thread is marked approved
        and the approved message is queued once for sending. */
    method Approve(tid: string, edited: Option<string>, now: string, freshId: string) returns (r: Option<Record>)
      requires tid in pending ==> ThreadIdIsString(pending[tid])
      modifies this, store
      ensures tid !in old(pending) ==>
        r.None? && pending == old(pending) && inbound == old(inbound) && outbound == old(outbound) &&
        events == old(events) && unchanged(store)
      ensures tid in old(pending) ==>
        var m := old(pending[tid]);
        var approved := ApprovedMessage(m, edited);
        var key := ThreadKey(approved, freshId);
        var queued := approved["thread_id" := VStr(key)];
        && r == Some(approved)
        && pending == old(pending) - {tid}
        && inbound == old(inbound)
        && outbound == old(outbound) + [queued]
        && store.ReadCorrections() == old(store.ReadCorrections()) +
             (if Truthy(Proposed(m)) then [CorrectionOf(m, tid, edited, now)] else [])
        && store.threads == Appended(StampedThreads(old(store.threads), tid, ApprovedStatus), key, queued)
        && events == old(events) + CorrectionEvents(m, tid, |old(store.ReadCorrections())|) +
             [StatusEvent(tid, ApprovedStatus), Event("outbound_queued", queued)]
      ensures OnlyThreadsAndLogChanged(store)
    {
      if tid !in pending {
        return None;
      }
      var m := pending[tid];
      pending := pending - {tid};
      var message := Conclude(m, tid, edited, now, freshId);
      return Some(message);
    }

    /** What `approve` does once the message `m` has left `_pending`. */
    method Conclude(m: Record, tid: string, edited: Option<string>, now: string, freshId: string) returns (approved: Record)
      requires ThreadIdIsString(m) && tid !in pending
      modifies this, store
      ensures var key := ThreadKey(approved, freshId);
        var queued := approved["thread_id" := VStr(key)];
        && approved == ApprovedMessage(m, edited)
        && pending == old(pending)
        && inbound == old(inbound)
        && outbound == old(outbound) + [queued]
        && store.ReadCorrections() == old(store.ReadCorrections()) +
             (if Truthy(Proposed(m)) then [CorrectionOf(m, tid, edited, now)] else [])
        && store.threads == Appended(StampedThreads(old(store.threads), tid, ApprovedStatus), key, queued)
        && events == old(events) + CorrectionEvents(m, tid, |old(store.ReadCorrections())|) +
             [StatusEvent(tid, ApprovedStatus), Event("outbound_queued", queued)]
      ensures OnlyThreadsAndLogChanged(store)
    {
      LogCorrection(m, tid, edited, now);
      approved := ApprovedMessage(m, edited);
      ApprovedKeepsThreadId(m, edited);
      var queued := MarkAndQueue(tid, approved, freshId);
    }

    /** The last two steps of `approve`: the thread is marked approved and
        the approved message is queued for sending. */
    method MarkAndQueue(tid: string, approved: Record, freshId: string) returns (queued: Record)
      requires ThreadIdIsString(approved) && tid !in pending
      modifies this, store
      ensures queued == approved["thread_id" := VStr(ThreadKey(approved, freshId))]
      ensures pending == old(pending) && inbound == old(inbound) && outbound == old(outbound) + [queued]
      ensures store.threads == Appended(StampedThreads(old(store.threads), tid, ApprovedStatus), ThreadKey(approved, freshId), queued)
      ensures events == old(events) + [StatusEvent(tid, ApprovedStatus), Event("outbound_queued", queued)]
      ensures OnlyThreadsAndLogChanged(store) && store.corrections == old(store.corrections)
    {
      MarkStatus(tid, ApprovedStatus);
      queued := EnqueueOutbound(approved, freshId);
    }

    /** The correction step of `approve`: logged, and announced with the new
        length of the log, only when the message had a proposal. */
    method LogCorrection(m: Record, tid: string, edited: Option<string>, now: string)
      modifies this, store
      ensures store.ReadCorrections() == old(store.ReadCorrections()) +
             (if Truthy(Proposed(m)) then [CorrectionOf(m, tid, edited, now)] else [])
      ensures events == old(events) + CorrectionEvents(m, tid, |old(store.ReadCorrections())|)
      ensures pending == old(pending) && inbound == old(inbound) && outbound == old(outbound)
      ensures store.threads == old(store.threads)
      ensures OnlyThreadsAndLogChanged(store)
    {
      if Truthy(Proposed(m)) {
        var correction := CorrectionOf(m, tid, edited, now);
        store.AppendCorrection(correction, now);
        assert SetDefault(correction, "timestamp", VStr(now)) == correction;
        events := events + [Event("correction_logged", map["count" := VInt(|store.ReadCorrections()|), "thread_id" := VStr(tid)])];
      }
    }

    /** `reject(thread_id)`: the thread leaves `_pending` if it was there,
        and its stored messages are marked rejected. */
    method Reject(tid: string)
      modifies this, store
      ensures pending == old(pending) - {tid}
      ensures store.threads == StampedThreads(old(store.threads), tid, RejectedStatus)
      ensures events == old(events) + [StatusEvent(tid, RejectedStatus)]
      ensures inbound == old(inbound) && outbound == old(outbound)
      ensures OnlyThreadsAndLogChanged(store) && store.corrections == old(store.corrections)
    {
      if tid in pending {
        pending := pending - {tid};
      }
      MarkStatus(tid, RejectedStatus);
    }

    /** `restore_pending()`: every thread whose last stored message awaits
        review is put back in `_pending` under that message. */
    method RestorePending()
      modifies this
      ensures pending == old(pending) + Restored(store.threads)
      ensures inbound == old(inbound) && outbound == old(outbound) && events == old(events)
    {
      var ids := store.ListThreads();
      ghost var threads := store.threads;
      ghost var base := pending;
      ghost var done: set<string> := {};
      while ids != {}
        invariant ids <= threads.Keys && done == threads.Keys - ids
        invariant pending == base + RestoredWithin(threads, done)
        invariant unchanged(`inbound, `outbound, `events)
        decreases |ids|
      {
        var t :| t in ids;
        var messages := store.ReadThread(t);
        assert t in threads && t !in done && messages == threads[t];
        RestoreStep(base, threads, done, t);
        if AwaitsReview(messages) {
          pending := pending[t := Last(messages)];
        }
        MoveDone(threads.Keys, ids, done, t);
        ids := ids - {t};
        done := done + {t};
      }
      assert done == threads.Keys;
    }
  }

  /** Moving one element from the set still to visit to the set visited
      keeps the two a partition of `keys`, and shrinks the first. */
  lemma MoveDone(keys: set<string>, ids: set<string>, done: set<string>, t: string)
    requires ids <= keys && done == keys - ids && t in ids
    ensures ids - {t} <= keys && done + {t} == keys - (ids - {t})
    ensures |ids - {t}| < |ids|
  {
  }

  /** A subset of a finite set is no larger. */
  lemma {:induction false} SubsetCard(a: set<string>, b: set<string>)
    requires a <= b
    ensures |a| <= |b|
    decreases |b|
  {
    if b != {} {
      var x :| x in b;
      SubsetCard(a - {x}, b - {x});
    }
  }
}
