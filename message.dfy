/**
 * The Esence wire message, protocol version 0.2: a common envelope and one of
 * four bodies chosen by the `type` field. `Parse` is the validating
 * constructor (`parse_message`), `Dump` the dictionary form (`model_dump`), and
 * `Signable` the dictionary that is serialised and signed.
 */
module Message {
  import opened Wrappers
  import opened Values

  datatype MessageType = ThreadMessage | ThreadReply | PeerIntro | CapacityStatus

  datatype MessageStatus = PendingHumanReview | Approved | Sent | Answered | Rejected

  function TypeName(t: MessageType): string
  {
    match t
    case ThreadMessage => "thread_message"
    case ThreadReply => "thread_reply"
    case PeerIntro => "peer_intro"
    case CapacityStatus => "capacity_status"
  }

  /** The enum lookup: only the four wire names are message types. */
  function TypeFromName(s: string): (t: Option<MessageType>)
    ensures t.Some? ==> TypeName(t.value) == s
  {
    if s == "thread_message" then Some(ThreadMessage)
    else if s == "thread_reply" then Some(ThreadReply)
    else if s == "peer_intro" then Some(PeerIntro)
    else if s == "capacity_status" then Some(CapacityStatus)
    else None
  }

  lemma TypeNameRoundTrip(t: MessageType)
    ensures TypeFromName(TypeName(t)) == Some(t)
  {
  }

  function StatusName(s: MessageStatus): string
  {
    match s
    case PendingHumanReview => "pending_human_review"
    case Approved => "approved"
    case Sent => "sent"
    case Answered => "answered"
    case Rejected => "rejected"
  }

  /** The enum lookup: only the five wire names are statuses. */
  function StatusFromName(s: string): (st: Option<MessageStatus>)
    ensures st.Some? ==> StatusName(st.value) == s
  {
    if s == "pending_human_review" then Some(PendingHumanReview)
    else if s == "approved" then Some(Approved)
    else if s == "sent" then Some(Sent)
    else if s == "answered" then Some(Answered)
    else if s == "rejected" then Some(Rejected)
    else None
  }

  lemma StatusNameRoundTrip(s: MessageStatus)
    ensures StatusFromName(StatusName(s)) == Some(s)
  {
  }

  /** The fields each subclass adds to the envelope. */
  datatype Body =
    | ThreadMessageBody(subject: string)
    | ThreadReplyBody(inReplyTo: Option<string>)
    | PeerIntroBody(publicKey: string, knownPeers: seq<string>)
    | CapacityStatusBody(availablePct: real, monthlyRemaining: int)

  datatype Message = Message(
    version: string,
    threadId: string,
    fromDid: string,
    toDid: string,
    content: string,
    status: MessageStatus,
    timestamp: string,
    signature: Option<string>,
    metadata: Record,
    body: Body)

  /** The subclass, and so the `type` field, of a message. */
  function TypeOf(m: Message): MessageType
  {
    match m.body
    case ThreadMessageBody(_) => ThreadMessage
    case ThreadReplyBody(_) => ThreadReply
    case PeerIntroBody(_, _) => PeerIntro
    case CapacityStatusBody(_, _) => CapacityStatus
  }

  /** `CapacityStatus.clamp_pct` */
  function ClampPct(v: real): (r: real)
    ensures 0.0 <= r <= 100.0
    ensures 0.0 <= v <= 100.0 ==> r == v
    ensures v < 0.0 ==> r == 0.0
    ensures v > 100.0 ==> r == 100.0
  {
    if v < 0.0 then 0.0 else if v > 100.0 then 100.0 else v
  }

  /** Every message the validator can produce: the percentage is clamped. */
  predicate WellFormed(m: Message)
  {
    m.body.CapacityStatusBody? ==> 0.0 <= m.body.availablePct <= 100.0
  }

  // Field validation. A present field of the wrong JSON type, or a missing
  // field without a default, fails validation; unknown keys are ignored.

  function StrField(data: Record, k: string, default: Option<string>): Option<string>
  {
    if k in data then (if data[k].VStr? then Some(data[k].s) else None)
    else default
  }

  function OptStrField(data: Record, k: string): Option<Option<string>>
  {
    if k !in data || data[k].VNull? then Some(None)
    else if data[k].VStr? then Some(Some(data[k].s))
    else None
  }

  function StrList(items: seq<Value>): (r: Option<seq<string>>)
    ensures r.Some? ==> |r.value| == |items| && forall i :: 0 <= i < |items| ==> items[i] == VStr(r.value[i])
    ensures r.None? ==> exists i :: 0 <= i < |items| && !items[i].VStr?
  {
    if items == [] then Some([])
    else if !items[0].VStr? then None
    else match StrList(items[1..])
      case None => None
      case Some(rest) => Some([items[0].s] + rest)
  }

  function BodyOf(t: MessageType, data: Record): Option<Body>
  {
    match t
    case ThreadMessage =>
      (match StrField(data, "subject", Some(""))
       case None => None
       case Some(s) => Some(ThreadMessageBody(s)))
    case ThreadReply =>
      (match OptStrField(data, "in_reply_to")
       case None => None
       case Some(r) => Some(ThreadReplyBody(r)))
    case PeerIntro =>
      (match StrField(data, "public_key", Some(""))
       case None => None
       case Some(pk) =>
         var peers := if "known_peers" in data then (if data["known_peers"].VList? then StrList(data["known_peers"].items) else None)
                      else Some([]);
         (match peers
          case None => None
          case Some(ps) => Some(PeerIntroBody(pk, ps))))
    case CapacityStatus =>
      var pct := if "available_pct" !in data then Some(0.0)
                 else if data["available_pct"].VInt? || data["available_pct"].VReal? then Some(NumOf(data["available_pct"], 0.0))
                 else None;
      var rem := if "monthly_remaining" !in data then Some(0)
                 else if data["monthly_remaining"].VInt? then Some(data["monthly_remaining"].i)
                 else None;
      if pct.None? || rem.None? then None
      else Some(CapacityStatusBody(ClampPct(pct.value), rem.value))
  }

  /** `parse_message(data)`: the subclass is chosen by `type`; a missing or
      unknown type falls back to the base model, whose enum check rejects it.
      The default factories for `thread_id` and `timestamp` are the
      parameters `freshId` and `now`. `None` is a validation error. */
  function Parse(data: Record, freshId: string, now: string): (r: Option<Message>)
    ensures r.Some? ==> WellFormed(r.value)
    ensures r.Some? ==> "type" in data && data["type"] == VStr(TypeName(TypeOf(r.value)))
    ensures r.Some? ==> "from_did" in data && data["from_did"] == VStr(r.value.fromDid)
    ensures r.Some? ==> "to_did" in data && data["to_did"] == VStr(r.value.toDid)
    ensures r.Some? ==> "content" in data && data["content"] == VStr(r.value.content)
  {
    if "type" !in data || !data["type"].VStr? then None
    else match TypeFromName(data["type"].s)
      case None => None
      case Some(t) =>
        var version := StrField(data, "esence_version", Some("0.2"));
        var threadId := StrField(data, "thread_id", Some(freshId));
        var fromDid := StrField(data, "from_did", None);
        var toDid := StrField(data, "to_did", None);
        var content := StrField(data, "content", None);
        var status := if "status" !in data then Some(PendingHumanReview)
                      else if data["status"].VStr? then StatusFromName(data["status"].s)
                      else None;
        var timestamp := StrField(data, "timestamp", Some(now));
        var signature := OptStrField(data, "signature");
        var metadata := if "metadata" !in data then Some(map[])
                        else if data["metadata"].VObj? then Some(data["metadata"].fields)
                        else None;
        var body := BodyOf(t, data);
        if version.None? || threadId.None? || fromDid.None? || toDid.None? || content.None?
           || status.None? || timestamp.None? || signature.None? || metadata.None? || body.None?
        then None
        else
          Some(Message(version.value, threadId.value, fromDid.value, toDid.value, content.value,
                       status.value, timestamp.value, signature.value, metadata.value, body.value))
  }

  function OptStr(o: Option<string>): Value
  {
    match o
    case None => VNull
    case Some(s) => VStr(s)
  }

  function StrValues(ss: seq<string>): (vs: seq<Value>)
    ensures |vs| == |ss| && forall i :: 0 <= i < |ss| ==> vs[i] == VStr(ss[i])
  {
    if ss == [] then [] else [VStr(ss[0])] + StrValues(ss[1..])
  }

  function BodyFields(b: Body): Record
  {
    match b
    case ThreadMessageBody(s) => map["subject" := VStr(s)]
    case ThreadReplyBody(r) => map["in_reply_to" := OptStr(r)]
    case PeerIntroBody(pk, ps) => map["public_key" := VStr(pk), "known_peers" := VList(StrValues(ps))]
    case CapacityStatusBody(pct, rem) => map["available_pct" := VReal(pct), "monthly_remaining" := VInt(rem)]
  }

  /** The envelope fields other than the signature. */
  function Unsigned(m: Message): Record
  {
    map[
      "esence_version" := VStr(m.version),
      "type" := VStr(TypeName(TypeOf(m))),
      "thread_id" := VStr(m.threadId),
      "from_did" := VStr(m.fromDid),
      "to_did" := VStr(m.toDid),
      "content" := VStr(m.content),
      "status" := VStr(StatusName(m.status)),
      "timestamp" := VStr(m.timestamp),
      "metadata" := VObj(m.metadata)]
  }

  /** `model_dump()`: every field, enums as their values. The body's keys,
      the envelope's and `signature` are disjoint, so the order of the
      union is immaterial. */
  function Dump(m: Message): Record
  {
    (BodyFields(m.body) + Unsigned(m))["signature" := OptStr(m.signature)]
  }

  lemma StrListValues(ss: seq<string>)
    ensures StrList(StrValues(ss)) == Some(ss)
  {
    if ss != [] {
      StrListValues(ss[1..]);
      var vs := StrValues(ss);
      assert vs[0] == VStr(ss[0]) && vs[1..] == StrValues(ss[1..]);
      assert [ss[0]] + ss[1..] == ss;
    }
  }

  /** Where each envelope field sits in the dump. */
  lemma DumpEnvelope(m: Message)
    ensures Dump(m)["esence_version"] == VStr(m.version)
    ensures Dump(m)["type"] == VStr(TypeName(TypeOf(m)))
    ensures Dump(m)["thread_id"] == VStr(m.threadId)
    ensures Dump(m)["from_did"] == VStr(m.fromDid)
    ensures Dump(m)["to_did"] == VStr(m.toDid)
    ensures Dump(m)["content"] == VStr(m.content)
    ensures Dump(m)["status"] == VStr(StatusName(m.status))
    ensures Dump(m)["timestamp"] == VStr(m.timestamp)
    ensures Dump(m)["signature"] == OptStr(m.signature)
    ensures Dump(m)["metadata"] == VObj(m.metadata)
  {
    DumpEnvelopeHead(m);
    DumpEnvelopeTail(m);
  }

  lemma DumpEnvelopeHead(m: Message)
    ensures "esence_version" in Dump(m) && "type" in Dump(m) && "thread_id" in Dump(m)
    ensures "from_did" in Dump(m) && "to_did" in Dump(m)
    ensures Dump(m)["esence_version"] == VStr(m.version)
    ensures Dump(m)["type"] == VStr(TypeName(TypeOf(m)))
    ensures Dump(m)["thread_id"] == VStr(m.threadId)
    ensures Dump(m)["from_did"] == VStr(m.fromDid)
    ensures Dump(m)["to_did"] == VStr(m.toDid)
  {
  }

  lemma DumpEnvelopeTail(m: Message)
    ensures "content" in Dump(m) && "status" in Dump(m) && "timestamp" in Dump(m)
    ensures "signature" in Dump(m) && "metadata" in Dump(m)
    ensures Dump(m)["content"] == VStr(m.content)
    ensures Dump(m)["status"] == VStr(StatusName(m.status))
    ensures Dump(m)["timestamp"] == VStr(m.timestamp)
    ensures Dump(m)["signature"] == OptStr(m.signature)
    ensures Dump(m)["metadata"] == VObj(m.metadata)
  {
  }

  /** The envelope does not shadow a body field. */
  lemma BodyKeysSurvive(m: Message, k: string)
    requires k in BodyFields(m.body)
    ensures k in Dump(m) && Dump(m)[k] == BodyFields(m.body)[k]
  {
    assert k in {"subject", "in_reply_to", "public_key", "known_peers", "available_pct", "monthly_remaining"};
  }

  /** The body's fields are read back from the dump. */
  lemma DumpBody(m: Message)
    requires WellFormed(m)
    ensures BodyOf(TypeOf(m), Dump(m)) == Some(m.body)
  {
    var d := Dump(m);
    match m.body
    case ThreadMessageBody(sj) =>
      BodyKeysSurvive(m, "subject");
    case ThreadReplyBody(r) =>
      BodyKeysSurvive(m, "in_reply_to");
    case PeerIntroBody(pk, ps) =>
      BodyKeysSurvive(m, "public_key");
      BodyKeysSurvive(m, "known_peers");
      StrListValues(ps);
    case CapacityStatusBody(pct, rem) =>
      BodyKeysSurvive(m, "available_pct");
      BodyKeysSurvive(m, "monthly_remaining");
  }

  /** Dumping and re-parsing gives every field back, whatever the fresh id
      and clock say. */
  lemma DumpParse(m: Message, freshId: string, now: string)
    requires WellFormed(m)
    ensures Parse(Dump(m), freshId, now) == Some(m)
  {
    DumpHeadRead(m, freshId);
    DumpTailRead(m, now);
    DumpBody(m);
  }

  /** The identifying envelope fields of the dump pass their validation. */
  lemma DumpHeadRead(m: Message, freshId: string)
    ensures var d := Dump(m);
      && "type" in d && d["type"].VStr? && TypeFromName(d["type"].s) == Some(TypeOf(m))
      && StrField(d, "esence_version", Some("0.2")) == Some(m.version)
      && StrField(d, "thread_id", Some(freshId)) == Some(m.threadId)
      && StrField(d, "from_did", None) == Some(m.fromDid)
      && StrField(d, "to_did", None) == Some(m.toDid)
  {
    DumpEnvelopeHead(m);
    TypeNameRoundTrip(TypeOf(m));
  }

  /** The remaining envelope fields of the dump pass their validation. */
  lemma DumpTailRead(m: Message, now: string)
    ensures var d := Dump(m);
      && StrField(d, "content", None) == Some(m.content)
      && "status" in d && d["status"].VStr? && StatusFromName(d["status"].s) == Some(m.status)
      && StrField(d, "timestamp", Some(now)) == Some(m.timestamp)
      && OptStrField(d, "signature") == Some(m.signature)
      && "metadata" in d && d["metadata"] == VObj(m.metadata)
  {
    DumpEnvelopeTail(m);
    StatusNameRoundTrip(m.status);
  }

  /** Omitted fields take the model's defaults. */
  lemma ParseDefaults(t: MessageType, fromDid: string, toDid: string, content: string, freshId: string, now: string)
    ensures var m := Parse(map["type" := VStr(TypeName(t)), "from_did" := VStr(fromDid),
                               "to_did" := VStr(toDid), "content" := VStr(content)], freshId, now);
      && m.Some?
      && TypeOf(m.value) == t
      && m.value.version == "0.2"
      && m.value.status == PendingHumanReview
      && m.value.signature == None
      && m.value.metadata == map[]
      && m.value.threadId == freshId
      && m.value.timestamp == now
  {
    TypeNameRoundTrip(t);
  }

  /** A type outside the enum is a validation error. */
  lemma ParseUnknownType(data: Record, freshId: string, now: string)
    requires "type" !in data || !data["type"].VStr? || TypeFromName(data["type"].s).None?
    ensures Parse(data, freshId, now).None?
  {
  }

  /** `signable_bytes()` serialises this dictionary: the dump without its
      signature. */
  function Signable(m: Message): (r: Record)
    ensures "signature" !in r
    ensures forall k :: k in Dump(m) && k != "signature" ==> k in r && r[k] == Dump(m)[k]
    ensures r.Keys == Dump(m).Keys - {"signature"}
  {
    UnsignedLacksSignature(m);
    BodyFields(m.body) + Unsigned(m)
  }

  /** Neither the body nor the rest of the envelope has a `signature` key. */
  lemma UnsignedLacksSignature(m: Message)
    ensures "signature" !in BodyFields(m.body) && "signature" !in Unsigned(m)
  {
  }

  /** Messages that differ only in their signature sign the same content. */
  lemma SignableIgnoresSignature(m: Message, sig: Option<string>)
    ensures Signable(m.(signature := sig)) == Signable(m)
  {
    var n := m.(signature := sig);
    assert n.version == m.version && n.threadId == m.threadId && n.fromDid == m.fromDid;
    assert n.toDid == m.toDid && n.content == m.content && n.status == m.status;
    assert n.timestamp == m.timestamp && n.metadata == m.metadata && n.body == m.body;
    assert Unsigned(n) == Unsigned(m);
  }

  /** Different content is different signable content. */
  lemma SignableSeparatesContent(m: Message, n: Message)
    requires Signable(m) == Signable(n)
    ensures m.content == n.content && m.fromDid == n.fromDid && m.toDid == n.toDid
    ensures m.threadId == n.threadId && m.timestamp == n.timestamp && TypeOf(m) == TypeOf(n)
  {
    DumpEnvelope(m);
    DumpEnvelope(n);
    TypeNameRoundTrip(TypeOf(m));
    TypeNameRoundTrip(TypeOf(n));
  }
}
