/**
 * The essence store: the node's local files, held as fields. Each file is an
 * `Option` (`None` while the file does not exist) and a reader returns the
 * same default the node uses for a missing file. The threads directory is a
 * map from thread id to that thread's message list.
 */
module Store {
  import opened Wrappers
  import opened Values

  /** A line of `corrections.log`: a JSON object, or a line holding only
      whitespace (which a hand edit can leave behind). */
  datatype Line = Entry(correction: Record) | Blank

  /** The JSON objects of the log, in order, blank lines skipped. */
  function Entries(lines: seq<Line>): (r: seq<Record>)
    ensures |r| <= |lines|
    ensures forall c :: c in r <==> Entry(c) in lines
    ensures Blank !in lines ==> |r| == |lines|
  {
    if lines == [] then []
    else
      assert forall l :: l in lines <==> l == lines[0] || l in lines[1..];
      if lines[0].Blank? then Entries(lines[1..])
      else [lines[0].correction] + Entries(lines[1..])
  }

  /** A blank line, wherever it sits, adds no correction. */
  lemma {:induction false} EntriesBlank(before: seq<Line>, after: seq<Line>)
    ensures Entries(before + [Blank] + after) == Entries(before + after)
    decreases |before|
  {
    if before == [] {
      assert (before + [Blank] + after)[1..] == before + after;
    } else {
      assert (before + [Blank] + after)[1..] == before[1..] + [Blank] + after;
      assert (before + after)[1..] == before[1..] + after;
      EntriesBlank(before[1..], after);
    }
  }

  lemma {:induction false} EntriesAppend(lines: seq<Line>, c: Record)
    ensures Entries(lines + [Entry(c)]) == Entries(lines) + [c]
  {
    if lines != [] {
      assert (lines + [Entry(c)])[1..] == lines[1..] + [Entry(c)];
      EntriesAppend(lines[1..], c);
    }
  }

  /** `p.get("did") == peer.get("did")`: a missing key and JSON null both
      read as `None`. */
  predicate SameDid(p: Record, q: Record)
  {
    Get(p, "did", VNull) == Get(q, "did", VNull)
  }

  /** The peer list after `upsert_peer(peer)`: the first entry with the same
      DID is merged with `peer` in place, or `peer` is appended. */
  function Upserted(peers: seq<Record>, peer: Record): seq<Record>
  {
    if peers == [] then [peer]
    else if SameDid(peers[0], peer) then [peers[0] + peer] + peers[1..]
    else [peers[0]] + Upserted(peers[1..], peer)
  }

  /** An upsert merges the peer into the first entry with its DID, in place,
      and keeps every other entry. */
  lemma {:induction false} UpsertedMerges(peers: seq<Record>, peer: Record, i: nat)
    requires i < |peers| && SameDid(peers[i], peer)
    requires forall j :: 0 <= j < i ==> !SameDid(peers[j], peer)
    ensures Upserted(peers, peer) == peers[i := peers[i] + peer]
  {
    if i > 0 {
      UpsertedMerges(peers[1..], peer, i - 1);
      assert peers[1..][i - 1 := peers[i] + peer] == peers[i := peers[i] + peer][1..];
    }
  }

  /** With no entry of that DID, an upsert appends the peer. */
  lemma {:induction false} UpsertedAppends(peers: seq<Record>, peer: Record)
    requires forall j :: 0 <= j < |peers| ==> !SameDid(peers[j], peer)
    ensures Upserted(peers, peer) == peers + [peer]
  {
    if peers != [] {
      assert !SameDid(peers[0], peer);
      UpsertedAppends(peers[1..], peer);
      assert peers == [peers[0]] + peers[1..];
    }
  }

  /** One step of the index loop of `upsert_peer`. */
  lemma UpsertedStep(ps: seq<Record>, i: nat, peer: Record)
    requires i < |ps|
    ensures SameDid(ps[i], peer) ==> ps[..i] + Upserted(ps[i..], peer) == ps[i := ps[i] + peer]
    ensures !SameDid(ps[i], peer) ==> ps[..i] + Upserted(ps[i..], peer) == ps[..i + 1] + Upserted(ps[i + 1..], peer)
  {
    assert ps[i..] == [ps[i]] + ps[i + 1..];
    assert ps[..i + 1] == ps[..i] + [ps[i]];
    if SameDid(ps[i], peer) {
      assert ps[..i] + ([ps[i] + peer] + ps[i + 1..]) == ps[i := ps[i] + peer];
    }
  }

  /** A JSON value Python adds to and compares with numbers: an int, a
      float, or a bool (which counts as 0 or 1). */
  predicate IsNumeric(v: Value)
  {
    v.VInt? || v.VReal? || v.VBool?
  }

  /** The number a numeric value stands for; any other value reads as
      `default`. */
  function NumberOr(v: Value, default: real): real
  {
    match v
    case VInt(i) => i as real
    case VReal(x) => x
    case VBool(b) => if b then 1.0 else 0.0
    case _ => default
  }

  /** `budget.get(k, default)` read as a number. */
  function BudgetNumber(budget: Record, k: string, default: real): real
  {
    if k in budget then NumberOr(budget[k], default) else default
  }

  /** `budget.get(k, 0) + n`: an int or bool counter becomes an int, a
      float one stays a float, and the number grows by `n`. */
  function PlusCount(v: Value, n: int): (r: Value)
    requires IsNumeric(v)
    ensures IsNumeric(r) && NumberOr(r, 0.0) == NumberOr(v, 0.0) + n as real
    ensures r.VReal? <==> v.VReal?
  {
    match v
    case VReal(x) => VReal(x + n as real)
    case VInt(i) => VInt(i + n)
    case VBool(b) => VInt((if b then 1 else 0) + n)
  }

  /** The counters `record_usage` adds to are, when present, values Python
      can add an int to. */
  predicate CountersAreNumeric(budget: Record)
  {
    && ("used_tokens" in budget ==> IsNumeric(budget["used_tokens"]))
    && ("calls_total" in budget ==> IsNumeric(budget["calls_total"]))
  }

  const DefaultMonthlyLimit := 500000

  const InitialContext :=
    "# Contexto del nodo\n\n"
    + "Este archivo acumula conocimiento sobre el dueño del nodo.\n"
    + "Será editado automáticamente por el sistema y manualmente por el dueño.\n"

  /** `budget.json` as `initialize` first writes it. */
  function FreshBudget(donationPct: int, now: string): (b: Record)
    ensures CountersAreNumeric(b)
    ensures BudgetNumber(b, "used_tokens", 0.0) == 0.0 && BudgetNumber(b, "calls_total", 0.0) == 0.0
    ensures BudgetNumber(b, "monthly_limit_tokens", DefaultMonthlyLimit as real) == DefaultMonthlyLimit as real
  {
    map[
      "monthly_limit_tokens" := VInt(DefaultMonthlyLimit),
      "used_tokens" := VInt(0),
      "donation_pct" := VInt(donationPct),
      "calls_total" := VInt(0),
      "last_reset" := VStr(now)]
  }

  /** A file after `initialize`: written with its initial content when
      missing, left as it was otherwise. */
  function Created<T>(file: Option<T>, initial: T): (r: Option<T>)
    ensures r.Some?
    ensures file.Some? ==> r == file
    ensures file.None? ==> r.value == initial
  {
    if file.None? then Some(initial) else file
  }

  class EssenceStore {
    var identity: Option<Record>
    var patterns: Option<seq<Record>>
    var context: Option<string>
    var corrections: Option<seq<Line>>
    var peers: Option<seq<Record>>
    var budget: Option<Record>
    var threads: map<string, seq<Record>>

    /** A store over an empty directory. */
    constructor ()
      ensures identity == None && patterns == None && context == None
      ensures corrections == None && peers == None && budget == None
      ensures threads == map[]
    {
      identity := None;
      patterns := None;
      context := None;
      corrections := None;
      peers := None;
      budget := None;
      threads := map[];
    }

    /** `initialize(identity_data)`: creates each missing file and leaves
        every existing one as it is. `donation_pct` and the clock are
        parameters. */
    method Initialize(identityData: Record, donationPct: int, now: string)
      modifies this
      ensures identity == if old(identity).None? then Some(identityData) else old(identity)
      ensures patterns == if old(patterns).None? then Some([]) else old(patterns)
      ensures context == if old(context).None? then Some(InitialContext) else old(context)
      ensures corrections == if old(corrections).None? then Some([]) else old(corrections)
      ensures peers == if old(peers).None? then Some([]) else old(peers)
      ensures budget == if old(budget).None? then Some(FreshBudget(donationPct, now)) else old(budget)
      ensures threads == old(threads)
      ensures identity.Some? && patterns.Some? && context.Some? && corrections.Some? && peers.Some? && budget.Some?
    {
      identity := Created(identity, identityData);
      patterns := Created(patterns, []);
      context := Created(context, InitialContext);
      corrections := Created(corrections, []);
      peers := Created(peers, []);
      budget := Created(budget, FreshBudget(donationPct, now));
    }

    function ReadIdentity(): Record
      reads this
    {
      if identity.Some? then identity.value else map[]
    }

    method WriteIdentity(data: Record)
      modifies this
      ensures identity == Some(data)
      ensures patterns == old(patterns) && context == old(context) && corrections == old(corrections)
      ensures peers == old(peers) && budget == old(budget) && threads == old(threads)
    {
      identity := Some(data);
    }

    function ReadPatterns(): seq<Record>
      reads this
    {
      if patterns.Some? then patterns.value else []
    }

    method WritePatterns(ps: seq<Record>)
      modifies this
      ensures patterns == Some(ps)
      ensures identity == old(identity) && context == old(context) && corrections == old(corrections)
      ensures peers == old(peers) && budget == old(budget) && threads == old(threads)
    {
      patterns := Some(ps);
    }

    /** `add_pattern(p)`: appended after the existing patterns. */
    method AddPattern(p: Record)
      modifies this
      ensures patterns == Some(old(ReadPatterns()) + [p])
      ensures ReadPatterns()[..|old(ReadPatterns())|] == old(ReadPatterns())
      ensures identity == old(identity) && context == old(context) && corrections == old(corrections)
      ensures peers == old(peers) && budget == old(budget) && threads == old(threads)
    {
      var ps := ReadPatterns();
      WritePatterns(ps + [p]);
      assert (ps + [p])[..|ps|] == ps;
    }

    function ReadContext(): string
      reads this
    {
      if context.Some? then context.value else ""
    }

    /** `append_context(section, content)`: a level-two heading and the text
        after what was there. */
    method AppendContext(section: string, content: string)
      modifies this
      ensures context == Some(old(ReadContext()) + "\n## " + section + "\n\n" + content + "\n")
      ensures identity == old(identity) && patterns == old(patterns) && corrections == old(corrections)
      ensures peers == old(peers) && budget == old(budget) && threads == old(threads)
    {
      var existing := ReadContext();
      context := Some(existing + "\n## " + section + "\n\n" + content + "\n");
    }

    function ReadLog(): seq<Line>
      reads this
    {
      if corrections.Some? then corrections.value else []
    }

    /** `read_corrections()`: the logged objects in order. */
    function ReadCorrections(): seq<Record>
      reads this
    {
      Entries(ReadLog())
    }

    /** `append_correction(c)`: one more line at the end of the log (the file
        is created if needed), with a timestamp only when `c` has none. */
    method AppendCorrection(c: Record, now: string)
      modifies this
      ensures corrections == Some(old(ReadLog()) + [Entry(SetDefault(c, "timestamp", VStr(now)))])
      ensures ReadCorrections() == old(ReadCorrections()) + [SetDefault(c, "timestamp", VStr(now))]
      ensures "timestamp" in c ==> ReadCorrections()[|ReadCorrections()| - 1] == c
      ensures identity == old(identity) && patterns == old(patterns) && context == old(context)
      ensures peers == old(peers) && budget == old(budget) && threads == old(threads)
    {
      var entry := SetDefault(c, "timestamp", VStr(now));
      EntriesAppend(ReadLog(), entry);
      corrections := Some(ReadLog() + [Entry(entry)]);
    }

    function ReadPeers(): seq<Record>
      reads this
    {
      if peers.Some? then peers.value else []
    }

    method WritePeers(ps: seq<Record>)
      modifies this
      ensures peers == Some(ps)
      ensures identity == old(identity) && patterns == old(patterns) && context == old(context)
      ensures corrections == old(corrections) && budget == old(budget) && threads == old(threads)
    {
      peers := Some(ps);
    }

    /** `upsert_peer(peer)`: the index loop of the source against
        `Upserted`. */
    method UpsertPeer(peer: Record)
      modifies this
      ensures peers == Some(Upserted(old(ReadPeers()), peer))
      ensures identity == old(identity) && patterns == old(patterns) && context == old(context)
      ensures corrections == old(corrections) && budget == old(budget) && threads == old(threads)
    {
      var ps := ReadPeers();
      var i := 0;
      while i < |ps|
        invariant 0 <= i <= |ps|
        invariant Upserted(ps, peer) == ps[..i] + Upserted(ps[i..], peer)
        invariant unchanged(this)
      {
        UpsertedStep(ps, i, peer);
        if SameDid(ps[i], peer) {
          WritePeers(ps[i := ps[i] + peer]);
          return;
        }
        i := i + 1;
      }
      assert ps[..i] == ps;
      WritePeers(ps + [peer]);
    }

    function ReadBudget(): Record
      reads this
    {
      if budget.Some? then budget.value else map[]
    }

    method WriteBudget(b: Record)
      modifies this
      ensures budget == Some(b)
      ensures identity == old(identity) && patterns == old(patterns) && context == old(context)
      ensures corrections == old(corrections) && peers == old(peers) && threads == old(threads)
    {
      budget := Some(b);
    }

    /** Tokens used so far; 0 when not recorded. */
    function UsedTokens(): real
      reads this
    {
      BudgetNumber(ReadBudget(), "used_tokens", 0.0)
    }

    function CallsTotal(): real
      reads this
    {
      BudgetNumber(ReadBudget(), "calls_total", 0.0)
    }

    function MonthlyLimit(): real
      reads this
    {
      BudgetNumber(ReadBudget(), "monthly_limit_tokens", DefaultMonthlyLimit as real)
    }

    /** `record_usage(tokens_used)`: both counters move, keeping an int
        counter an int and a float one a float, and every other budget field
        is kept. */
    method RecordUsage(tokensUsed: int)
      requires CountersAreNumeric(ReadBudget())
      modifies this
      ensures var b := old(ReadBudget());
        budget == Some(b["used_tokens" := PlusCount(Get(b, "used_tokens", VInt(0)), tokensUsed)]
                        ["calls_total" := PlusCount(Get(b, "calls_total", VInt(0)), 1)])
      ensures UsedTokens() == old(UsedTokens()) + tokensUsed as real
      ensures CallsTotal() == old(CallsTotal()) + 1.0
      ensures MonthlyLimit() == old(MonthlyLimit())
      ensures CountersAreNumeric(ReadBudget())
      ensures tokensUsed >= 0 && old(IsOverBudget()) ==> IsOverBudget()
      ensures identity == old(identity) && patterns == old(patterns) && context == old(context)
      ensures corrections == old(corrections) && peers == old(peers) && threads == old(threads)
    {
      var b := ReadBudget();
      b := b["used_tokens" := PlusCount(Get(b, "used_tokens", VInt(0)), tokensUsed)];
      b := b["calls_total" := PlusCount(Get(b, "calls_total", VInt(0)), 1)];
      WriteBudget(b);
    }

    /** `is_over_budget()` */
    predicate IsOverBudget()
      reads this
    {
      UsedTokens() >= MonthlyLimit()
    }

    function ReadThread(threadId: string): seq<Record>
      reads this
    {
      if threadId in threads then threads[threadId] else []
    }

    method WriteThread(threadId: string, messages: seq<Record>)
      modifies this
      ensures threads == old(threads)[threadId := messages]
      ensures identity == old(identity) && patterns == old(patterns) && context == old(context)
      ensures corrections == old(corrections) && peers == old(peers) && budget == old(budget)
    {
      threads := threads[threadId := messages];
    }

    /** `append_to_thread(thread_id, message)`: the thread grows by one at
        the end; no other thread changes. */
    method AppendToThread(threadId: string, message: Record)
      modifies this
      ensures threads == old(threads)[threadId := old(ReadThread(threadId)) + [message]]
      ensures identity == old(identity) && patterns == old(patterns) && context == old(context)
      ensures corrections == old(corrections) && peers == old(peers) && budget == old(budget)
    {
      var messages := ReadThread(threadId);
      WriteThread(threadId, messages + [message]);
    }

    /** `list_threads()`: every thread that has a file. */
    function ListThreads(): set<string>
      reads this
    {
      threads.Keys
    }
  }

  /** Over budget exactly when the recorded usage reaches the limit, with
      0 used and a 500000 limit when the fields are missing. */
  lemma OverBudgetDefaults(s: EssenceStore)
    ensures s.IsOverBudget() <==>
      BudgetNumber(s.ReadBudget(), "used_tokens", 0.0) >= BudgetNumber(s.ReadBudget(), "monthly_limit_tokens", 500000.0)
    ensures s.budget.None? ==> !s.IsOverBudget()
  {
  }
}
