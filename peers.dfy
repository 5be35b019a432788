/**
 * The peer manager: known peers kept in the store's `peers.json`, each a
 * record with a DID, a trust score in [0, 1], an interaction count and the
 * owner's alias and block flag; and the gossip that spreads the list of
 * well-trusted DIDs between nodes.
 */
module Peers {
  import opened Wrappers
  import opened Values
  import opened Store
  import Text
  import Seqs
  import Identity

  const DefaultTrust: real := 0.5
  const MinTrust: real := 0.0
  const MaxTrust: real := 1.0
  /** A peer first heard of through gossip starts with low trust. */
  const GossipTrust: real := 0.2
  /** `get_gossip_payload` shares only peers at least this trusted. */
  const GossipMinTrust: real := 0.4
  const SuccessStep: real := 0.02
  const FailureStep: real := -0.05

  /** `max(_MIN_TRUST, min(_MAX_TRUST, x))` */
  function ClampTrust(x: real): (r: real)
    ensures MinTrust <= r <= MaxTrust
    ensures MinTrust <= x <= MaxTrust ==> r == x
    ensures x < MinTrust ==> r == MinTrust
    ensures x > MaxTrust ==> r == MaxTrust
  {
    if x > MaxTrust then MaxTrust else if x < MinTrust then MinTrust else x
  }

  /** `p.get("did") == did` */
  predicate HasDid(p: Record, did: Value)
  {
    Get(p, "did", VNull) == did
  }

  /** Index of the first record with that DID, or `|peers|`. */
  function PeerIndex(peers: seq<Record>, did: Value): (i: nat)
    ensures i <= |peers|
    ensures i < |peers| ==> HasDid(peers[i], did)
    ensures forall j :: 0 <= j < i ==> !HasDid(peers[j], did)
  {
    if peers == [] then 0
    else if HasDid(peers[0], did) then 0
    else 1 + PeerIndex(peers[1..], did)
  }

  /** The first record with that DID: `get_peer`, and the `next(...)` search
      of the queue. */
  function FindPeer(peers: seq<Record>, did: Value): (r: Option<Record>)
    ensures r.None? <==> forall j :: 0 <= j < |peers| ==> !HasDid(peers[j], did)
    ensures r.Some? ==> HasDid(r.value, did) && r.value in peers
  {
    var i := PeerIndex(peers, did);
    if i < |peers| then Some(peers[i]) else None
  }

  /** The record a new peer starts from. */
  function NewPeer(did: string, now: string): Record
  {
    map[
      "did" := VStr(did),
      "trust_score" := VReal(DefaultTrust),
      "added_at" := VStr(now),
      "updated_at" := VStr(now),
      "message_count" := VInt(0),
      "last_seen" := VNull]
  }

  /** The record `add_or_update(did, **kwargs)` writes. Python refuses a
      `did` keyword, so `kwargs` has none. */
  function Updated(existing: Option<Record>, did: string, kwargs: Record, now: string): Record
    requires "did" !in kwargs
  {
    match existing
    case Some(p) => p + kwargs + map["did" := VStr(did), "updated_at" := VStr(now)]
    case None => NewPeer(did, now) + kwargs
  }

  /** A known peer keeps every field the keyword arguments do not name, a new
      one gets the defaults they do not override, and the DID stays the one
      looked up. */
  lemma UpdatedFields(existing: Option<Record>, did: string, kwargs: Record, now: string)
    requires "did" !in kwargs
    ensures var peer := Updated(existing, did, kwargs, now);
      && "did" in peer && peer["did"] == VStr(did)
      && (forall k :: k in kwargs && k != "updated_at" ==> k in peer && peer[k] == kwargs[k])
      && (existing.Some? ==> peer.Keys == existing.value.Keys + kwargs.Keys + {"did", "updated_at"})
      && (existing.Some? ==> forall k :: k in existing.value && k !in kwargs && k != "did" && k != "updated_at" ==>
            k in peer && peer[k] == existing.value[k])
      && (existing.None? ==> forall k :: k in NewPeer(did, now) && k !in kwargs ==> k in peer && peer[k] == NewPeer(did, now)[k])
  {
  }

  /** The peer list after `add_or_update(did, **kwargs)`. */
  function Upsert(peers: seq<Record>, did: string, kwargs: Record, now: string): seq<Record>
    requires "did" !in kwargs
  {
    Upserted(peers, Updated(FindPeer(peers, VStr(did)), did, kwargs, now))
  }

  /** `upsert_peer` puts a record at the index of the first one with its DID,
      or at the end. */
  lemma UpsertedAt(peers: seq<Record>, peer: Record)
    ensures var i := PeerIndex(peers, Get(peer, "did", VNull));
      Upserted(peers, peer) == if i < |peers| then peers[i := peers[i] + peer] else peers + [peer]
  {
    var i := PeerIndex(peers, Get(peer, "did", VNull));
    if i < |peers| {
      UpsertedMerges(peers, peer, i);
    } else {
      UpsertedAppends(peers, peer);
    }
  }

  /** A record that carries every key of `p` absorbs `p` in a merge. */
  lemma MergeAbsorbs(p: Record, q: Record)
    requires p.Keys <= q.Keys
    ensures p + q == q
  {
  }

  lemma {:induction false} PeerIndexIs(peers: seq<Record>, did: Value, i: nat)
    requires i < |peers| && HasDid(peers[i], did)
    requires forall j :: 0 <= j < i ==> !HasDid(peers[j], did)
    ensures PeerIndex(peers, did) == i
  {
    if i > 0 {
      PeerIndexIs(peers[1..], did, i - 1);
    }
  }

  /** `add_or_update` replaces the peer's record in place, or appends a new
      one, and the peer is then found with exactly the record returned. */
  lemma UpsertShape(peers: seq<Record>, did: string, kwargs: Record, now: string)
    requires "did" !in kwargs
    ensures var i := PeerIndex(peers, VStr(did));
      var peer := Updated(FindPeer(peers, VStr(did)), did, kwargs, now);
      && Upsert(peers, did, kwargs, now) == (if i < |peers| then peers[i := peer] else peers + [peer])
      && FindPeer(Upsert(peers, did, kwargs, now), VStr(did)) == Some(peer)
      && PeerIndex(Upsert(peers, did, kwargs, now), VStr(did)) == i
  {
    var d := VStr(did);
    var i := PeerIndex(peers, d);
    var found := FindPeer(peers, d);
    var peer := Updated(found, did, kwargs, now);
    assert Get(peer, "did", VNull) == d && (i < |peers| ==> peers[i].Keys <= peer.Keys) by {
      UpdatedFields(found, did, kwargs, now);
      if i < |peers| {
        assert found == Some(peers[i]);
      }
    }
    UpsertPlaces(peers, peer, d, i);
  }

  lemma UpsertPlaces(peers: seq<Record>, peer: Record, d: Value, i: nat)
    requires Get(peer, "did", VNull) == d && i == PeerIndex(peers, d)
    requires i < |peers| ==> peers[i].Keys <= peer.Keys
    ensures Upserted(peers, peer) == (if i < |peers| then peers[i := peer] else peers + [peer])
    ensures forall j :: 0 <= j < i ==> Upserted(peers, peer)[j] == peers[j]
    ensures FindPeer(Upserted(peers, peer), d) == Some(peer)
    ensures PeerIndex(Upserted(peers, peer), d) == i
  {
    UpsertedAt(peers, peer);
    if i < |peers| {
      MergeAbsorbs(peers[i], peer);
    }
    var r := Upserted(peers, peer);
    assert i < |r| && r[i] == peer;
    PeerIndexIs(r, d, i);
  }

  /** `[p for p in peers if p.get("did") != did]` */
  function Without(peers: seq<Record>, did: string): (r: seq<Record>)
    ensures |r| <= |peers|
    ensures forall j :: 0 <= j < |r| ==> !HasDid(r[j], VStr(did)) && r[j] in peers
  {
    if peers == [] then []
    else (if HasDid(peers[0], VStr(did)) then [] else [peers[0]]) + Without(peers[1..], did)
  }

  /** Removal works element by element, so the survivors keep their order. */
  lemma {:induction false} WithoutConcat(a: seq<Record>, b: seq<Record>, did: string)
    ensures Without(a + b, did) == Without(a, did) + Without(b, did)
  {
    if a != [] {
      assert (a + b)[1..] == a[1..] + b;
      WithoutConcat(a[1..], b, did);
    } else {
      assert a + b == b;
    }
  }

  /** Every peer with another DID survives a removal. */
  lemma {:induction false} WithoutKeeps(peers: seq<Record>, did: string, p: Record)
    requires p in peers && !HasDid(p, VStr(did))
    ensures p in Without(peers, did)
  {
    if peers[0] != p {
      WithoutKeeps(peers[1..], did, p);
    }
  }

  /** `p.get("trust_score", 0)`, the reading used for filtering and sorting. */
  function TrustOf(p: Record): real
  {
    GetNum(p, "trust_score", 0.0)
  }

  /** `trusted_peers(min_trust)`: the peers at or above the bar, in order. */
  function TrustedPeers(peers: seq<Record>, minTrust: real): (r: seq<Record>)
    ensures |r| <= |peers|
    ensures forall j :: 0 <= j < |r| ==> TrustOf(r[j]) >= minTrust && r[j] in peers
    ensures forall p :: p in peers && TrustOf(p) >= minTrust ==> p in r
  {
    if peers == [] then []
    else (if TrustOf(peers[0]) >= minTrust then [peers[0]] else []) + TrustedPeers(peers[1..], minTrust)
  }

  /** The sort key of `get_gossip_payload`, as an ordering. */
  predicate MoreTrusted(a: Record, b: Record)
  {
    TrustOf(a) >= TrustOf(b)
  }

  lemma MoreTrustedPreorder()
    ensures Seqs.TotalPreorder(MoreTrusted)
  {
  }

  /** The peers `get_gossip_payload(max_peers)` shares: the trusted ones (at
      least 0.4), most trusted first, at most `max_peers` of them. */
  function GossipSelection(peers: seq<Record>, maxPeers: int): (r: seq<Record>)
    ensures maxPeers >= 0 ==> |r| <= maxPeers
    ensures forall j :: 0 <= j < |r| ==> TrustOf(r[j]) >= GossipMinTrust && r[j] in peers
    ensures forall i, j :: 0 <= i < j < |r| ==> TrustOf(r[i]) >= TrustOf(r[j])
  {
    var trusted := TrustedPeers(peers, GossipMinTrust);
    var sorted := Seqs.SortDesc(trusted, MoreTrusted);
    MoreTrustedPreorder();
    Seqs.SortDescSorted(trusted, MoreTrusted);
    Seqs.SortDescPermutation(trusted, MoreTrusted);
    var r := Seqs.SliceTo(sorted, maxPeers);
    assert forall j :: 0 <= j < |r| ==> r[j] == sorted[j];
    assert forall j :: 0 <= j < |r| ==> r[j] in multiset(trusted) by {
      forall j | 0 <= j < |r| ensures r[j] in multiset(trusted) {
        assert sorted[j] in multiset(sorted);
      }
    }
    r
  }

  /** The selection is the top of the trusted peers: as many as the slice
      `[:max_peers]` keeps, drawn from the trusted peers, and no trusted
      peer left out is more trusted than any peer selected. */
  lemma GossipSelectionTop(peers: seq<Record>, maxPeers: int)
    ensures var trusted := TrustedPeers(peers, GossipMinTrust);
      var r := GossipSelection(peers, maxPeers);
      && |r| == Seqs.Bound(maxPeers, |trusted|)
      && multiset(r) <= multiset(trusted)
      && forall p, j :: p in multiset(trusted) - multiset(r) && 0 <= j < |r| ==> TrustOf(r[j]) >= TrustOf(p)
  {
    var trusted := TrustedPeers(peers, GossipMinTrust);
    var sorted := Seqs.SortDesc(trusted, MoreTrusted);
    MoreTrustedPreorder();
    Seqs.SortDescSorted(trusted, MoreTrusted);
    Seqs.SortDescPermutation(trusted, MoreTrusted);
    Seqs.SortDescLength(trusted, MoreTrusted);
    var k := Seqs.Bound(maxPeers, |trusted|);
    assert GossipSelection(peers, maxPeers) == sorted[..k];
    Seqs.PrefixIsTop(sorted, k, MoreTrusted);
  }

  /** `[p["did"] for p in ...]`; a selected record without a `did` key raises
      `KeyError`, which is `None` here. */
  function Dids(rs: seq<Record>): (r: Option<seq<Value>>)
    ensures r.Some? <==> forall j :: 0 <= j < |rs| ==> "did" in rs[j]
    ensures r.Some? ==> |r.value| == |rs| && forall j :: 0 <= j < |rs| ==> r.value[j] == rs[j]["did"]
  {
    if rs == [] then Some([])
    else if "did" !in rs[0] then None
    else match Dids(rs[1..])
      case None => None
      case Some(rest) => Some([rs[0]["did"]] + rest)
  }

  /** `get_gossip_payload(max_peers)` */
  function GossipPayload(peers: seq<Record>, maxPeers: int): Option<seq<Value>>
  {
    Dids(GossipSelection(peers, maxPeers))
  }

  /** What gossip shares: at most `max_peers` DIDs, each of a peer trusted at
      least 0.4, listed by non-increasing trust; every record in the store has
      a DID, so the payload exists. */
  lemma GossipPayloadShape(peers: seq<Record>, maxPeers: int)
    requires forall j :: 0 <= j < |peers| ==> "did" in peers[j]
    ensures GossipPayload(peers, maxPeers).Some?
    ensures var ds := GossipPayload(peers, maxPeers).value;
      var sel := GossipSelection(peers, maxPeers);
      && (maxPeers >= 0 ==> |ds| <= maxPeers)
      && |ds| == |sel|
      && (forall j :: 0 <= j < |ds| ==> ds[j] == sel[j]["did"] && TrustOf(sel[j]) >= GossipMinTrust)
      && (forall i, j :: 0 <= i < j < |ds| ==> TrustOf(sel[i]) >= TrustOf(sel[j]))
  {
    var sel := GossipSelection(peers, maxPeers);
    forall j | 0 <= j < |sel| ensures "did" in sel[j] {
      assert sel[j] in peers;
    }
  }

  /** The record a DID learnt through gossip from `source` gets. */
  function GossipPeer(did: string, source: string, now: string): Record
  {
    Updated(None, did, map["trust_score" := VReal(GossipTrust), "source" := VStr(source)], now)
  }

  /** The peer list after `merge_gossip(incoming, source)`: each DID that is
      not the source and not yet known, including earlier in the same list,
      is appended as a gossip peer. */
  function Gossiped(peers: seq<Record>, incoming: seq<string>, source: string, now: string): seq<Record>
    decreases |incoming|
  {
    if incoming == [] then peers
    else
      var did := incoming[0];
      var next := if did != source && FindPeer(peers, VStr(did)).None? then peers + [GossipPeer(did, source, now)] else peers;
      Gossiped(next, incoming[1..], source, now)
  }

  /** `p` is the record gossip adds for one of the DIDs in `incoming` other
      than `source`. */
  predicate IsGossipOf(p: Record, incoming: seq<string>, source: string, now: string)
  {
    exists d :: d in incoming && d != source && p == GossipPeer(d, source, now)
  }

  /** Gossip only appends: every existing record, its `blocked` flag
      included, is left as it was, and every appended record is a fresh
      gossip peer from `source` with trust 0.2. */
  lemma {:induction false} GossipedAppends(peers: seq<Record>, incoming: seq<string>, source: string, now: string)
    ensures var r := Gossiped(peers, incoming, source, now);
      && |r| >= |peers| && r[..|peers|] == peers
      && (forall j :: |peers| <= j < |r| ==> IsGossipOf(r[j], incoming, source, now))
    decreases |incoming|
  {
    if incoming != [] {
      var did := incoming[0];
      var next := if did != source && FindPeer(peers, VStr(did)).None? then peers + [GossipPeer(did, source, now)] else peers;
      GossipedAppends(next, incoming[1..], source, now);
      var r := Gossiped(peers, incoming, source, now);
      assert r == Gossiped(next, incoming[1..], source, now);
      assert r[..|next|] == next;
      assert r[..|peers|] == next[..|peers|] == peers;
      forall j | |peers| <= j < |r|
        ensures IsGossipOf(r[j], incoming, source, now)
      {
        if j < |next| {
          assert r[j] == next[j] == GossipPeer(did, source, now);
          assert did in incoming;
        } else {
          GossipedFrom(r[j], incoming, source, now);
        }
      }
    }
  }

  /** A gossip record drawn from the tail of `incoming` is one drawn from
      `incoming`. */
  lemma GossipedFrom(p: Record, incoming: seq<string>, source: string, now: string)
    requires incoming != [] && IsGossipOf(p, incoming[1..], source, now)
    ensures IsGossipOf(p, incoming, source, now)
  {
    var d :| d in incoming[1..] && d != source && p == GossipPeer(d, source, now);
    assert d in incoming;
  }

  /** After gossip every incoming DID other than the source is known. */
  lemma {:induction false} GossipedKnows(peers: seq<Record>, incoming: seq<string>, source: string, now: string, d: string)
    requires d in incoming && d != source
    ensures FindPeer(Gossiped(peers, incoming, source, now), VStr(d)).Some?
    decreases |incoming|
  {
    var did := incoming[0];
    var next := if did != source && FindPeer(peers, VStr(did)).None? then peers + [GossipPeer(did, source, now)] else peers;
    if did == d {
      if FindPeer(peers, VStr(d)).None? {
        assert HasDid(next[|peers|], VStr(d));
      }
      assert FindPeer(next, VStr(d)).Some?;
      GossipedAppends(next, incoming[1..], source, now);
      FoundInExtension(next, Gossiped(next, incoming[1..], source, now), VStr(d));
    } else {
      GossipedKnows(next, incoming[1..], source, now, d);
    }
  }

  /** A DID found in a peer list is still found once records are appended. */
  lemma FoundInExtension(peers: seq<Record>, longer: seq<Record>, did: Value)
    requires |longer| >= |peers| && longer[..|peers|] == peers
    requires FindPeer(peers, did).Some?
    ensures FindPeer(longer, did).Some?
  {
    var k :| 0 <= k < |peers| && HasDid(peers[k], did);
    assert longer[k] == longer[..|peers|][k];
  }

  /** The DIDs that gossip from `source` brings to `peers`: those listed,
      other than the source, that no peer has yet. */
  function NewDids(peers: seq<Record>, incoming: seq<string>, source: string): set<string>
  {
    set d | d in incoming && d != source && FindPeer(peers, VStr(d)).None?
  }

  /** `p` is the gossip record of one of `dids`. */
  predicate IsGossipFrom(p: Record, dids: set<string>, source: string, now: string)
  {
    exists d :: d in dids && p == GossipPeer(d, source, now)
  }

  /** A gossip record carries the DID it was made for. */
  lemma GossipPeerDid(did: string, source: string, now: string)
    ensures Get(GossipPeer(did, source, now), "did", VNull) == VStr(did)
  {
    UpdatedFields(None, did, map["trust_score" := VReal(GossipTrust), "source" := VStr(source)], now);
  }

  /** The DID of a gossip record drawn from `dids`. */
  lemma GossipFromDid(p: Record, dids: set<string>, source: string, now: string) returns (d: string)
    requires IsGossipFrom(p, dids, source, now)
    ensures d in dids && p == GossipPeer(d, source, now) && Get(p, "did", VNull) == VStr(d)
  {
    d :| d in dids && p == GossipPeer(d, source, now);
    GossipPeerDid(d, source, now);
  }

  lemma GossipFromWiden(p: Record, dids: set<string>, more: set<string>, source: string, now: string)
    requires IsGossipFrom(p, dids, source, now) && dids <= more
    ensures IsGossipFrom(p, more, source, now)
  {
    var d :| d in dids && p == GossipPeer(d, source, now);
    assert d in more;
  }

  /** A DID is unknown to a list with one more record exactly when it is
      unknown to the list and not the new record's. */
  lemma FindPeerSnoc(peers: seq<Record>, p: Record, did: Value)
    ensures FindPeer(peers + [p], did).None? <==> FindPeer(peers, did).None? && !HasDid(p, did)
  {
    var ps := peers + [p];
    assert forall j :: 0 <= j < |peers| ==> ps[j] == peers[j];
    assert ps[|peers|] == p;
  }

  /** A new DID at the head of the gossip is added and leaves the set. */
  lemma NewDidsAdded(peers: seq<Record>, incoming: seq<string>, source: string, now: string)
    requires incoming != [] && incoming[0] != source && FindPeer(peers, VStr(incoming[0])).None?
    ensures var next := peers + [GossipPeer(incoming[0], source, now)];
      && incoming[0] !in NewDids(next, incoming[1..], source)
      && NewDids(peers, incoming, source) == NewDids(next, incoming[1..], source) + {incoming[0]}
  {
    var did := incoming[0];
    var tail := incoming[1..];
    var g := GossipPeer(did, source, now);
    var next := peers + [g];
    GossipPeerDid(did, source, now);
    forall d ensures d in NewDids(peers, incoming, source) <==> d in NewDids(next, tail, source) || d == did {
      FindPeerSnoc(peers, g, VStr(d));
      assert d in incoming <==> d == did || d in tail;
    }
    FindPeerSnoc(peers, g, VStr(did));
  }

  /** How the set of new DIDs changes over one step of `merge_gossip`. */
  lemma NewDidsStep(peers: seq<Record>, incoming: seq<string>, source: string, now: string)
    requires incoming != []
    ensures var did := incoming[0];
      var tail := incoming[1..];
      if did != source && FindPeer(peers, VStr(did)).None? then
        var next := peers + [GossipPeer(did, source, now)];
        did !in NewDids(next, tail, source) && NewDids(peers, incoming, source) == NewDids(next, tail, source) + {did}
      else NewDids(peers, incoming, source) == NewDids(peers, tail, source)
  {
    var did := incoming[0];
    var tail := incoming[1..];
    if did != source && FindPeer(peers, VStr(did)).None? {
      NewDidsAdded(peers, incoming, source, now);
    } else {
      forall d ensures d in NewDids(peers, incoming, source) <==> d in NewDids(peers, tail, source) {
        assert d in incoming <==> d == did || d in tail;
      }
    }
  }

  /** `merge_gossip` de-duplicates: every appended record is the gossip
      record of a new DID (listed, not the source, not yet known), no two
      appended records share a DID, and as many are appended as there are
      new DIDs. */
  lemma {:induction false} GossipedDistinct(peers: seq<Record>, incoming: seq<string>, source: string, now: string)
    ensures var r := Gossiped(peers, incoming, source, now);
      var added := NewDids(peers, incoming, source);
      && |r| - |peers| == |added|
      && (forall j :: |peers| <= j < |r| ==> IsGossipFrom(r[j], added, source, now))
      && (forall i, j :: |peers| <= i < j < |r| ==> Get(r[i], "did", VNull) != Get(r[j], "did", VNull))
    decreases |incoming|
  {
    var r := Gossiped(peers, incoming, source, now);
    var added := NewDids(peers, incoming, source);
    if incoming == [] {
      assert added == {};
    } else {
      var did := incoming[0];
      var tail := incoming[1..];
      var next := if did != source && FindPeer(peers, VStr(did)).None? then peers + [GossipPeer(did, source, now)] else peers;
      assert r == Gossiped(next, tail, source, now);
      GossipedDistinct(next, tail, source, now);
      GossipedAppends(next, tail, source, now);
      NewDidsStep(peers, incoming, source, now);
      var later := NewDids(next, tail, source);
      if next != peers {
        assert r[|peers|] == r[..|next|][|peers|] == GossipPeer(did, source, now);
        GossipPeerDid(did, source, now);
        forall j | |peers| <= j < |r|
          ensures IsGossipFrom(r[j], added, source, now)
        {
          if j == |peers| {
            assert did in added;
          } else {
            GossipFromWiden(r[j], later, added, source, now);
          }
        }
        forall i, j | |peers| <= i < j < |r|
          ensures Get(r[i], "did", VNull) != Get(r[j], "did", VNull)
        {
          if i == |peers| {
            var d := GossipFromDid(r[j], later, source, now);
          }
        }
      }
    }
  }

  /** The number `merge_gossip` returns is the number of DIDs it was told
      about that were new, counted once each, and so at most the length of
      the list. */
  lemma {:induction false} GossipedCount(peers: seq<Record>, incoming: seq<string>, source: string, now: string)
    ensures |Gossiped(peers, incoming, source, now)| - |peers| == |NewDids(peers, incoming, source)|
    ensures |Gossiped(peers, incoming, source, now)| - |peers| <= |incoming|
    decreases |incoming|
  {
    GossipedDistinct(peers, incoming, source, now);
    if incoming != [] {
      var did := incoming[0];
      var next := if did != source && FindPeer(peers, VStr(did)).None? then peers + [GossipPeer(did, source, now)] else peers;
      GossipedCount(next, incoming[1..], source, now);
    }
  }

  /** A gossip list made only of the source and known DIDs adds nothing. */
  lemma {:induction false} GossipedNothingNew(peers: seq<Record>, incoming: seq<string>, source: string, now: string)
    requires forall d :: d in incoming ==> d == source || FindPeer(peers, VStr(d)).Some?
    ensures Gossiped(peers, incoming, source, now) == peers
    decreases |incoming|
  {
    if incoming != [] {
      assert incoming[0] in incoming;
      GossipedNothingNew(peers, incoming[1..], source, now);
    }
  }

  /** `get_peer_display_name(did)`: a non-empty alias, else `@` and the
      fourth colon-separated segment, else the DID itself. */
  function DisplayName(peers: seq<Record>, did: string): (name: Value)
    ensures var p := FindPeer(peers, VStr(did));
      p.Some? && Truthy(Get(p.value, "alias", VNull)) ==> name == p.value["alias"]
  {
    var p := FindPeer(peers, VStr(did));
    if p.Some? && Truthy(Get(p.value, "alias", VNull)) then p.value["alias"]
    else
      var parts := Text.Split(did, ':');
      if |parts| >= 4 then VStr("@" + parts[3]) else VStr(did)
  }

  /** Without an alias, a node's DID displays as `@` and its node name. */
  lemma DisplayNameOfWbaDid(peers: seq<Record>, domain: string, name: string)
    requires ':' !in domain && ':' !in name
    requires var p := FindPeer(peers, VStr(Identity.WbaDid(domain, name)));
      p.None? || !Truthy(Get(p.value, "alias", VNull))
    ensures DisplayName(peers, Identity.WbaDid(domain, name)) == VStr("@" + name)
  {
    Identity.WbaDidSegments(domain, name);
  }

  /** A DID with fewer than four segments and no alias displays as itself. */
  lemma DisplayNameShortDid(peers: seq<Record>, did: string)
    requires |Text.Split(did, ':')| < 4
    requires var p := FindPeer(peers, VStr(did)); p.None? || !Truthy(Get(p.value, "alias", VNull))
    ensures DisplayName(peers, did) == VStr(did)
  {
  }

  /** Without an alias, a DID with four or more segments displays as `@` and
      its fourth segment, whatever follows it. */
  lemma DisplayNameLongDid(peers: seq<Record>, did: string)
    requires |Text.Split(did, ':')| >= 4
    requires var p := FindPeer(peers, VStr(did)); p.None? || !Truthy(Get(p.value, "alias", VNull))
    ensures DisplayName(peers, did) == VStr("@" + Text.Split(did, ':')[3])
  {
  }

  /** So a DID whose domain carries an unescaped port, such as
      `did:wba:localhost:8000:alice`, displays as `@8000`, not as the name. */
  lemma DisplayNamePortDid(peers: seq<Record>, host: string, port: string, name: string)
    requires ':' !in host && ':' !in port && ':' !in name
    requires var p := FindPeer(peers, VStr(Identity.WbaDid(host + ":" + port, name)));
      p.None? || !Truthy(Get(p.value, "alias", VNull))
    ensures DisplayName(peers, Identity.WbaDid(host + ":" + port, name)) == VStr("@" + port)
  {
    var did := Identity.WbaDid(host + ":" + port, name);
    var parts := ["did", "wba", host, port, name];
    assert parts[1..] == ["wba", host, port, name] && parts[2..] == [host, port, name];
    assert parts[3..] == [port, name] && parts[4..] == [name];
    assert Text.Join(parts[3..], ":") == port + ":" + name;
    assert Text.Join(parts[2..], ":") == host + ":" + (port + ":" + name);
    assert Text.Join(parts[1..], ":") == "wba" + ":" + (host + ":" + (port + ":" + name));
    assert Text.Join(parts, ":") == did;
    assert ':' !in "wba" && ':' !in "did";
    Text.JoinSplit(parts, ':');
  }

  twostate predicate OnlyPeersChanged(s: EssenceStore)
    reads s
  {
    && s.identity == old(s.identity) && s.patterns == old(s.patterns) && s.context == old(s.context)
    && s.corrections == old(s.corrections) && s.budget == old(s.budget) && s.threads == old(s.threads)
  }

  /** The trust a peer has before an adjustment: a missing peer is first
      added with the default. */
  function CurrentTrust(p: Option<Record>): real
  {
    if p.Some? then GetNum(p.value, "trust_score", DefaultTrust) else DefaultTrust
  }

  function MessageCount(p: Option<Record>): int
  {
    if p.Some? then GetInt(p.value, "message_count", 0) else 0
  }

  /** The peer list after `get_peer(did) or add_or_update(did)`. */
  function Ensured(peers: seq<Record>, did: string, now: string): seq<Record>
  {
    if FindPeer(peers, VStr(did)).Some? then peers else Upsert(peers, did, map[], now)
  }

  lemma EnsuredFinds(peers: seq<Record>, did: string, now: string)
    ensures var p := FindPeer(Ensured(peers, did, now), VStr(did));
      && p.Some?
      && CurrentTrust(p) == CurrentTrust(FindPeer(peers, VStr(did)))
      && MessageCount(p) == MessageCount(FindPeer(peers, VStr(did)))
  {
    UpsertShape(peers, did, map[], now);
  }

  /** The fields `record_interaction` writes for a peer found as `before`:
      one more interaction, seen now, trust moved by +0.02 or -0.05 within
      [0, 1]. */
  function InteractionFields(before: Option<Record>, successful: bool, now: string): Record
  {
    map["message_count" := VInt(MessageCount(before) + 1), "last_seen" := VStr(now),
        "trust_score" := VReal(ClampTrust(CurrentTrust(before) + if successful then SuccessStep else FailureStep))]
  }

  /** The peer list after `record_interaction(did, successful)`. */
  function Interacted(peers: seq<Record>, did: string, successful: bool, now: string): seq<Record>
  {
    Upsert(Ensured(peers, did, now), did, InteractionFields(FindPeer(peers, VStr(did)), successful, now), now)
  }

  class PeerManager {
    const store: EssenceStore

    constructor (store: EssenceStore)
      ensures this.store == store
    {
      this.store := store;
    }

    /** `get_peer(did)` */
    function GetPeer(did: string): Option<Record>
      reads store
    {
      FindPeer(store.ReadPeers(), VStr(did))
    }

    /** `add_or_update(did, **kwargs)`; the clock is a parameter. */
    method AddOrUpdate(did: string, kwargs: Record, now: string) returns (peer: Record)
      requires "did" !in kwargs
      modifies store
      ensures peer == Updated(old(GetPeer(did)), did, kwargs, now)
      ensures store.peers == Some(Upsert(old(store.ReadPeers()), did, kwargs, now))
      ensures GetPeer(did) == Some(peer)
      ensures OnlyPeersChanged(store)
    {
      var existing := GetPeer(did);
      peer := Updated(existing, did, kwargs, now);
      UpsertShape(store.ReadPeers(), did, kwargs, now);
      store.UpsertPeer(peer);
    }

    /** `remove(did)` */
    method Remove(did: string)
      modifies store
      ensures store.peers == Some(Without(old(store.ReadPeers()), did))
      ensures GetPeer(did).None?
      ensures OnlyPeersChanged(store)
    {
      var peers := Without(store.ReadPeers(), did);
      store.WritePeers(peers);
    }

    /** `adjust_trust(did, delta)`: the clamped new score is returned and
        stored, the peer being created first if unknown. */
    method AdjustTrust(did: string, delta: real, now: string) returns (newScore: real)
      modifies store
      ensures newScore == ClampTrust(CurrentTrust(old(GetPeer(did))) + delta)
      ensures store.peers == Some(Upsert(Ensured(old(store.ReadPeers()), did, now), did,
                                         map["trust_score" := VReal(newScore)], now))
      ensures GetPeer(did).Some? && "trust_score" in GetPeer(did).value
      ensures GetPeer(did).value["trust_score"] == VReal(newScore)
      ensures OnlyPeersChanged(store)
    {
      ghost var before := store.ReadPeers();
      EnsuredFinds(before, did, now);
      var peer := GetPeer(did);
      if peer.None? {
        var created := AddOrUpdate(did, map[], now);
        peer := Some(created);
      }
      assert store.ReadPeers() == Ensured(before, did, now);
      assert GetPeer(did) == peer;
      var current := GetNum(peer.value, "trust_score", DefaultTrust);
      newScore := ClampTrust(current + delta);
      var written := AddOrUpdate(did, map["trust_score" := VReal(newScore)], now);
    }

    /** `record_interaction(did, successful)`: one more interaction, seen
        now, trust moved by +0.02 or -0.05 within [0, 1]. */
    method RecordInteraction(did: string, successful: bool, now: string)
      modifies store
      ensures store.peers == Some(Interacted(old(store.ReadPeers()), did, successful, now))
      ensures var before := old(GetPeer(did));
        var trust := ClampTrust(CurrentTrust(before) + if successful then SuccessStep else FailureStep);
        && GetPeer(did).Some?
        && "message_count" in GetPeer(did).value && "trust_score" in GetPeer(did).value
        && GetPeer(did).value["message_count"] == VInt(MessageCount(before) + 1)
        && GetPeer(did).value["trust_score"] == VReal(trust)
      ensures OnlyPeersChanged(store)
    {
      ghost var before := store.ReadPeers();
      EnsuredFinds(before, did, now);
      var peer := GetPeer(did);
      if peer.None? {
        var created := AddOrUpdate(did, map[], now);
        peer := Some(created);
      }
      assert store.ReadPeers() == Ensured(before, did, now);
      assert GetPeer(did) == peer;
      var count := GetInt(peer.value, "message_count", 0) + 1;
      var delta := if successful then SuccessStep else FailureStep;
      var trust := ClampTrust(GetNum(peer.value, "trust_score", DefaultTrust) + delta);
      var fields := map["message_count" := VInt(count), "last_seen" := VStr(now), "trust_score" := VReal(trust)];
      assert fields == InteractionFields(FindPeer(before, VStr(did)), successful, now);
      assert "message_count" in fields && fields["message_count"] == VInt(count);
      assert "trust_score" in fields && fields["trust_score"] == VReal(trust);
      UpdatedFields(peer, did, fields, now);
      var written := AddOrUpdate(did, fields, now);
    }

    /** `trusted_peers(min_trust)` */
    function Trusted(minTrust: real): (r: seq<Record>)
      reads store
      ensures forall p :: p in r <==> p in store.ReadPeers() && TrustOf(p) >= minTrust
    {
      TrustedPeers(store.ReadPeers(), minTrust)
    }

    /** `merge_gossip(incoming_dids, source_did)`: the loop of the source
        against `Gossiped`; the count is the number of records appended. */
    method MergeGossip(incoming: seq<string>, source: string, now: string) returns (added: nat)
      modifies store
      ensures store.ReadPeers() == Gossiped(old(store.ReadPeers()), incoming, source, now)
      ensures added == |store.ReadPeers()| - |old(store.ReadPeers())|
      ensures added == |NewDids(old(store.ReadPeers()), incoming, source)|
      ensures added == 0 ==> store.peers == old(store.peers)
      ensures OnlyPeersChanged(store)
    {
      ghost var before := store.ReadPeers();
      added := 0;
      var i := 0;
      while i < |incoming|
        invariant 0 <= i <= |incoming|
        invariant Gossiped(before, incoming, source, now) == Gossiped(store.ReadPeers(), incoming[i..], source, now)
        invariant |store.ReadPeers()| == |before| + added
        invariant added == 0 ==> store.peers == old(store.peers)
        invariant OnlyPeersChanged(store)
      {
        var did := incoming[i];
        assert incoming[i..][1..] == incoming[i + 1..];
        if did != source && GetPeer(did).None? {
          ghost var ps := store.ReadPeers();
          UpsertShape(ps, did, map["trust_score" := VReal(GossipTrust), "source" := VStr(source)], now);
          var peer := AddOrUpdate(did, map["trust_score" := VReal(GossipTrust), "source" := VStr(source)], now);
          added := added + 1;
        }
        i := i + 1;
      }
      GossipedCount(before, incoming, source, now);
    }
  }
}
