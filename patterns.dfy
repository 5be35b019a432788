/**
 * Reasoning-pattern extraction (esense/essence/patterns.py): the owner's
 * recent real edits are shown to the engine, its JSON reply is unfenced
 * and decoded, and the candidate patterns whose descriptions are new are
 * appended to the store. The engine, the prompt template and `json.loads`
 * are parameters: `generate` sees the `{original, edited}` pairs and gives
 * `None` when it raises; `decode` gives `None` on a `JSONDecodeError`.
 */
module Patterns {
  import opened Wrappers
  import opened Values
  import Seqs
  import Text
  import opened Store

  /** Default `last_n`. */
  const DefaultLastN := 5
  /** `confidence` given to a pattern that names none. */
  const DefaultConfidence := 0.5
  const Fence := "```"

  /** A correction where the owner really changed the proposal: both sides
      are truthy and they differ. */
  predicate Meaningful(c: Record)
  {
    && "edited" in c && "original" in c
    && Truthy(c["edited"]) && Truthy(c["original"])
    && c["edited"] != c["original"]
  }

  /** The `meaningful` filter, order kept. */
  function MeaningfulOf(cs: seq<Record>): (r: seq<Record>)
    ensures |r| <= |cs|
    ensures forall c :: c in r <==> c in cs && Meaningful(c)
    ensures forall i :: 0 <= i < |r| ==> Meaningful(r[i])
  {
    if cs == [] then []
    else (if Meaningful(cs[0]) then [cs[0]] else []) + MeaningfulOf(cs[1..])
  }

  /** What the engine is shown of each correction. */
  function Pairs(cs: seq<Record>): (r: seq<Record>)
    requires forall i :: 0 <= i < |cs| ==> Meaningful(cs[i])
    ensures |r| == |cs|
  {
    seq(|cs|, i requires 0 <= i < |cs| =>
      var c := cs[i];
      assert Meaningful(c);
      map["original" := c["original"], "edited" := c["edited"]])
  }

  /** The lines kept of a fenced reply: all but the first, and but the last
      too when that one is exactly the fence. */
  function Kept(lines: seq<string>): (r: seq<string>)
    requires lines != []
    ensures lines[|lines| - 1] != Fence ==> r == lines[1..]
    ensures lines[|lines| - 1] == Fence && |lines| >= 2 ==> r == lines[1..|lines| - 1]
  {
    if lines[|lines| - 1] != Fence then lines[1..]
    else if |lines| >= 2 then lines[1..|lines| - 1]
    else []
  }

  /** The engine's reply stripped of surrounding white space and of a
      Markdown code fence around it. */
  function Unfenced(raw: string): string
  {
    var text := Text.Strip(raw);
    if Text.StartsWith(text, Fence) then Text.Join(Kept(Text.Split(text, '\n')), "\n") else text
  }

  lemma StripUnchanged(s: string)
    requires s != [] && !Text.IsSpace(s[0]) && !Text.IsSpace(s[|s| - 1])
    ensures Text.Strip(s) == s
  {
  }

  /** A text opening with a fence and ending in a non-space character is
      left alone by the strip and keeps its fence. */
  lemma FencedText(header: string, rest: string)
    requires Text.StartsWith(header, Fence)
    requires rest != [] && !Text.IsSpace(rest[|rest| - 1])
    ensures Unfenced(header + rest) == Text.Join(Kept(Text.Split(header + rest, '\n')), "\n")
  {
    var text := header + rest;
    assert text[0] == '`';
    assert text[|text| - 1] == rest[|rest| - 1];
    StripUnchanged(text);
    assert text[..|Fence|] == header[..|Fence|];
  }

  /** Splitting a body framed by a first and a last line. */
  lemma SplitFramed(header: string, body: string, footer: string)
    requires '\n' !in header && '\n' !in footer
    ensures Text.Split(header + ['\n'] + (body + ['\n'] + footer), '\n') == [header] + (Text.Split(body, '\n') + [footer])
  {
    Text.SplitCons(header, '\n', body + ['\n'] + footer);
    Text.SplitSnoc(body, '\n', footer);
  }

  lemma FrameRegroup(header: string, body: string, footer: string)
    ensures header + (['\n'] + body + ['\n'] + footer) == header + ['\n'] + (body + ['\n'] + footer)
  {
  }

  /** The lines a fenced block is cut into. */
  lemma UnfencedFramed(header: string, body: string)
    requires Text.StartsWith(header, Fence) && '\n' !in header
    ensures Unfenced(header + (['\n'] + body + ['\n'] + Fence)) ==
      Text.Join(Kept([header] + (Text.Split(body, '\n') + [Fence])), "\n")
  {
    var rest := ['\n'] + body + ['\n'] + Fence;
    FencedText(header, rest);
    FrameRegroup(header, body, Fence);
    assert '\n' !in Fence;
    SplitFramed(header, body, Fence);
  }

  /** Dropping the first and the closing line and joining the rest gives
      back the body. */
  lemma KeptFramed(header: string, body: string)
    ensures Text.Join(Kept([header] + (Text.Split(body, '\n') + [Fence])), "\n") == body
  {
    var parts := Text.Split(body, '\n');
    var lines := [header] + (parts + [Fence]);
    assert lines[|lines| - 1] == Fence;
    assert lines[1..|lines| - 1] == parts;
    Text.SplitJoin(body, '\n');
  }

  /** A fenced block gives back exactly its body. */
  lemma UnfencedBlock(header: string, body: string)
    requires Text.StartsWith(header, Fence) && '\n' !in header
    ensures Unfenced(header + (['\n'] + body + ['\n'] + Fence)) == body
  {
    UnfencedFramed(header, body);
    KeptFramed(header, body);
  }

  lemma SplitUnclosed(header: string, body: string)
    requires '\n' !in header
    ensures Text.Split(header + (['\n'] + body), '\n') == [header] + Text.Split(body, '\n')
  {
    assert header + (['\n'] + body) == header + ['\n'] + body;
    Text.SplitCons(header, '\n', body);
  }

  /** An opening fence without a closing one: only the first line goes. */
  lemma UnfencedUnclosed(header: string, body: string)
    requires Text.StartsWith(header, Fence) && '\n' !in header
    requires body != [] && !Text.IsSpace(body[|body| - 1])
    requires Text.Split(body, '\n')[|Text.Split(body, '\n')| - 1] != Fence
    ensures Unfenced(header + (['\n'] + body)) == body
  {
    var rest := ['\n'] + body;
    FencedText(header, rest);
    SplitUnclosed(header, body);
    var parts := Text.Split(body, '\n');
    var lines := [header] + parts;
    assert lines[|lines| - 1] == parts[|parts| - 1];
    assert lines[1..] == parts;
    assert Kept(lines) == parts;
    Text.SplitJoin(body, '\n');
  }

  /** The lower-cased description of a pattern, or `None` when it is not a
      string (`.lower()` raises). A missing description reads as "". */
  function Description(p: Record): Option<string>
  {
    match Get(p, "description", VStr(""))
    case VStr(s) => Some(Text.Lower(s))
    case _ => None
  }

  /** The set of lower-cased descriptions of the stored patterns. */
  function KnownDescriptions(ps: seq<Record>): Option<set<string>>
  {
    if ps == [] then Some({})
    else match (Description(ps[0]), KnownDescriptions(ps[1..]))
      case (Some(d), Some(rest)) => Some({d} + rest)
      case _ => None
  }

  /** A candidate as it is appended: stamped with the extraction time, with
      a default confidence and example list when it has none. */
  function Stamped(p: Record, now: string): (r: Record)
    ensures r.Keys == p.Keys + {"extracted_at", "confidence", "examples"}
    ensures r["extracted_at"] == VStr(now)
    ensures r["confidence"] == if "confidence" in p then p["confidence"] else VReal(DefaultConfidence)
    ensures r["examples"] == if "examples" in p then p["examples"] else VList([])
    ensures forall k :: k in p && k !in {"extracted_at", "confidence", "examples"} ==> r[k] == p[k]
  {
    SetDefault(SetDefault(p["extracted_at" := VStr(now)], "confidence", VReal(DefaultConfidence)),
               "examples", VList([]))
  }

  /** The candidates the de-duplication loop appends: each one whose
      description is non-empty and unseen, where the seen set grows with
      every candidate appended. `None` when a candidate is not an object or
      has a non-string description (the loop raises). */
  function Fresh(seen: set<string>, candidates: seq<Value>, now: string): Option<seq<Record>>
    decreases |candidates|
  {
    if candidates == [] then Some([])
    else match candidates[0]
      case VObj(p) =>
        (match Description(p)
         case None => None
         case Some(d) =>
           if d == "" || d in seen then Fresh(seen, candidates[1..], now)
           else match Fresh(seen + {d}, candidates[1..], now)
             case None => None
             case Some(rest) => Some([Stamped(p, now)] + rest))
      case _ => None
  }

  /** The descriptions of a list of candidates. */
  function Named(candidates: seq<Value>): set<string>
  {
    if candidates == [] then {}
    else
      (match candidates[0]
       case VObj(p) => (match Description(p) case Some(d) => {d} case None => {})
       case _ => {})
      + Named(candidates[1..])
  }

  /** The descriptions of appended patterns. */
  function DescriptionsOf(ps: seq<Record>): set<string>
  {
    if ps == [] then {}
    else (match Description(ps[0]) case Some(d) => {d} case None => {}) + DescriptionsOf(ps[1..])
  }

  lemma StampedKeepsDescription(p: Record, now: string)
    ensures Description(Stamped(p, now)) == Description(p)
  {
    assert Get(Stamped(p, now), "description", VStr("")) == Get(p, "description", VStr(""));
  }

  /** De-duplication: the appended patterns have non-empty descriptions that
      were not seen, and no two of them share one. */
  lemma {:induction false} FreshDistinct(seen: set<string>, candidates: seq<Value>, now: string)
    requires Fresh(seen, candidates, now).Some?
    ensures var ps := Fresh(seen, candidates, now).value;
      && DescriptionsOf(ps) !! seen
      && "" !in DescriptionsOf(ps)
      && |DescriptionsOf(ps)| == |ps|
    decreases |candidates|
  {
    if candidates != [] {
      var p := candidates[0].fields;
      var d := Description(p).value;
      var tail := candidates[1..];
      if d == "" || d in seen {
        FreshDistinct(seen, tail, now);
      } else {
        FreshDistinct(seen + {d}, tail, now);
        var rest := Fresh(seen + {d}, tail, now).value;
        var ps := [Stamped(p, now)] + rest;
        assert Fresh(seen, candidates, now).value == ps;
        StampedKeepsDescription(p, now);
        assert ps[1..] == rest;
        assert DescriptionsOf(ps) == {d} + DescriptionsOf(rest);
      }
    }
  }

  /** ... and every non-empty description the candidates carry is seen
      afterwards. */
  lemma {:induction false} FreshCovers(seen: set<string>, candidates: seq<Value>, now: string)
    requires Fresh(seen, candidates, now).Some?
    ensures seen + DescriptionsOf(Fresh(seen, candidates, now).value) == seen + (Named(candidates) - {""})
    decreases |candidates|
  {
    if candidates != [] {
      var p := candidates[0].fields;
      var d := Description(p).value;
      var tail := candidates[1..];
      assert Named(candidates) == {d} + Named(tail);
      if d == "" || d in seen {
        FreshCovers(seen, tail, now);
        assert Fresh(seen, candidates, now) == Fresh(seen, tail, now);
        assert seen + (Named(candidates) - {""}) == seen + (Named(tail) - {""});
      } else {
        FreshCovers(seen + {d}, tail, now);
        var rest := Fresh(seen + {d}, tail, now).value;
        var ps := [Stamped(p, now)] + rest;
        assert Fresh(seen, candidates, now).value == ps;
        StampedKeepsDescription(p, now);
        assert ps[1..] == rest;
        assert DescriptionsOf(ps) == {d} + DescriptionsOf(rest);
        assert seen + DescriptionsOf(ps) == (seen + {d}) + DescriptionsOf(rest);
        assert seen + (Named(candidates) - {""}) == (seen + {d}) + (Named(tail) - {""});
      }
    }
  }

  /** Each appended pattern carries the extraction time and the defaults. */
  lemma {:induction false} FreshStamped(seen: set<string>, candidates: seq<Value>, now: string)
    requires Fresh(seen, candidates, now).Some?
    ensures var ps := Fresh(seen, candidates, now).value;
      forall i :: 0 <= i < |ps| ==>
        && "extracted_at" in ps[i] && ps[i]["extracted_at"] == VStr(now)
        && "confidence" in ps[i] && "examples" in ps[i]
    decreases |candidates|
  {
    if candidates != [] {
      var p := candidates[0].fields;
      var d := Description(p).value;
      if d == "" || d in seen {
        FreshStamped(seen, candidates[1..], now);
      } else {
        FreshStamped(seen + {d}, candidates[1..], now);
      }
    }
  }

  /** The outcome of `extract_patterns`: the patterns it appended (their
      number is its return value) or an exception. */
  datatype Outcome = Returned(added: seq<Record>) | Raised

  /** `extract_patterns(store, engine, last_n)` as a function of the stored
      corrections and patterns. */
  function Extraction(corrections: seq<Record>, existing: seq<Record>, lastN: int,
                      generate: seq<Record> -> Option<string>, decode: string -> Option<Value>,
                      now: string): (r: Outcome)
    ensures corrections == [] ==> r == Returned([])
    ensures MeaningfulOf(Seqs.SliceFrom(corrections, -lastN)) == [] ==> r == Returned([])
    ensures r != Returned([]) ==>
      var recent := MeaningfulOf(Seqs.SliceFrom(corrections, -lastN));
      && recent != []
      && generate(Pairs(recent)).Some?
      && var reply := decode(Unfenced(generate(Pairs(recent)).value));
         reply.Some? && reply.value.VList? && reply.value.items != []
  {
    if corrections == [] then Returned([])
    else
      var recent := MeaningfulOf(Seqs.SliceFrom(corrections, -lastN));
      if recent == [] then Returned([])
      else match generate(Pairs(recent))
        case None => Returned([])
        case Some(raw) =>
          match decode(Unfenced(raw))
          case Some(VList(candidates)) =>
            if candidates == [] then Returned([])
            else
              (match KnownDescriptions(existing)
               case None => Raised
               case Some(seen) =>
                 match Fresh(seen, candidates, now)
                 case None => Raised
                 case Some(ps) => Returned(ps))
          case _ => Returned([])
  }

  /** What an extraction appends is new: no appended description was among
      the stored ones, no two appended patterns share one, and every
      non-empty description the engine proposed is now among the known
      ones. */
  lemma ExtractionAddsOnlyNew(corrections: seq<Record>, existing: seq<Record>, lastN: int,
                              generate: seq<Record> -> Option<string>, decode: string -> Option<Value>,
                              now: string)
    requires Extraction(corrections, existing, lastN, generate, decode, now).Returned?
    requires Extraction(corrections, existing, lastN, generate, decode, now).added != []
    ensures var ps := Extraction(corrections, existing, lastN, generate, decode, now).added;
      && KnownDescriptions(existing).Some?
      && DescriptionsOf(ps) !! KnownDescriptions(existing).value
      && |DescriptionsOf(ps)| == |ps|
      && "" !in DescriptionsOf(ps)
  {
    var recent := MeaningfulOf(Seqs.SliceFrom(corrections, -lastN));
    var candidates := decode(Unfenced(generate(Pairs(recent)).value)).value.items;
    FreshDistinct(KnownDescriptions(existing).value, candidates, now);
  }

  function Prefixed(acc: seq<Record>, o: Option<seq<Record>>): Option<seq<Record>>
  {
    if o.None? then None else Some(acc + o.value)
  }

  /** One step of `Fresh` at position `i` of the candidates. */
  lemma FreshStep(seen: set<string>, candidates: seq<Value>, i: nat, now: string)
    requires i < |candidates|
    ensures !candidates[i].VObj? ==> Fresh(seen, candidates[i..], now).None?
    ensures candidates[i].VObj? && Description(candidates[i].fields).None? ==> Fresh(seen, candidates[i..], now).None?
    ensures candidates[i].VObj? && Description(candidates[i].fields).Some? ==>
      var d := Description(candidates[i].fields).value;
      var tail := Fresh(seen + {d}, candidates[i + 1..], now);
      Fresh(seen, candidates[i..], now) ==
        if d == "" || d in seen then Fresh(seen, candidates[i + 1..], now)
        else if tail.None? then None else Some([Stamped(candidates[i].fields, now)] + tail.value)
  {
    var here := candidates[i..];
    assert here[0] == candidates[i] && here[1..] == candidates[i + 1..];
  }

  /** Moving one pattern from the front of a result onto the accumulator. */
  lemma PrefixedCons(acc: seq<Record>, p: Record, tail: Option<seq<Record>>)
    ensures Prefixed(acc, if tail.None? then None else Some([p] + tail.value)) == Prefixed(acc + [p], tail)
  {
    if tail.Some? {
      assert acc + ([p] + tail.value) == (acc + [p]) + tail.value;
    }
  }

  /** The de-duplication loop of `extract_patterns`: the candidates it
      appends, or `None` when one of them makes it raise. */
  method Deduplicate(known: set<string>, candidates: seq<Value>, now: string) returns (r: Option<seq<Record>>)
    ensures r == Fresh(known, candidates, now)
  {
    var seen := known;
    var appended: seq<Record> := [];
    var i := 0;
    assert candidates[0..] == candidates;
    var start := Fresh(seen, candidates, now);
    if start.Some? {
      assert appended + start.value == start.value;
    }
    while i < |candidates|
      invariant 0 <= i <= |candidates|
      invariant Fresh(known, candidates, now) == Prefixed(appended, Fresh(seen, candidates[i..], now))
    {
      FreshStep(seen, candidates, i, now);
      if !candidates[i].VObj? {
        return None;
      }
      var p := candidates[i].fields;
      var d := Description(p);
      if d.None? {
        return None;
      }
      if d.value != "" && d.value !in seen {
        var stamped := Stamped(p, now);
        PrefixedCons(appended, stamped, Fresh(seen + {d.value}, candidates[i + 1..], now));
        appended := appended + [stamped];
        seen := seen + {d.value};
      }
      i := i + 1;
    }
    assert candidates[i..] == [] && appended + [] == appended;
    r := Some(appended);
  }

  /** `extract_patterns(store, engine, last_n)`: the count of appended
      patterns, or `None` when it raises. The patterns are written, after
      the stored ones and in order, only when at least one was added;
      nothing else in the store changes. */
  method ExtractPatterns(store: EssenceStore, lastN: int, generate: seq<Record> -> Option<string>,
                         decode: string -> Option<Value>, now: string)
    returns (added: Option<nat>)
    modifies store
    ensures var outcome := Extraction(old(store.ReadCorrections()), old(store.ReadPatterns()), lastN,
                                      generate, decode, now);
      && (added.None? <==> outcome.Raised?)
      && (added.Some? ==> added.value == |outcome.added|)
      && store.patterns == if outcome.Returned? && outcome.added != []
                           then Some(old(store.ReadPatterns()) + outcome.added)
                           else old(store.patterns)
    ensures store.identity == old(store.identity) && store.context == old(store.context)
    ensures store.corrections == old(store.corrections) && store.peers == old(store.peers)
    ensures store.budget == old(store.budget) && store.threads == old(store.threads)
  {
    var corrections := store.ReadCorrections();
    var existing := store.ReadPatterns();
    ghost var outcome := Extraction(corrections, existing, lastN, generate, decode, now);
    if corrections == [] {
      return Some(0);
    }
    var recent := MeaningfulOf(Seqs.SliceFrom(corrections, -lastN));
    if recent == [] {
      return Some(0);
    }
    var raw := generate(Pairs(recent));
    if raw.None? {
      assert outcome == Returned([]);
      return Some(0);
    }
    var decoded := decode(Unfenced(raw.value));
    if decoded.None? || !decoded.value.VList? || decoded.value.items == [] {
      assert outcome == Returned([]);
      return Some(0);
    }
    var candidates := decoded.value.items;
    var known := KnownDescriptions(existing);
    if known.None? {
      assert outcome == Raised;
      return None;
    }
    var appended := Deduplicate(known.value, candidates, now);
    if appended.None? {
      assert outcome == Raised;
      return None;
    }
    assert outcome == Returned(appended.value);
    if appended.value != [] {
      store.WritePatterns(existing + appended.value);
    }
    added := Some(|appended.value|);
  }
}
