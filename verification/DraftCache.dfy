/**
 Fingerprint cache of model responses (scripts/rendering/generate_ros_architecture_draft_rules.py,
 `run_draft_generation_from_facts_payload_async`).

 The prompt is built from the chunk with its keys in their original order, the fingerprint from the same chunk
 with sorted keys, so chunks with one fingerprint may still have different prompts. Fingerprint, prompt, the
 (deterministic) model and the response parser are arbitrary functions. The collected rules are sorted, stably, by
 resource type and classification before they are returned.
 */
module DraftCache {
  import opened Wrappers

  datatype Chunk = Chunk(id: string, content: string)

  /** A draft rule; a missing resource type or classification counts as "". */
  datatype Rule = Rule(resourceType: string, classification: string, body: string)

  /** `respond` is the model applied to the prompt of a chunk; `parse` gives None for a malformed response. */
  datatype Tools = Tools(
    fingerprint: Chunk -> string,
    respond: Chunk -> string,
    parse: string -> Option<seq<Rule>>)

  /** An entry read from disk may have any other shape. */
  datatype Entry = Malformed | Entry(fingerprint: string, response: string)

  type Cache = map<string, Entry>

  datatype Outcome = Outcome(rules: seq<Rule>, parseErrors: nat, cache: Cache, calls: nat)

  predicate Hit(t: Tools, cache: Cache, c: Chunk) {
    c.id in cache && cache[c.id].Entry? && cache[c.id].fingerprint == t.fingerprint(c)
  }

  function ResponseFor(t: Tools, cache: Cache, c: Chunk): string {
    if Hit(t, cache, c) then cache[c.id].response else t.respond(c)
  }

  function Updated(t: Tools, cache: Cache, c: Chunk): Cache {
    if Hit(t, cache, c) then cache else cache[c.id := Entry(t.fingerprint(c), t.respond(c))]
  }

  function RulesOf(parsed: Option<seq<Rule>>): seq<Rule> {
    if parsed.Some? then parsed.value else []
  }

  /** Adds what one response contributes. */
  function Add(o: Outcome, parsed: Option<seq<Rule>>): Outcome {
    o.(rules := o.rules + RulesOf(parsed), parseErrors := o.parseErrors + if parsed.Some? then 0 else 1)
  }

  // ---------- the final sort ----------

  predicate Before(a: string, b: string) {
    if a == [] then b != []
    else b != [] && (a[0] < b[0] || (a[0] == b[0] && Before(a[1..], b[1..])))
  }

  predicate Less(r: Rule, s: Rule) {
    || Before(r.resourceType, s.resourceType)
    || (r.resourceType == s.resourceType && Before(r.classification, s.classification))
  }

  predicate SameKey(r: Rule, s: Rule) {
    r.resourceType == s.resourceType && r.classification == s.classification
  }

  function Insert(r: Rule, sorted: seq<Rule>): seq<Rule> {
    if sorted == [] || !Less(sorted[0], r) then [r] + sorted else [sorted[0]] + Insert(r, sorted[1..])
  }

  function Sorted(rules: seq<Rule>): seq<Rule> {
    if rules == [] then [] else Insert(rules[0], Sorted(rules[1..]))
  }

  /** The rules with the key of `r`, in order. */
  ghost function WithKey(rules: seq<Rule>, r: Rule): seq<Rule> {
    if rules == [] then []
    else (if SameKey(rules[0], r) then [rules[0]] else []) + WithKey(rules[1..], r)
  }

  /** Two lists hold, for every key, the same rules in the same order. */
  ghost predicate Alike(a: seq<Rule>, b: seq<Rule>) {
    forall r: Rule {:trigger WithKey(a, r)} {:trigger WithKey(b, r)} :: WithKey(a, r) == WithKey(b, r)
  }

  ghost predicate Ordered(rules: seq<Rule>) {
    forall i, j :: 0 <= i < j < |rules| ==> !Less(rules[j], rules[i])
  }

  lemma {:induction false} BeforeIsTotal(a: string, b: string)
    ensures Before(a, b) || Before(b, a) || a == b
    ensures !(Before(a, b) && Before(b, a)) && !Before(a, a)
    decreases |a|
  {
    if a != [] {
      BeforeIsTotal(a[1..], a[1..]);
      if b != [] {
        BeforeIsTotal(a[1..], b[1..]);
        assert a == [a[0]] + a[1..] && b == [b[0]] + b[1..];
      }
    }
  }

  lemma {:induction false} BeforeIsTransitive(a: string, b: string, c: string)
    requires Before(a, b) && Before(b, c)
    ensures Before(a, c)
    decreases |a|
  {
    if a != [] && a[0] == b[0] == c[0] { BeforeIsTransitive(a[1..], b[1..], c[1..]); }
  }

  lemma LessIsTotal(r: Rule, s: Rule)
    ensures Less(r, s) || Less(s, r) || SameKey(r, s)
    ensures !(Less(r, s) && Less(s, r)) && (SameKey(r, s) ==> !Less(r, s))
  {
    hide Before;
    BeforeIsTotal(r.resourceType, s.resourceType);
    BeforeIsTotal(r.classification, s.classification);
  }

  lemma LessIsTransitive(q: Rule, r: Rule, s: Rule)
    requires Less(q, r) && !Less(s, r)
    ensures Less(q, s)
  {
    hide Before;
    LessIsTotal(r, s);
    BeforeIsTotal(q.resourceType, r.resourceType);
    if Before(q.resourceType, r.resourceType) && Before(r.resourceType, s.resourceType) {
      BeforeIsTransitive(q.resourceType, r.resourceType, s.resourceType);
    }
    if Before(q.classification, r.classification) && Before(r.classification, s.classification) {
      BeforeIsTransitive(q.classification, r.classification, s.classification);
    }
  }

  lemma {:induction false} InsertKeepsOrder(r: Rule, sorted: seq<Rule>)
    requires Ordered(sorted)
    ensures Ordered(Insert(r, sorted))
    ensures multiset(Insert(r, sorted)) == multiset(sorted) + multiset{r}
  {
    hide Less;
    if sorted == [] || !Less(sorted[0], r) {
      forall j | 0 <= j < |sorted| ensures !Less(sorted[j], r) {
        if Less(sorted[j], r) && j > 0 { LessIsTransitive(sorted[j], r, sorted[0]); }
      }
    } else {
      var rest := Insert(r, sorted[1..]);
      InsertKeepsOrder(r, sorted[1..]);
      assert sorted == [sorted[0]] + sorted[1..];
      LessIsTotal(sorted[0], r);
      forall x | x in rest ensures !Less(x, sorted[0]) {
        assert x in multiset(rest);
        assert x == r || x in sorted[1..];
      }
    }
  }

  /** Inserting in front of equal keys keeps the order of arrival. */
  lemma {:induction false} InsertIsStable(r: Rule, sorted: seq<Rule>, k: Rule)
    ensures WithKey(Insert(r, sorted), k) == WithKey([r] + sorted, k)
  {
    assert ([r] + sorted)[1..] == sorted;
    if sorted != [] && Less(sorted[0], r) {
      LessIsTotal(sorted[0], r);
      InsertIsStable(r, sorted[1..], k);
      assert ([r] + sorted[1..])[1..] == sorted[1..];
      assert Insert(r, sorted)[1..] == Insert(r, sorted[1..]);
    }
  }

  /** The sort orders the rules, loses none, and keeps the order among equal keys. */
  lemma {:induction false} SortedIsStableSort(rules: seq<Rule>)
    ensures Ordered(Sorted(rules)) && multiset(Sorted(rules)) == multiset(rules) && Alike(Sorted(rules), rules)
  {
    if rules != [] {
      SortedIsStableSort(rules[1..]);
      InsertKeepsOrder(rules[0], Sorted(rules[1..]));
      assert rules == [rules[0]] + rules[1..];
      forall k ensures WithKey(Sorted(rules), k) == WithKey(rules, k) {
        InsertIsStable(rules[0], Sorted(rules[1..]), k);
        assert ([rules[0]] + Sorted(rules[1..]))[1..] == Sorted(rules[1..]);
        assert WithKey(Sorted(rules[1..]), k) == WithKey(rules[1..], k);
      }
    }
  }

  lemma {:induction false} WithKeyOfLarger(rules: seq<Rule>, r: Rule)
    requires forall x :: x in rules ==> Less(r, x)
    ensures WithKey(rules, r) == []
  {
    if rules != [] {
      LessIsTotal(r, rules[0]);
      LessIsTotal(rules[0], r);
      WithKeyOfLarger(rules[1..], r);
    }
  }

  lemma OwnKey(rules: seq<Rule>)
    ensures rules != [] ==> WithKey(rules, rules[0]) != [] && WithKey(rules, rules[0])[0] == rules[0]
  {
  }

  lemma FirstIsSmallest(a: seq<Rule>, b: seq<Rule>)
    requires a != [] && b != [] && Ordered(b) && WithKey(a, a[0]) == WithKey(b, a[0])
    ensures !Less(a[0], b[0])
  {
    OwnKey(a);
    if Less(a[0], b[0]) {
      forall x | x in b ensures Less(a[0], x) {
        var i :| 0 <= i < |b| && b[i] == x;
        if i > 0 { LessIsTransitive(a[0], b[0], x); }
      }
      WithKeyOfLarger(b, a[0]);
    }
  }

  /** Ordered lists that are alike are the same list. */
  lemma {:induction false} OrderedAlikeIsEqual(a: seq<Rule>, b: seq<Rule>)
    requires Ordered(a) && Ordered(b) && Alike(a, b)
    ensures a == b
  {
    OwnKey(a);
    OwnKey(b);
    if a != [] && b != [] {
      FirstIsSmallest(a, b);
      assert WithKey(b, b[0]) == WithKey(a, b[0]);
      FirstIsSmallest(b, a);
      LessIsTotal(a[0], b[0]);
      assert WithKey(a, a[0])[0] == a[0] && WithKey(b, a[0])[0] == b[0];
      forall k ensures WithKey(a[1..], k) == WithKey(b[1..], k) {
        assert WithKey(a, k) == WithKey(b, k);
        assert WithKey(a, k)[if SameKey(a[0], k) then 1 else 0..] == WithKey(a[1..], k);
        assert WithKey(b, k)[if SameKey(b[0], k) then 1 else 0..] == WithKey(b[1..], k);
      }
      OrderedAlikeIsEqual(a[1..], b[1..]);
      assert a == [a[0]] + a[1..] && b == [b[0]] + b[1..];
    }
  }

  /** Sorting forgets exactly the order between different keys. */
  lemma SortedEqualIffAlike(a: seq<Rule>, b: seq<Rule>)
    ensures Sorted(a) == Sorted(b) <==> Alike(a, b)
  {
    SortedIsStableSort(a);
    SortedIsStableSort(b);
    if Sorted(a) == Sorted(b) {
      forall k ensures WithKey(a, k) == WithKey(b, k) {
        assert WithKey(Sorted(a), k) == WithKey(a, k) && WithKey(Sorted(b), k) == WithKey(b, k);
      }
    }
    if Alike(a, b) {
      forall k ensures WithKey(Sorted(a), k) == WithKey(Sorted(b), k) {
        assert WithKey(a, k) == WithKey(b, k);
        assert WithKey(Sorted(a), k) == WithKey(a, k) && WithKey(Sorted(b), k) == WithKey(b, k);
      }
      OrderedAlikeIsEqual(Sorted(a), Sorted(b));
    }
  }

  lemma {:induction false} WithKeyConcat(a: seq<Rule>, b: seq<Rule>, k: Rule)
    ensures WithKey(a + b, k) == WithKey(a, k) + WithKey(b, k)
  {
    if a == [] {
      assert a + b == b;
    } else {
      assert (a + b)[1..] == a[1..] + b;
      WithKeyConcat(a[1..], b, k);
    }
  }

  lemma AlikeConcat(a: seq<Rule>, b: seq<Rule>, c: seq<Rule>, d: seq<Rule>)
    requires Alike(a, b) && Alike(c, d)
    ensures Alike(a + c, b + d)
  {
    forall k ensures WithKey(a + c, k) == WithKey(b + d, k) {
      WithKeyConcat(a, c, k);
      WithKeyConcat(b, d, k);
      assert WithKey(a, k) == WithKey(b, k) && WithKey(c, k) == WithKey(d, k);
    }
  }

  // ---------- the run ----------

  /** A run over the chunks in order, each one looked up in the cache first. */
  function Run(t: Tools, cache: Cache, chunks: seq<Chunk>): Outcome
    decreases |chunks|
  {
    if chunks == [] then Outcome([], 0, cache, 0)
    else
      var c, before := chunks[|chunks| - 1], Run(t, cache, chunks[..|chunks| - 1]);
      Add(before, t.parse(ResponseFor(t, before.cache, c))).(
      cache := Updated(t, before.cache, c),
      calls := before.calls + if Hit(t, before.cache, c) then 0 else 1)
  }

  /** The same work with no cache at all. */
  ghost function Direct(t: Tools, chunks: seq<Chunk>): Outcome
    decreases |chunks|
  {
    if chunks == [] then Outcome([], 0, map[], 0)
    else Add(Direct(t, chunks[..|chunks| - 1]), t.parse(t.respond(chunks[|chunks| - 1])))
  }

  /** What is returned: the same outcome with its rules sorted. */
  function Finished(o: Outcome): Outcome {
    o.(rules := Sorted(o.rules))
  }

  method RunDraftGeneration(t: Tools, cache: Cache, chunks: seq<Chunk>)
    returns (rules: seq<Rule>, parseErrors: nat, cache': Cache, calls: nat)
    ensures Outcome(rules, parseErrors, cache', calls) == Finished(Run(t, cache, chunks))
  {
    rules, parseErrors, cache', calls := [], 0, cache, 0;
    for k := 0 to |chunks|
      invariant Outcome(rules, parseErrors, cache', calls) == Run(t, cache, chunks[..k])
    {
      assert chunks[..k + 1][..k] == chunks[..k];
      var chunk := chunks[k];
      var fingerprint := t.fingerprint(chunk);
      var response;
      if chunk.id in cache' && cache'[chunk.id].Entry? && cache'[chunk.id].fingerprint == fingerprint {
        response := cache'[chunk.id].response;
      } else {
        response := t.respond(chunk);
        calls := calls + 1;
        cache' := cache'[chunk.id := Entry(fingerprint, response)];
      }
      var parsed := t.parse(response);
      if parsed.Some? {
        rules := rules + parsed.value;
      } else {
        parseErrors := parseErrors + 1;
      }
    }
    assert chunks[..|chunks|] == chunks;
    rules := Sorted(rules);
  }

  // ---------- what a run adds up to ----------

  /** The rules of the parses, one after the other; a malformed response contributes none. */
  ghost function AllRules(parses: seq<Option<seq<Rule>>>): seq<Rule> {
    if parses == [] then []
    else (match parses[0] case Some(rules) => rules case None => []) + AllRules(parses[1..])
  }

  ghost function Malformed(parses: seq<Option<seq<Rule>>>): nat {
    |set i | 0 <= i < |parses| && parses[i] == None|
  }

  /** The parses of the model's own responses, in chunk order. */
  ghost function DirectParses(t: Tools, chunks: seq<Chunk>): seq<Option<seq<Rule>>> {
    seq(|chunks|, i requires 0 <= i < |chunks| => t.parse(t.respond(chunks[i])))
  }

  /** The parses of the responses that a run uses: cached ones where the cache hits, the model's own elsewhere. */
  ghost function ParsesUsed(t: Tools, cache: Cache, chunks: seq<Chunk>): seq<Option<seq<Rule>>> {
    seq(|chunks|, i requires 0 <= i < |chunks| =>
      var known, c := Run(t, cache, chunks[..i]).cache, chunks[i];
      t.parse(if c.id in known && known[c.id].Entry? && known[c.id].fingerprint == t.fingerprint(c)
              then known[c.id].response else t.respond(c)))
  }

  lemma {:induction false} AllRulesAppend(parses: seq<Option<seq<Rule>>>, p: Option<seq<Rule>>)
    ensures AllRules(parses + [p]) == AllRules(parses) + if p.Some? then p.value else []
  {
    if parses == [] {
      assert parses + [p] == [p] && [p][1..] == [];
    } else {
      assert (parses + [p])[1..] == parses[1..] + [p];
      AllRulesAppend(parses[1..], p);
    }
  }

  lemma MalformedAppend(parses: seq<Option<seq<Rule>>>, p: Option<seq<Rule>>)
    ensures Malformed(parses + [p]) == Malformed(parses) + if p.Some? then 0 else 1
  {
    var longer := parses + [p];
    var before := set i | 0 <= i < |parses| && parses[i] == None;
    assert (set i | 0 <= i < |longer| && longer[i] == None) == before + if p.Some? then {} else {|parses|};
  }

  /** A run returns the sorted rules of the parses it uses, in chunk order, and the number of malformed responses. */
  lemma {:induction false} RunAddsUp(t: Tools, cache: Cache, chunks: seq<Chunk>)
    ensures Run(t, cache, chunks).rules == AllRules(ParsesUsed(t, cache, chunks))
    ensures Run(t, cache, chunks).parseErrors == Malformed(ParsesUsed(t, cache, chunks))
    decreases |chunks|
  {
    hide AllRules, Malformed, ParsesUsed;
    if chunks == [] {
      NoParses();
      ParsesStep(t, cache, chunks);
    } else {
      var init := chunks[..|chunks| - 1];
      RunAddsUp(t, cache, init);
      ParsesStep(t, cache, chunks);
      var parsed := t.parse(ResponseFor(t, Run(t, cache, init).cache, chunks[|chunks| - 1]));
      AllRulesAppend(ParsesUsed(t, cache, init), parsed);
      MalformedAppend(ParsesUsed(t, cache, init), parsed);
    }
  }

  lemma {:induction false} ParsesStep(t: Tools, cache: Cache, chunks: seq<Chunk>)
    ensures ParsesUsed(t, cache, chunks) ==
            if chunks == [] then []
            else
              var init, c := chunks[..|chunks| - 1], chunks[|chunks| - 1];
              ParsesUsed(t, cache, init) + [t.parse(ResponseFor(t, Run(t, cache, init).cache, c))]
  {
    hide Run;
    if chunks != [] {
      var init := chunks[..|chunks| - 1];
      assert forall i :: 0 <= i <= |init| ==> init[..i] == chunks[..i];
    }
  }

  lemma NoParses()
    ensures AllRules([]) == [] && Malformed([]) == 0
  {
  }

  /** The same for asking the model every time. */
  lemma {:induction false} DirectAddsUp(t: Tools, chunks: seq<Chunk>)
    ensures Direct(t, chunks).rules == AllRules(DirectParses(t, chunks))
    ensures Direct(t, chunks).parseErrors == Malformed(DirectParses(t, chunks))
    decreases |chunks|
  {
    hide AllRules, Malformed;
    if chunks == [] {
      NoParses();
    } else {
      var n := |chunks| - 1;
      DirectAddsUp(t, chunks[..n]);
      var parses := DirectParses(t, chunks);
      assert parses[..n] == DirectParses(t, chunks[..n]) && parses == parses[..n] + [parses[n]];
      AllRulesAppend(parses[..n], parses[n]);
      MalformedAppend(parses[..n], parses[n]);
    }
  }

  // ---------- transparency ----------

  /** Every usable entry was produced by the model for some chunk with that id and fingerprint. */
  ghost predicate TrueResponses(t: Tools, cache: Cache) {
    forall id :: id in cache && cache[id].Entry? ==>
      exists c: Chunk :: c.id == id && t.fingerprint(c) == cache[id].fingerprint && cache[id].response == t.respond(c)
  }

  /** Both responses are malformed, or both parse, to rules that are sorted into the same list. */
  ghost predicate ParsesAlike(a: Option<seq<Rule>>, b: Option<seq<Rule>>) {
    (a.Some? <==> b.Some?) && Alike(RulesOf(a), RulesOf(b))
  }

  /** Chunks that share id and fingerprint get responses that parse alike. */
  ghost predicate FingerprintSuffices(t: Tools) {
    forall c: Chunk, d: Chunk :: c.id == d.id && t.fingerprint(c) == t.fingerprint(d) ==>
      ParsesAlike(t.parse(t.respond(c)), t.parse(t.respond(d)))
  }

  lemma {:induction false} RunKeepsTrueResponses(t: Tools, cache: Cache, chunks: seq<Chunk>)
    requires TrueResponses(t, cache)
    ensures TrueResponses(t, Run(t, cache, chunks).cache)
    decreases |chunks|
  {
    if chunks != [] {
      RunKeepsTrueResponses(t, cache, chunks[..|chunks| - 1]);
      var c := chunks[|chunks| - 1];
      assert t.fingerprint(c) == t.fingerprint(c) && t.respond(c) == t.respond(c);
    }
  }

  /** The sorted rules and the number of malformed responses agree. */
  ghost predicate SameResults(a: Outcome, b: Outcome) {
    Sorted(a.rules) == Sorted(b.rules) && a.parseErrors == b.parseErrors
  }

  /** A response from a true cache parses like a fresh one. */
  lemma ResponseIsTrue(t: Tools, cache: Cache, c: Chunk)
    requires FingerprintSuffices(t) && TrueResponses(t, cache)
    ensures ParsesAlike(t.parse(ResponseFor(t, cache, c)), t.parse(t.respond(c)))
  {
    if Hit(t, cache, c) {
      var d: Chunk :| d.id == c.id && t.fingerprint(d) == cache[c.id].fingerprint
        && cache[c.id].response == t.respond(d);
      assert ParsesAlike(t.parse(t.respond(d)), t.parse(t.respond(c)));
    }
  }

  lemma {:induction false} RunIsAlikeDirect(t: Tools, cache: Cache, chunks: seq<Chunk>)
    requires FingerprintSuffices(t) && TrueResponses(t, cache)
    ensures Alike(Run(t, cache, chunks).rules, Direct(t, chunks).rules)
    ensures Run(t, cache, chunks).parseErrors == Direct(t, chunks).parseErrors
    decreases |chunks|
  {
    if chunks != [] {
      hide FingerprintSuffices, TrueResponses, ResponseFor, Alike;
      var init, c := chunks[..|chunks| - 1], chunks[|chunks| - 1];
      RunIsAlikeDirect(t, cache, init);
      RunKeepsTrueResponses(t, cache, init);
      var before := Run(t, cache, init);
      ResponseIsTrue(t, before.cache, c);
      AlikeConcat(before.rules, Direct(t, init).rules,
                  RulesOf(t.parse(ResponseFor(t, before.cache, c))), RulesOf(t.parse(t.respond(c))));
    }
  }

  lemma RunIsDirect(t: Tools, cache: Cache, chunks: seq<Chunk>)
    requires FingerprintSuffices(t) && TrueResponses(t, cache)
    ensures SameResults(Run(t, cache, chunks), Direct(t, chunks))
  {
    RunIsAlikeDirect(t, cache, chunks);
    SortedEqualIffAlike(Run(t, cache, chunks).rules, Direct(t, chunks).rules);
  }

  /** A run from any true cache returns what a run from the empty cache returns. */
  ghost predicate Transparent(t: Tools) {
    forall cache: Cache, chunks: seq<Chunk> :: TrueResponses(t, cache) ==>
      SameResults(Run(t, cache, chunks), Run(t, map[], chunks))
  }

  lemma RunOfOne(t: Tools, cache: Cache, c: Chunk)
    ensures Run(t, cache, [c]).rules == RulesOf(t.parse(ResponseFor(t, cache, c)))
    ensures Run(t, cache, [c]).parseErrors == if t.parse(ResponseFor(t, cache, c)).Some? then 0 else 1
  {
    assert [c][..0] == [];
    assert Run(t, cache, [c][..0]) == Outcome([], 0, cache, 0);
  }

  /** Caching the response to `c` and asking for `d` is noticed exactly when the two do not parse alike. */
  lemma SingleResult(t: Tools, c: Chunk, d: Chunk)
    requires c.id == d.id && t.fingerprint(c) == t.fingerprint(d)
    ensures var cache: Cache := map[c.id := Entry(t.fingerprint(c), t.respond(c))];
            && TrueResponses(t, cache)
            && (SameResults(Run(t, cache, [d]), Run(t, map[], [d])) <==>
                  ParsesAlike(t.parse(t.respond(c)), t.parse(t.respond(d))))
  {
    var cache: Cache := map[c.id := Entry(t.fingerprint(c), t.respond(c))];
    RunOfOne(t, cache, d);
    RunOfOne(t, map[], d);
    SortedEqualIffAlike(RulesOf(t.parse(t.respond(c))), RulesOf(t.parse(t.respond(d))));
  }

  /** The cache is transparent exactly when a fingerprint determines how the response parses, up to the final sort. */
  lemma TransparentIffFingerprintSuffices(t: Tools)
    ensures Transparent(t) <==> FingerprintSuffices(t)
  {
    if FingerprintSuffices(t) {
      forall cache: Cache, chunks: seq<Chunk> | TrueResponses(t, cache)
        ensures SameResults(Run(t, cache, chunks), Run(t, map[], chunks))
      {
        RunIsDirect(t, cache, chunks);
        RunIsDirect(t, map[], chunks);
      }
    }
    if Transparent(t) {
      forall c: Chunk, d: Chunk | c.id == d.id && t.fingerprint(c) == t.fingerprint(d)
        ensures ParsesAlike(t.parse(t.respond(c)), t.parse(t.respond(d)))
      {
        SingleResult(t, c, d);
      }
    }
  }

  // ---------- the second run ----------

  ghost predicate AllHit(t: Tools, cache: Cache, chunks: seq<Chunk>) {
    forall c :: c in chunks ==> Hit(t, cache, c)
  }

  /** Chunks with the same id have the same fingerprint; in particular, chunks with distinct ids do. */
  ghost predicate ConsistentIds(t: Tools, chunks: seq<Chunk>) {
    forall c, d :: c in chunks && d in chunks && c.id == d.id ==> t.fingerprint(c) == t.fingerprint(d)
  }

  lemma {:induction false} NoCallsIffAllHit(t: Tools, cache: Cache, chunks: seq<Chunk>)
    ensures Run(t, cache, chunks).calls == 0 <==> AllHit(t, cache, chunks)
    ensures Run(t, cache, chunks).calls == 0 ==> Run(t, cache, chunks).cache == cache
    decreases |chunks|
  {
    if chunks != [] {
      var init, c := chunks[..|chunks| - 1], chunks[|chunks| - 1];
      NoCallsIffAllHit(t, cache, init);
      assert chunks == init + [c];
    }
  }

  lemma {:induction false} RunFillsCache(t: Tools, cache: Cache, chunks: seq<Chunk>)
    requires ConsistentIds(t, chunks)
    ensures AllHit(t, Run(t, cache, chunks).cache, chunks)
    decreases |chunks|
  {
    if chunks != [] {
      var init, c := chunks[..|chunks| - 1], chunks[|chunks| - 1];
      assert chunks == init + [c];
      RunFillsCache(t, cache, init);
    }
  }

  /** From any cache, an immediate second run needs no model call exactly when ids are used consistently. */
  lemma SecondRunIsFree(t: Tools, cache: Cache, chunks: seq<Chunk>)
    ensures Run(t, Run(t, cache, chunks).cache, chunks).calls == 0 <==> ConsistentIds(t, chunks)
  {
    NoCallsIffAllHit(t, Run(t, cache, chunks).cache, chunks);
    if ConsistentIds(t, chunks) {
      RunFillsCache(t, cache, chunks);
    }
  }

  /** Entries of other chunks are left alone. */
  lemma {:induction false} RunTouchesOnlyItsIds(t: Tools, cache: Cache, chunks: seq<Chunk>, id: string)
    requires forall c :: c in chunks ==> c.id != id
    ensures id in Run(t, cache, chunks).cache <==> id in cache
    ensures id in cache ==> Run(t, cache, chunks).cache[id] == cache[id]
    decreases |chunks|
  {
    if chunks != [] {
      RunTouchesOnlyItsIds(t, cache, chunks[..|chunks| - 1], id);
    }
  }
}
