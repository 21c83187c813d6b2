/**
 The execution tree of the debugger (scripts/a2a/debugger.py: `ensureTreeNode` and its callers,
 `timelineTargetKeyFromEnvelope`, `appendTimelineItem`, `appendExecutionTreeEvent`, `renderTreeNode`).

 Every envelope creates the nodes it names, remembers the last step, candidate and candidate step, and lands in
 the timeline of one node, where consecutive deltas of one kind are merged.
 */
module ExecutionTree {
  import opened Wrappers

  // ---------- keys ----------

  datatype Key =
    | Pipeline(run: string)
    | Step(run: string)
    | Parallel(of: Key)
    | Candidate(run: string)
    | CandidateStep(run: string)

  /** The key as the debugger writes it. */
  function Text(k: Key): string {
    match k
    case Pipeline(run) => "pipeline:" + run
    case Step(run) => "step:" + run
    case Parallel(of) => "parallel:" + Text(of)
    case Candidate(run) => "candidate:" + run
    case CandidateStep(run) => "candidate-step:" + run
  }

  function Prefix(k: Key): string {
    match k
    case Pipeline(_) => "pipeline:"
    case Step(_) => "step:"
    case Parallel(_) => "parallel:"
    case Candidate(_) => "candidate:"
    case CandidateStep(_) => "candidate-step:"
  }

  lemma TextHasPrefix(k: Key)
    ensures Prefix(k) <= Text(k)
    ensures k.Parallel? ==> Text(k)[|Prefix(k)|..] == Text(k.of)
    ensures !k.Parallel? ==> Text(k)[|Prefix(k)|..] == k.run
  {
  }

  /** Different prefixes differ at some common position. */
  lemma PrefixesDiffer(k: Key, l: Key) returns (i: nat)
    ensures i < |Prefix(k)| && i < |Prefix(l)|
    ensures Prefix(k) != Prefix(l) ==> Prefix(k)[i] != Prefix(l)[i]
  {
    i := if Prefix(k)[0] != Prefix(l)[0] then 0 else if Prefix(k)[1] != Prefix(l)[1] then 1
         else if k.Candidate? || l.Candidate? then 9 else 0;
  }

  /** Two prefixes of one string are the same. */
  lemma SamePrefix(k: Key, l: Key, s: string)
    requires Prefix(k) <= s && Prefix(l) <= s
    ensures Prefix(k) == Prefix(l)
  {
    var i := PrefixesDiffer(k, l);
    assert Prefix(k)[i] == s[i] == Prefix(l)[i];
  }

  /** Distinct keys are written differently, so the map of nodes can be indexed by the text. */
  lemma {:induction false} TextIsInjective(k: Key, l: Key)
    requires Text(k) == Text(l)
    ensures k == l
  {
    TextHasPrefix(k);
    TextHasPrefix(l);
    SamePrefix(k, l, Text(k));
    if k.Parallel? && l.Parallel? {
      TextIsInjective(k.of, l.of);
    }
  }

  function Rank(k: Key): (r: nat)
    ensures r <= 4
  {
    match k
    case Pipeline(_) => 0
    case Step(_) => 1
    case Parallel(_) => 2
    case Candidate(_) => 3
    case CandidateStep(_) => 4
  }

  /** Where a node belongs: pipelines are roots, and every other kind hangs below the kind above it. */
  predicate Fits(k: Key, parent: Option<Key>) {
    match k
    case Pipeline(_) => parent == None
    case Step(_) => parent.Some? && parent.value.Pipeline?
    case Parallel(of) => parent == Some(of) && (of.Pipeline? || of.Step?)
    case Candidate(_) => parent.Some? && parent.value.Parallel?
    case CandidateStep(_) => parent.Some? && parent.value.Candidate?
  }

  // ---------- envelopes and timelines ----------

  datatype CandidateInfo = CandidateInfo(run: string, steps: seq<string>)

  datatype Envelope = Envelope(
    id: nat, eventType: string, interruptScope: bool,
    pipeline: string, step: Option<string>, candidate: Option<CandidateInfo>, candidateStep: Option<string>)

  datatype Delta = TextDelta | ThinkingDelta

  datatype Item = Group(kind: Delta, events: seq<Envelope>) | Single(event: Envelope)

  function DeltaOf(e: Envelope): Option<Delta> {
    if e.eventType == "text_delta" then Some(TextDelta)
    else if e.eventType == "thinking_delta" then Some(ThinkingDelta)
    else None
  }

  // ---------- the forest ----------

  /** `home[k]` is where node `k` hangs: below that node, or among the roots. */
  type Homes = map<Key, Option<Key>>

  ghost predicate DistinctKeys(s: seq<Key>) {
    forall i, j :: 0 <= i < j < |s| ==> s[i] != s[j]
  }

  /** Children lists by node. */
  type Children = map<Key, seq<Key>>

  ghost predicate HomeIs(home: Homes, k: Key, p: Option<Key>) {
    k in home && home[k] == p
  }

  ghost predicate RootsOk(roots: seq<Key>, home: Homes) {
    && DistinctKeys(roots)
    && (forall k {:trigger HomeIs(home, k, None)} :: k in roots <==> HomeIs(home, k, None))
  }

  ghost predicate Hangs(kids: Children, p: Key, k: Key) {
    p in kids && k in kids[p] && Rank(p) < Rank(k)
  }

  ghost predicate ChildrenOk(kids: Children, home: Homes) {
    && home.Keys == kids.Keys
    && (forall p {:trigger DistinctKeys(kids[p])} :: p in kids ==> DistinctKeys(kids[p]))
    && (forall p, k {:trigger HomeIs(home, k, Some(p))} :: p in kids && k in kids[p] ==> HomeIs(home, k, Some(p)))
    && (forall k {:trigger Hangs(kids, home[k].value, k)} :: k in home && home[k].Some? ==>
      Hangs(kids, home[k].value, k))
  }

  /** Every node hangs in exactly one place, below a node of lower rank or among the roots, and is listed there once. */
  ghost predicate Forest(kids: Children, roots: seq<Key>, home: Homes) {
    RootsOk(roots, home) && ChildrenOk(kids, home)
  }

  ghost predicate WellPlaced(home: Homes) {
    forall k {:trigger Fits(k, home[k])} :: k in home ==> Fits(k, home[k])
  }

  lemma ForestAddsRoot(kids: Children, roots: seq<Key>, home: Homes, key: Key)
    requires Forest(kids, roots, home) && key !in kids
    ensures Forest(kids[key := []], roots + [key], home[key := None])
  {
    ChildrenOkAddsRoot(kids, home, key);
    RootsOkAdds(roots, home, key);
  }

  lemma RootsOkAdds(roots: seq<Key>, home: Homes, key: Key)
    requires RootsOk(roots, home) && key !in home
    ensures RootsOk(roots + [key], home[key := None])
  {
    forall k ensures k in roots + [key] <==> HomeIs(home[key := None], k, None) {
      assert k in roots <==> HomeIs(home, k, None);
    }
    assert key !in roots by { assert !HomeIs(home, key, None); }
  }

  lemma RootsOkKeeps(roots: seq<Key>, home: Homes, key: Key, parent: Key)
    requires RootsOk(roots, home) && key !in home
    ensures RootsOk(roots, home[key := Some(parent)])
  {
    forall k ensures k in roots <==> HomeIs(home[key := Some(parent)], k, None) {
      assert k in roots <==> HomeIs(home, k, None);
    }
  }

  lemma ChildrenOkAddsRoot(kids: Children, home: Homes, key: Key)
    requires ChildrenOk(kids, home) && key !in kids
    ensures ChildrenOk(kids[key := []], home[key := None])
  {
    var kids', home' := kids[key := []], home[key := None];
    forall k | k in home' && home'[k].Some? ensures Hangs(kids', home'[k].value, k) {
      assert Hangs(kids, home[k].value, k);
    }
    forall p, k | p in kids' && k in kids'[p] ensures HomeIs(home', k, Some(p)) {
      assert HomeIs(home, k, Some(p));
    }
    forall p | p in kids' ensures DistinctKeys(kids'[p]) {
      assert p != key ==> DistinctKeys(kids[p]);
    }
  }

  lemma ForestAddsChild(kids: Children, roots: seq<Key>, home: Homes, key: Key, parent: Key)
    requires Forest(kids, roots, home) && key !in kids && parent in kids && Rank(parent) < Rank(key)
    ensures Forest(kids[key := []][parent := kids[parent] + [key]], roots, home[key := Some(parent)])
  {
    ChildrenOkAdds(kids, home, key, parent);
    RootsOkKeeps(roots, home, key, parent);
  }

  lemma ChildrenOkAdds(kids: Children, home: Homes, key: Key, parent: Key)
    requires ChildrenOk(kids, home) && key !in kids && parent in kids && Rank(parent) < Rank(key)
    ensures ChildrenOk(kids[key := []][parent := kids[parent] + [key]], home[key := Some(parent)])
  {
    var kids', home' := kids[key := []][parent := kids[parent] + [key]], home[key := Some(parent)];
    assert key !in kids[parent] by { assert !HomeIs(home, key, Some(parent)); }
    forall k | k in home' && home'[k].Some? ensures Hangs(kids', home'[k].value, k) {
      if k != key { assert Hangs(kids, home[k].value, k); }
    }
    forall p, k | p in kids' && k in kids'[p] ensures HomeIs(home', k, Some(p)) {
      if !(p == parent && k == key) {
        assert p in kids && k in kids[p];
        assert HomeIs(home, k, Some(p));
      }
    }
    forall p | p in kids' ensures DistinctKeys(kids'[p]) {
      assert p in kids ==> DistinctKeys(kids[p]);
    }
  }

  // ---------- rendering ----------

  /** Children are nodes of higher rank, so no chain of children is longer than the ranks. */
  ghost predicate Descending(kids: Children) {
    forall p, k :: p in kids && k in kids[p] ==> k in kids && Rank(p) < Rank(k)
  }

  ghost predicate Renderable(kids: Children, keys: seq<Key>, level: nat) {
    level <= 5 && forall k :: k in keys ==> k in kids && Rank(k) >= level
  }

  /** The nodes visited when the given keys and, below each, its children are rendered. */
  ghost function Rendered(kids: Children, keys: seq<Key>, level: nat): multiset<Key>
    requires Descending(kids) && Renderable(kids, keys, level)
    decreases 5 - level, |keys|
  {
    if keys == [] then multiset{}
    else
      multiset{keys[0]} + Rendered(kids, kids[keys[0]], Rank(keys[0]) + 1) + Rendered(kids, keys[1..], level)
  }

  lemma {:induction false} CountInDistinct(s: seq<Key>, x: Key)
    requires DistinctKeys(s)
    ensures multiset(s)[x] == if x in s then 1 else 0
  {
    if s != [] {
      assert s == [s[0]] + s[1..];
      CountInDistinct(s[1..], x);
    }
  }

  lemma ForestDescends(kids: Children, roots: seq<Key>, home: Homes)
    requires Forest(kids, roots, home)
    ensures Descending(kids) && Renderable(kids, roots, 0)
  {
    assert forall k :: k in roots ==> HomeIs(home, k, None);
    forall p, k | p in kids && k in kids[p] ensures k in kids && Rank(p) < Rank(k) {
      assert HomeIs(home, k, Some(p));
      assert Hangs(kids, home[k].value, k);
    }
  }

  /** Node `x` is listed once below `home`, if there is one, and nowhere else. */
  ghost predicate ListedAt(kids: Children, x: Key, home: Option<Key>) {
    forall k :: k in kids ==> multiset(kids[k])[x] == if home == Some(k) then 1 else 0
  }

  lemma ForestLists(kids: Children, roots: seq<Key>, home: Homes, x: Key)
    requires Forest(kids, roots, home) && x in kids
    ensures ListedAt(kids, x, home[x])
  {
    forall k | k in kids ensures multiset(kids[k])[x] == if home[x] == Some(k) then 1 else 0 {
      assert DistinctKeys(kids[k]);
      CountInDistinct(kids[k], x);
      assert x in kids[k] ==> HomeIs(home, x, Some(k));
      if home[x].Some? { assert Hangs(kids, home[x].value, x); }
    }
  }

  /** A node is visited once for every time it is listed and once for every visit of its home. */
  lemma {:induction false} VisitsOf(kids: Children, keys: seq<Key>, level: nat, x: Key, home: Option<Key>)
    requires Descending(kids) && Renderable(kids, keys, level) && ListedAt(kids, x, home)
    ensures var seen := Rendered(kids, keys, level);
            seen[x] == multiset(keys)[x] + if home.Some? then seen[home.value] else 0
    decreases 5 - level, |keys|
  {
    hide Rendered, Descending, Renderable;
    if keys == [] {
      NothingRendered(kids, level);
    } else {
      var k, rest := keys[0], keys[1..];
      RenderedStep(kids, keys, level);
      VisitsOf(kids, kids[k], Rank(k) + 1, x, home);
      VisitsOf(kids, rest, level, x, home);
      VisitsAdd(Rendered(kids, kids[k], Rank(k) + 1), Rendered(kids, rest, level),
                multiset(kids[k]), multiset(rest), k, x, home);
    }
  }

  lemma NothingRendered(kids: Children, level: nat)
    requires Descending(kids) && Renderable(kids, [], level)
    ensures Rendered(kids, [], level) == multiset{}
  {
  }

  lemma RenderedStep(kids: Children, keys: seq<Key>, level: nat)
    requires Descending(kids) && Renderable(kids, keys, level) && keys != []
    ensures keys[0] in kids && level <= Rank(keys[0])
    ensures Renderable(kids, kids[keys[0]], Rank(keys[0]) + 1) && Renderable(kids, keys[1..], level)
    ensures multiset(keys) == multiset{keys[0]} + multiset(keys[1..])
    ensures Rendered(kids, keys, level) ==
            multiset{keys[0]} + Rendered(kids, kids[keys[0]], Rank(keys[0]) + 1) + Rendered(kids, keys[1..], level)
  {
    assert keys == [keys[0]] + keys[1..];
  }

  lemma VisitsAdd(a: multiset<Key>, b: multiset<Key>, below: multiset<Key>, rest: multiset<Key>,
                  k: Key, x: Key, home: Option<Key>)
    requires below[x] == if home == Some(k) then 1 else 0
    requires a[x] == below[x] + if home.Some? then a[home.value] else 0
    requires b[x] == rest[x] + if home.Some? then b[home.value] else 0
    ensures (multiset{k} + a + b)[x] ==
            (multiset{k} + rest)[x] + if home.Some? then (multiset{k} + a + b)[home.value] else 0
  {
  }

  lemma {:induction false} OnlyNodesAreVisited(kids: Children, keys: seq<Key>, level: nat, x: Key)
    requires Descending(kids) && Renderable(kids, keys, level) && x !in kids
    ensures Rendered(kids, keys, level)[x] == 0
    decreases 5 - level, |keys|
  {
    if keys != [] {
      OnlyNodesAreVisited(kids, kids[keys[0]], Rank(keys[0]) + 1, x);
      OnlyNodesAreVisited(kids, keys[1..], level, x);
    }
  }

  lemma {:induction false} VisitedOnce(kids: Children, roots: seq<Key>, home: Homes, x: Key)
    requires Forest(kids, roots, home) && x in kids && Descending(kids) && Renderable(kids, roots, 0)
    ensures Rendered(kids, roots, 0)[x] == 1
    decreases Rank(x)
  {
    ForestLists(kids, roots, home, x);
    VisitsOf(kids, roots, 0, x, home[x]);
    CountInDistinct(roots, x);
    assert x in roots <==> HomeIs(home, x, None);
    if home[x].Some? {
      assert Hangs(kids, home[x].value, x);
      VisitedOnce(kids, roots, home, home[x].value);
    }
  }

  /** Rendering from the roots terminates and shows every node exactly once. */
  lemma RenderShowsEveryNodeOnce(kids: Children, roots: seq<Key>, home: Homes)
    requires Forest(kids, roots, home)
    ensures Descending(kids) && Renderable(kids, roots, 0)
    ensures Rendered(kids, roots, 0) == multiset(kids.Keys)
  {
    ForestDescends(kids, roots, home);
    forall x ensures Rendered(kids, roots, 0)[x] == multiset(kids.Keys)[x] {
      if x in kids {
        VisitedOnce(kids, roots, home, x);
      } else {
        OnlyNodesAreVisited(kids, roots, 0, x);
      }
    }
  }

  // ---------- runs ----------

  /** The timeline of a list of events: maximal runs of one kind of delta become one group. */
  ghost function Runs(events: seq<Envelope>): seq<Item>
    decreases |events|
  {
    if events == [] then [] else Extend(Runs(events[..|events| - 1]), events[|events| - 1])
  }

  ghost function Extend(items: seq<Item>, e: Envelope): seq<Item> {
    if DeltaOf(e) == None then items + [Single(e)]
    else if OpenGroup(items) == DeltaOf(e) then
      var last := items[|items| - 1];
      items[|items| - 1 := Group(last.kind, last.events + [e])]
    else items + [Group(DeltaOf(e).value, [e])]
  }

  ghost function OpenGroup(items: seq<Item>): Option<Delta> {
    if items != [] && items[|items| - 1].Group? then Some(items[|items| - 1].kind) else None
  }

  ghost function EventsOf(item: Item): seq<Envelope> {
    match item
    case Group(_, events) => events
    case Single(e) => [e]
  }

  ghost function Flatten(items: seq<Item>): seq<Envelope>
    decreases |items|
  {
    if items == [] then [] else Flatten(items[..|items| - 1]) + EventsOf(items[|items| - 1])
  }

  function KindOf(d: Delta): string {
    match d
    case TextDelta => "text_delta"
    case ThinkingDelta => "thinking_delta"
  }

  ghost predicate ItemOk(item: Item) {
    match item
    case Group(kind, events) => events != [] && forall e :: e in events ==> e.eventType == KindOf(kind)
    case Single(e) => e.eventType != "text_delta" && e.eventType != "thinking_delta"
  }

  /** Groups hold one kind of delta each, and two neighbouring groups never have the same kind. */
  ghost predicate MaximalRuns(items: seq<Item>) {
    && (forall i :: 0 <= i < |items| ==> ItemOk(items[i]))
    && (forall i :: 0 <= i < |items| - 1 && items[i].Group? && items[i + 1].Group? ==>
      items[i].kind != items[i + 1].kind)
  }

  lemma FlattenAppend(items: seq<Item>, item: Item)
    ensures Flatten(items + [item]) == Flatten(items) + EventsOf(item)
  {
    assert (items + [item])[..|items|] == items;
  }

  lemma GrowLastGroup(items: seq<Item>, e: Envelope)
    requires MaximalRuns(items) && DeltaOf(e).Some? && OpenGroup(items) == DeltaOf(e)
    ensures MaximalRuns(Extend(items, e)) && Flatten(Extend(items, e)) == Flatten(items) + [e]
  {
    var n, last := |items| - 1, items[|items| - 1];
    var grown := Group(last.kind, last.events + [e]);
    assert ItemOk(last);
    assert ItemOk(grown);
    var longer := items[n := grown];
    assert MaximalRuns(longer);
    assert Flatten(items) == Flatten(items[..n]) + last.events;
    assert longer[..n] == items[..n];
    assert Flatten(longer) == Flatten(items[..n]) + (last.events + [e]);
  }

  lemma ExtendKeepsRuns(items: seq<Item>, e: Envelope)
    requires MaximalRuns(items)
    ensures MaximalRuns(Extend(items, e)) && Flatten(Extend(items, e)) == Flatten(items) + [e]
  {
    if DeltaOf(e).Some? && OpenGroup(items) == DeltaOf(e) {
      GrowLastGroup(items, e);
    } else {
      var item := if DeltaOf(e) == None then Single(e) else Group(DeltaOf(e).value, [e]);
      assert ItemOk(item);
      FlattenAppend(items, item);
    }
  }

  /** The items hold every event once, in order, in maximal runs. */
  ghost predicate TimelineOf(items: seq<Item>, events: seq<Envelope>) {
    Flatten(items) == events && MaximalRuns(items)
  }

  lemma {:induction false} RunsAreMaximal(events: seq<Envelope>)
    ensures TimelineOf(Runs(events), events)
    decreases |events|
  {
    hide *;
    if events == [] {
      NoRuns();
    } else {
      var init, e := events[..|events| - 1], events[|events| - 1];
      RunsAreMaximal(init);
      ExtendTimeline(Runs(init), init, e);
      RunsStep(init, e);
      assert events == init + [e];
    }
  }

  lemma NoRuns()
    ensures TimelineOf(Runs([]), [])
  {
  }

  lemma ExtendTimeline(items: seq<Item>, events: seq<Envelope>, e: Envelope)
    requires TimelineOf(items, events)
    ensures TimelineOf(Extend(items, e), events + [e])
  {
    ExtendKeepsRuns(items, e);
  }

  lemma RunsStep(events: seq<Envelope>, e: Envelope)
    ensures Runs(events + [e]) == Extend(Runs(events), e)
  {
    assert (events + [e])[..|events|] == events;
  }

  // ---------- routing ----------

  /** The remembered keys, each of its own kind and naming an existing node. */
  ghost predicate LastKeysOk(kids: Children, step: Option<Key>, candidate: Option<Key>, candidateStep: Option<Key>) {
    && (step.Some? ==> step.value.Step? && step.value in kids)
    && (candidate.Some? ==> candidate.value.Candidate? && candidate.value in kids)
    && (candidateStep.Some? ==> candidateStep.value.CandidateStep? && candidateStep.value in kids)
  }

  /** A key named by an envelope is the one that is remembered afterwards. */
  predicate Agrees(named: Option<Key>, last: Option<Key>) {
    named.Some? ==> last == named
  }

  function OrElse(a: Option<Key>, b: Key): Key {
    if a.Some? then a.value else b
  }

  /** The node whose timeline takes the envelope; absent coordinates fall back to the remembered ones. */
  function TargetKey(e: Envelope, pipeline: Key, step: Option<Key>, candidate: Option<Key>,
                     candidateStep: Option<Key>): Key {
    var atStep := OrElse(step, pipeline);
    var atCandidate := OrElse(candidate, atStep);
    var deepest := OrElse(candidateStep, atCandidate);
    if "interrupt_" <= e.eventType || e.interruptScope then atStep
    else if e.eventType in {"text_delta", "thinking_delta", "tool_result", "permission_requested",
      "input_required"} then deepest
    else if "candidate_step_" <= e.eventType then deepest
    else if "candidate_" <= e.eventType then atCandidate
    else if "pipeline_" <= e.eventType then pipeline
    else if "step_" <= e.eventType || e.eventType == "input_received" then atStep
    else deepest
  }

  // ---------- what is remembered ----------

  /** The last step, candidate and candidate step that envelopes without coordinates fall back to. */
  datatype Memory = Memory(step: Option<Key>, candidate: Option<Key>, candidateStep: Option<Key>)

  /** A step that starts, ends or changes makes its candidates a thing of the past. */
  predicate LeavesStep(m: Memory, e: Envelope) {
    e.step.Some? && (m.step != Some(Step(e.step.value))
      || e.eventType in {"step_started", "step_completed", "step_failed"})
  }

  function RecallStep(m: Memory, e: Envelope): Memory {
    if LeavesStep(m, e) then Memory(Some(Step(e.step.value)), None, None) else m
  }

  function RecallCandidate(m: Memory, e: Envelope): Memory {
    if e.candidate == None then m
    else
      var key := Candidate(e.candidate.value.run);
      Memory(m.step, Some(key), if m.candidate == Some(key) then m.candidateStep else None)
  }

  function RecallCandidateStep(m: Memory, e: Envelope): Memory {
    if e.candidate.Some? && e.candidateStep.Some?
      then m.(candidateStep := Some(CandidateStep(e.candidateStep.value))) else m
  }

  function Recall(m: Memory, e: Envelope): Memory {
    RecallCandidateStep(RecallCandidate(RecallStep(m, e), e), e)
  }

  /** What is remembered after a log of envelopes. */
  ghost function Remembered(log: seq<Envelope>): Memory {
    if log == [] then Memory(None, None, None) else Recall(Remembered(log[..|log| - 1]), log[|log| - 1])
  }

  /** Where the last envelope of a log goes: a function of the log alone. */
  ghost function Target(log: seq<Envelope>): Key
    requires log != []
  {
    var e, m := log[|log| - 1], Remembered(log);
    TargetKey(e, Pipeline(e.pipeline), m.step, m.candidate, m.candidateStep)
  }

  ghost predicate LatestStep(log: seq<Envelope>, i: int, k: Key) {
    && 0 <= i < |log| && log[i].step.Some? && k == Step(log[i].step.value)
    && forall j :: i < j < |log| ==> log[j].step == None
  }

  /** The remembered step is the one that was named last. */
  lemma {:induction false} StepIsLatest(log: seq<Envelope>)
    ensures Remembered(log).step == None ==> forall i :: 0 <= i < |log| ==> log[i].step == None
    ensures Remembered(log).step.Some? ==> exists i :: LatestStep(log, i, Remembered(log).step.value)
  {
    if log != [] {
      var init, n := log[..|log| - 1], |log| - 1;
      StepIsLatest(init);
      if log[n].step.Some? {
        assert LatestStep(log, n, Remembered(log).step.value);
      } else if Remembered(init).step.Some? {
        var i :| LatestStep(init, i, Remembered(init).step.value);
        assert LatestStep(log, i, Remembered(log).step.value);
      }
    }
  }

  /** Envelope `i` named the candidate, and the step has not been left since. */
  ghost predicate CandidateNamed(log: seq<Envelope>, i: int, k: Key) {
    && 0 <= i < |log| && log[i].candidate.Some? && k == Candidate(log[i].candidate.value.run)
    && forall j :: i < j < |log| ==> !LeavesStep(Remembered(log[..j]), log[j])
  }

  lemma CandidateStillNamed(log: seq<Envelope>, i: int, k: Key)
    requires log != [] && CandidateNamed(log[..|log| - 1], i, k)
    requires !LeavesStep(Remembered(log[..|log| - 1]), log[|log| - 1])
    ensures CandidateNamed(log, i, k)
  {
    var init := log[..|log| - 1];
    forall j | i < j < |log| ensures !LeavesStep(Remembered(log[..j]), log[j]) {
      if j < |init| { assert init[..j] == log[..j]; }
    }
  }

  /** No stale candidate: it was named since the step was last left. */
  lemma {:induction false} CandidateIsCurrent(log: seq<Envelope>)
    ensures Remembered(log).candidate.Some? ==> exists i :: CandidateNamed(log, i, Remembered(log).candidate.value)
  {
    if log != [] {
      var init, n := log[..|log| - 1], |log| - 1;
      CandidateIsCurrent(init);
      if log[n].candidate.Some? {
        assert CandidateNamed(log, n, Remembered(log).candidate.value);
      } else if Remembered(log).candidate.Some? {
        var i :| CandidateNamed(init, i, Remembered(init).candidate.value);
        CandidateStillNamed(log, i, Remembered(init).candidate.value);
      }
    }
  }

  ghost predicate StepOfCandidate(log: seq<Envelope>, i: int, candidate: Key, k: Key) {
    && CandidateNamed(log, i, candidate)
    && log[i].candidateStep.Some? && k == CandidateStep(log[i].candidateStep.value)
  }

  /** The remembered candidate step was reported for the remembered candidate, in the same stay at its step. */
  lemma {:induction false} CandidateStepIsCurrent(log: seq<Envelope>)
    ensures Remembered(log).candidateStep.Some? ==>
              && Remembered(log).candidate.Some?
              && exists i :: StepOfCandidate(log, i, Remembered(log).candidate.value,
                Remembered(log).candidateStep.value)
  {
    if log != [] {
      var init, n, m := log[..|log| - 1], |log| - 1, Remembered(log);
      CandidateStepIsCurrent(init);
      if log[n].candidate.Some? && log[n].candidateStep.Some? {
        assert StepOfCandidate(log, n, m.candidate.value, m.candidateStep.value);
      } else if m.candidateStep.Some? {
        var i :| StepOfCandidate(init, i, m.candidate.value, m.candidateStep.value);
        CandidateStillNamed(log, i, m.candidate.value);
        assert StepOfCandidate(log, i, m.candidate.value, m.candidateStep.value);
      }
    }
  }

  // ---------- routing, from the log alone ----------

  ghost predicate StepNow(log: seq<Envelope>, k: Key) {
    exists i :: LatestStep(log, i, k)
  }

  /** Envelope `i` named the candidate, no later one names any, and the step has not been left since. */
  ghost predicate CandidateLatest(log: seq<Envelope>, i: int, k: Key) {
    CandidateNamed(log, i, k) && forall j :: i < j < |log| ==> log[j].candidate == None
  }

  ghost predicate CandidateNow(log: seq<Envelope>, k: Key) {
    exists i :: CandidateLatest(log, i, k)
  }

  /** The step has not been left since, and later envelopes name the same candidate or none, and no candidate step. */
  ghost predicate StaysAt(log: seq<Envelope>, i: int, j: int)
    requires 0 <= i < j < |log| && log[i].candidate.Some?
  {
    && !LeavesStep(Remembered(log[..j]), log[j])
    && (log[j].candidate.Some? ==>
          log[j].candidate.value.run == log[i].candidate.value.run && log[j].candidateStep == None)
  }

  ghost predicate CandidateStepLatest(log: seq<Envelope>, i: int, k: Key) {
    && 0 <= i < |log| && log[i].candidate.Some? && log[i].candidateStep.Some?
    && k == CandidateStep(log[i].candidateStep.value)
    && forall j :: i < j < |log| ==> StaysAt(log, i, j)
  }

  ghost predicate CandidateStepNow(log: seq<Envelope>, k: Key) {
    exists i :: CandidateStepLatest(log, i, k)
  }

  lemma StepNowIff(log: seq<Envelope>, k: Key)
    ensures Remembered(log).step == Some(k) <==> StepNow(log, k)
  {
    hide Remembered;
    StepIsLatest(log);
    if i :| LatestStep(log, i, k) {
      var j :| LatestStep(log, j, Remembered(log).step.value);
      assert i == j;
    }
  }

  lemma CandidateLatestStep(log: seq<Envelope>, i: int, k: Key)
    requires log != [] && i < |log| - 1
    ensures CandidateLatest(log, i, k) <==>
            CandidateLatest(log[..|log| - 1], i, k) && log[|log| - 1].candidate == None
            && !LeavesStep(Remembered(log[..|log| - 1]), log[|log| - 1])
  {
    hide Remembered, LeavesStep;
    var n, init := |log| - 1, log[..|log| - 1];
    assert forall j :: 0 <= j <= n ==> init[..j] == log[..j];
    assert forall j :: 0 <= j < n ==> init[j] == log[j];
  }

  lemma {:induction false} CandidateNowIff(log: seq<Envelope>, k: Key)
    ensures Remembered(log).candidate == Some(k) <==> CandidateNow(log, k)
  {
    if log != [] {
      var n, init := |log| - 1, log[..|log| - 1];
      CandidateNowIff(init, k);
      forall i | i < n
        ensures CandidateLatest(log, i, k) <==>
                CandidateLatest(init, i, k) && log[n].candidate == None && !LeavesStep(Remembered(init), log[n])
      {
        CandidateLatestStep(log, i, k);
      }
      if log[n].candidate.Some? {
        assert CandidateLatest(log, n, k) <==> k == Candidate(log[n].candidate.value.run);
        assert forall i :: CandidateLatest(log, i, k) ==> i == n;
      } else {
        assert forall i :: CandidateLatest(log, i, k) ==> i < n;
        if i :| CandidateLatest(init, i, k) { assert i < n; }
      }
    }
  }

  lemma CandidateStepLatestStep(log: seq<Envelope>, i: int, k: Key)
    requires log != [] && i < |log| - 1
    ensures CandidateStepLatest(log, i, k) <==>
            CandidateStepLatest(log[..|log| - 1], i, k) && StaysAt(log, i, |log| - 1)
  {
    hide Remembered, LeavesStep;
    var n, init := |log| - 1, log[..|log| - 1];
    assert forall j :: 0 <= j <= n ==> init[..j] == log[..j];
    assert forall j :: 0 <= j < n ==> init[j] == log[j];
    if 0 <= i && log[i].candidate.Some? {
      assert forall j :: i < j < n ==> (StaysAt(init, i, j) <==> StaysAt(log, i, j));
    }
  }

  lemma {:induction false} CandidateStepNowIff(log: seq<Envelope>, k: Key)
    ensures Remembered(log).candidateStep == Some(k) <==> CandidateStepNow(log, k)
    ensures forall i :: CandidateStepLatest(log, i, k) ==>
              Remembered(log).candidate == Some(Candidate(log[i].candidate.value.run))
  {
    if log != [] {
      var n, init := |log| - 1, log[..|log| - 1];
      CandidateStepNowIff(init, k);
      forall i | i < n
        ensures CandidateStepLatest(log, i, k) <==> CandidateStepLatest(init, i, k) && StaysAt(log, i, n)
      {
        CandidateStepLatestStep(log, i, k);
      }
      CandidateStepEnds(log, k);
    }
  }

  /** The last envelope names a candidate step itself, keeps the one before it, or ends it. */
  lemma CandidateStepEnds(log: seq<Envelope>, k: Key)
    requires log != []
    requires var init := log[..|log| - 1];
             && (Remembered(init).candidateStep == Some(k) <==> CandidateStepNow(init, k))
             && (forall i :: CandidateStepLatest(init, i, k) ==>
                   Remembered(init).candidate == Some(Candidate(init[i].candidate.value.run)))
             && (forall i :: i < |init| ==>
                   (CandidateStepLatest(log, i, k) <==> CandidateStepLatest(init, i, k) && StaysAt(log, i, |init|)))
    ensures Remembered(log).candidateStep == Some(k) <==> CandidateStepNow(log, k)
    ensures forall i :: CandidateStepLatest(log, i, k) ==>
              Remembered(log).candidate == Some(Candidate(log[i].candidate.value.run))
  {
    var n, init := |log| - 1, log[..|log| - 1];
    var e, m := log[n], Remembered(init);
    assert forall i :: CandidateStepLatest(log, i, k) ==> i <= n;
    assert forall i :: 0 <= i < n ==> init[i] == log[i];
    if e.candidate.Some? && e.candidateStep.Some? {
      assert CandidateStepLatest(log, n, k) <==> k == CandidateStep(e.candidateStep.value);
      assert forall i :: CandidateStepLatest(log, i, k) ==> i == n;
    } else {
      assert !CandidateStepLatest(log, n, k);
      if i :| CandidateStepLatest(init, i, k) {
        assert i < n;
        assert CandidateStepLatest(log, i, k) <==> StaysAt(log, i, n);
        assert forall j :: CandidateStepLatest(init, j, k) ==> log[j].candidate.value.run == log[i].candidate.value.run;
      }
    }
  }

  /** The last step, or else the envelope's pipeline. */
  ghost predicate AtStep(log: seq<Envelope>, target: Key)
    requires log != []
  {
    if exists k :: StepNow(log, k) then StepNow(log, target) else target == Pipeline(log[|log| - 1].pipeline)
  }

  /** The candidate named last in the current stay at the step, or else the step. */
  ghost predicate AtCandidate(log: seq<Envelope>, target: Key)
    requires log != []
  {
    if exists k :: CandidateNow(log, k) then CandidateNow(log, target) else AtStep(log, target)
  }

  /** The candidate step reported last for that candidate, or else the candidate. */
  ghost predicate AtDeepest(log: seq<Envelope>, target: Key)
    requires log != []
  {
    if exists k :: CandidateStepNow(log, k) then CandidateStepNow(log, target) else AtCandidate(log, target)
  }

  ghost predicate StepLevel(e: Envelope) {
    IsInterrupt(e) || "step_" <= e.eventType || e.eventType == "input_received"
  }

  ghost predicate CandidateLevel(e: Envelope) {
    !IsInterrupt(e) && "candidate_" <= e.eventType && !("candidate_step_" <= e.eventType)
  }

  ghost predicate PipelineLevel(e: Envelope) {
    !IsInterrupt(e) && "pipeline_" <= e.eventType
  }

  /** Where the last envelope of a log belongs, by its kind and by what the log says. */
  ghost predicate RoutedExactly(log: seq<Envelope>, target: Key)
    requires log != []
  {
    var e := log[|log| - 1];
    && (StepLevel(e) ==> AtStep(log, target))
    && (CandidateLevel(e) ==> AtCandidate(log, target))
    && (PipelineLevel(e) ==> target == Pipeline(e.pipeline))
    && (!StepLevel(e) && !CandidateLevel(e) && !PipelineLevel(e) ==> AtDeepest(log, target))
  }

  lemma RememberedIsNow(log: seq<Envelope>)
    ensures forall k :: Remembered(log).step == Some(k) <==> StepNow(log, k)
    ensures forall k :: Remembered(log).candidate == Some(k) <==> CandidateNow(log, k)
    ensures forall k :: Remembered(log).candidateStep == Some(k) <==> CandidateStepNow(log, k)
  {
    forall k
      ensures Remembered(log).step == Some(k) <==> StepNow(log, k)
      ensures Remembered(log).candidate == Some(k) <==> CandidateNow(log, k)
      ensures Remembered(log).candidateStep == Some(k) <==> CandidateStepNow(log, k)
    {
      StepNowIff(log, k);
      CandidateNowIff(log, k);
      CandidateStepNowIff(log, k);
    }
  }

  /** The routing follows the log alone: every kind of event goes to its level. */
  lemma TargetIsExact(log: seq<Envelope>)
    requires log != []
    ensures RoutedExactly(log, Target(log))
  {
    hide Remembered, StepNow, CandidateNow, CandidateStepNow;
    RememberedIsNow(log);
    EventClasses(log[|log| - 1].eventType);
    var m := Remembered(log);
    assert m.step.Some? ==> StepNow(log, m.step.value);
    assert m.candidate.Some? ==> CandidateNow(log, m.candidate.value);
    assert m.candidateStep.Some? ==> CandidateStepNow(log, m.candidateStep.value);
  }

  predicate IsInterrupt(e: Envelope) {
    "interrupt_" <= e.eventType || e.interruptScope
  }

  predicate GoesDeep(e: Envelope) {
    || e.eventType in {"text_delta", "thinking_delta", "tool_result", "permission_requested", "input_required"}
    || "candidate_step_" <= e.eventType
  }

  /**
   Pipeline events stay at their pipeline, step events and interrupts at step level, candidate events above its steps.
   */
  ghost predicate RoutedRight(e: Envelope, target: Key) {
    && ("pipeline_" <= e.eventType && !IsInterrupt(e) ==> target == Pipeline(e.pipeline))
    && (IsInterrupt(e) || "step_" <= e.eventType || e.eventType == "input_received" ==>
          if e.step.Some? then target == Step(e.step.value) else target.Step? || target == Pipeline(e.pipeline))
    && ("candidate_" <= e.eventType && !("candidate_step_" <= e.eventType) ==> !target.CandidateStep?)
    && (!target.Parallel?)
    && (e.candidate.Some? && e.candidateStep.Some? && !IsInterrupt(e) && GoesDeep(e) ==>
          target == CandidateStep(e.candidateStep.value))
  }

  /** The subsequence of the log that was routed to `k`. */
  ghost function Select(log: seq<Envelope>, targets: seq<Key>, k: Key): seq<Envelope>
    requires |log| == |targets|
    decreases |log|
  {
    if log == [] then []
    else
      var n := |log| - 1;
      Select(log[..n], targets[..n], k) + if targets[n] == k then [log[n]] else []
  }

  lemma SelectAppend(log: seq<Envelope>, targets: seq<Key>, e: Envelope, t: Key, k: Key)
    requires |log| == |targets|
    ensures Select(log + [e], targets + [t], k) == Select(log, targets, k) + if t == k then [e] else []
  {
    assert (log + [e])[..|log|] == log && (targets + [t])[..|targets|] == targets;
  }

  lemma {:induction false} SelectNothing(log: seq<Envelope>, targets: seq<Key>, k: Key)
    requires |log| == |targets| && k !in targets
    ensures Select(log, targets, k) == []
    decreases |log|
  {
    if log != [] {
      SelectNothing(log[..|log| - 1], targets[..|log| - 1], k);
    }
  }

  // ---------- timelines and open groups ----------

  type Timelines = map<Key, seq<Item>>

  /** The open groups: the last item of a timeline, when it is a group. */
  type Groups = map<(Delta, Key), nat>

  ghost predicate HoldsRouted(timeline: Timelines, log: seq<Envelope>, targets: seq<Key>, k: Key)
    requires |log| == |targets|
  {
    k in timeline && timeline[k] == Runs(Select(log, targets, k))
  }

  ghost predicate TimelinesOk(timeline: Timelines, log: seq<Envelope>, targets: seq<Key>) {
    && |log| == |targets|
    && (forall i :: 0 <= i < |targets| ==> targets[i] in timeline)
    && (forall k {:trigger HoldsRouted(timeline, log, targets, k)} :: k in timeline ==>
      HoldsRouted(timeline, log, targets, k))
  }

  ghost predicate PointsAtLast(timeline: Timelines, groups: Groups, d: Delta, k: Key) {
    (d, k) in groups ==> k in timeline && OpenGroup(timeline[k]) == Some(d) && groups[(d, k)] == |timeline[k]| - 1
  }

  ghost predicate OpenIsKnown(timeline: Timelines, groups: Groups, k: Key) {
    k in timeline && OpenGroup(timeline[k]).Some? ==> (OpenGroup(timeline[k]).value, k) in groups
  }

  ghost predicate GroupsOk(timeline: Timelines, groups: Groups) {
    && (forall d, k {:trigger PointsAtLast(timeline, groups, d, k)} :: PointsAtLast(timeline, groups, d, k))
    && (forall k {:trigger OpenIsKnown(timeline, groups, k)} :: OpenIsKnown(timeline, groups, k))
  }

  lemma NewNodeIsEmpty(timeline: Timelines, groups: Groups, log: seq<Envelope>, targets: seq<Key>, key: Key)
    requires TimelinesOk(timeline, log, targets) && GroupsOk(timeline, groups) && key !in timeline
    ensures TimelinesOk(timeline[key := []], log, targets) && GroupsOk(timeline[key := []], groups)
  {
    var after := timeline[key := []];
    SelectNothing(log, targets, key);
    forall k | k in after ensures HoldsRouted(after, log, targets, k) {
      assert k != key ==> HoldsRouted(timeline, log, targets, k);
    }
    forall d, k ensures PointsAtLast(after, groups, d, k) { assert PointsAtLast(timeline, groups, d, k); }
    forall k ensures OpenIsKnown(after, groups, k) { assert OpenIsKnown(timeline, groups, k); }
  }

  lemma RoutedTimelines(timeline: Timelines, log: seq<Envelope>, targets: seq<Key>, target: Key, e: Envelope)
    requires TimelinesOk(timeline, log, targets) && target in timeline
    ensures TimelinesOk(timeline[target := Extend(timeline[target], e)], log + [e], targets + [target])
  {
    var after := timeline[target := Extend(timeline[target], e)];
    forall k | k in after ensures HoldsRouted(after, log + [e], targets + [target], k) {
      assert HoldsRouted(timeline, log, targets, k);
      SelectAppend(log, targets, e, target, k);
      RunsStep(Select(log, targets, k), e);
      assert Select(log, targets, k) + [] == Select(log, targets, k);
    }
  }

  function Other(kind: Delta): Delta {
    if kind == TextDelta then ThinkingDelta else TextDelta
  }

  /** The open groups after an envelope has been added to a timeline of `size` items. */
  function Regrouped(groups: Groups, target: Key, size: nat, e: Envelope): Groups {
    match DeltaOf(e)
    case None => groups - {(TextDelta, target), (ThinkingDelta, target)}
    case Some(kind) =>
      var rest := groups - {(Other(kind), target)};
      if (kind, target) in rest then rest else rest[(kind, target) := size]
  }

  /** The items after an envelope has been merged into the open group of its kind, or appended. */
  function Appended(groups: Groups, target: Key, items: seq<Item>, e: Envelope): seq<Item>
    requires forall d :: (d, target) in groups ==> groups[(d, target)] < |items| && items[groups[(d, target)]].Group?
  {
    match DeltaOf(e)
    case None => items + [Single(e)]
    case Some(kind) =>
      if (kind, target) in groups then
        var open := groups[(kind, target)];
        items[open := Group(kind, items[open].events + [e])]
      else items + [Group(kind, [e])]
  }

  lemma GroupsPointAtGroups(timeline: Timelines, groups: Groups, target: Key)
    requires GroupsOk(timeline, groups) && target in timeline
    ensures forall d :: (d, target) in groups ==>
              groups[(d, target)] < |timeline[target]| && timeline[target][groups[(d, target)]].Group?
  {
    forall d | (d, target) in groups
      ensures groups[(d, target)] < |timeline[target]| && timeline[target][groups[(d, target)]].Group?
    {
      assert PointsAtLast(timeline, groups, d, target);
    }
  }

  /** Following the remembered index merges exactly as looking at the end of the timeline does. */
  lemma AppendedIsExtend(timeline: Timelines, groups: Groups, target: Key, e: Envelope)
    requires GroupsOk(timeline, groups) && target in timeline
    requires forall d :: (d, target) in groups ==>
               groups[(d, target)] < |timeline[target]| && timeline[target][groups[(d, target)]].Group?
    ensures Appended(groups, target, timeline[target], e) == Extend(timeline[target], e)
  {
    assert OpenIsKnown(timeline, groups, target);
    if DeltaOf(e).Some? { assert PointsAtLast(timeline, groups, DeltaOf(e).value, target); }
  }

  lemma OpenAfter(items: seq<Item>, e: Envelope)
    ensures OpenGroup(Extend(items, e)) == DeltaOf(e)
    ensures |Extend(items, e)| == |items| + if DeltaOf(e).Some? && OpenGroup(items) == DeltaOf(e) then 0 else 1
  {
  }

  lemma GroupsStep(timeline: Timelines, groups: Groups, target: Key, e: Envelope)
    requires GroupsOk(timeline, groups) && target in timeline
    ensures GroupsOk(timeline[target := Extend(timeline[target], e)], Regrouped(groups, target, |timeline[target]|, e))
  {
    var items := timeline[target];
    OpenAfter(items, e);
    var after, groups' := timeline[target := Extend(items, e)], Regrouped(groups, target, |items|, e);
    forall d, k ensures PointsAtLast(after, groups', d, k) {
      assert PointsAtLast(timeline, groups, d, k);
      assert OpenIsKnown(timeline, groups, k);
      assert d == TextDelta || d == ThinkingDelta;
    }
    forall k ensures OpenIsKnown(after, groups', k) {
      assert OpenIsKnown(timeline, groups, k);
    }
  }

  // ---------- the node table ----------

  /** The fields of all nodes, and the roots. `parent` is an attribute; `children` is what is rendered. */
  datatype Table = Table(children: Children, parent: map<Key, Option<Key>>, timeline: Timelines, roots: seq<Key>)

  /** What has been appended so far, and to which node. */
  datatype History = History(log: seq<Envelope>, targets: seq<Key>)

  ghost predicate TableOk(t: Table, home: Homes, groups: Groups, h: History) {
    && Forest(t.children, t.roots, home) && WellPlaced(home)
    && t.timeline.Keys == t.children.Keys && t.parent.Keys == t.children.Keys
    && TimelinesOk(t.timeline, h.log, h.targets)
    && GroupsOk(t.timeline, groups)
  }

  predicate MayHang(t: Table, key: Key, parentKey: Option<Key>) {
    Fits(key, parentKey) && (parentKey.Some? ==> parentKey.value in t.children)
  }

  /** A node is created below its parent on first sight; later only its parent attribute can change. */
  function Ensured(t: Table, key: Key, parentKey: Option<Key>): Table
    requires MayHang(t, key, parentKey)
  {
    if key in t.children then
      if parentKey.Some? then t.(parent := t.parent[key := parentKey]) else t
    else if parentKey.Some? then
      Table(t.children[key := []][parentKey.value := t.children[parentKey.value] + [key]],
            t.parent[key := parentKey], t.timeline[key := []], t.roots)
    else
      Table(t.children[key := []], t.parent[key := parentKey], t.timeline[key := []], t.roots + [key])
  }

  /** A node hangs where it was placed first. */
  ghost function Placed(home: Homes, key: Key, parentKey: Option<Key>): Homes {
    if key in home then home else home[key := parentKey]
  }

  lemma EnsureKeepsTable(t: Table, home: Homes, groups: Groups, h: History, key: Key, parentKey: Option<Key>)
    requires TableOk(t, home, groups, h) && MayHang(t, key, parentKey)
    ensures TableOk(Ensured(t, key, parentKey), Placed(home, key, parentKey), groups, h)
    ensures Ensured(t, key, parentKey).children.Keys == t.children.Keys + {key}
  {
    if key !in t.children {
      NewNodeIsEmpty(t.timeline, groups, h.log, h.targets, key);
      if parentKey.Some? {
        ForestAddsChild(t.children, t.roots, home, key, parentKey.value);
      } else {
        ForestAddsRoot(t.children, t.roots, home, key);
      }
    }
  }

  lemma AppendKeepsTable(t: Table, home: Homes, groups: Groups, h: History, target: Key, e: Envelope)
    requires TableOk(t, home, groups, h) && target in t.timeline
    ensures TableOk(t.(timeline := t.timeline[target := Extend(t.timeline[target], e)]), home,
                    Regrouped(groups, target, |t.timeline[target]|, e), History(h.log + [e], h.targets + [target]))
  {
    RoutedTimelines(t.timeline, h.log, h.targets, target, e);
    GroupsStep(t.timeline, groups, target, e);
  }

  // ---------- where nodes hang ----------

  function Base(e: Envelope): Key {
    if e.step.Some? then Step(e.step.value) else Pipeline(e.pipeline)
  }

  ghost function PlacedSteps(home: Homes, candidate: Key, steps: seq<string>): Homes {
    if steps == [] then home
    else
      var n := |steps| - 1;
      Placed(PlacedSteps(home, candidate, steps[..n]), CandidateStep(steps[n]), Some(candidate))
  }

  /** The nodes that an envelope mentions, placed from the pipeline down. */
  ghost function PlacedBy(home: Homes, e: Envelope): Homes {
    var h0 := Placed(home, Pipeline(e.pipeline), None);
    var h1 := if e.step.Some? then Placed(h0, Step(e.step.value), Some(Pipeline(e.pipeline))) else h0;
    var h2 := if e.candidate.Some? || e.candidateStep.Some? then Placed(h1, Parallel(Base(e)), Some(Base(e))) else h1;
    if e.candidate == None then h2
    else
      var candidate := Candidate(e.candidate.value.run);
      var h3 := PlacedSteps(Placed(h2, candidate, Some(Parallel(Base(e)))), candidate, e.candidate.value.steps);
      if e.candidateStep.Some? then Placed(h3, CandidateStep(e.candidateStep.value), Some(candidate)) else h3
  }

  ghost function HomesOf(log: seq<Envelope>): Homes {
    if log == [] then map[] else PlacedBy(HomesOf(log[..|log| - 1]), log[|log| - 1])
  }

  ghost predicate Mentions(e: Envelope, k: Key) {
    match k
    case Pipeline(run) => run == e.pipeline
    case Step(run) => e.step == Some(run)
    case Parallel(of) => of == Base(e) && (e.candidate.Some? || e.candidateStep.Some?)
    case Candidate(run) => e.candidate.Some? && e.candidate.value.run == run
    case CandidateStep(run) => e.candidate.Some? && (run in e.candidate.value.steps || e.candidateStep == Some(run))
  }

  /** The node below which a mentioning envelope puts the node. */
  ghost function Above(e: Envelope, k: Key): Option<Key>
    requires Mentions(e, k)
  {
    match k
    case Pipeline(_) => None
    case Step(_) => Some(Pipeline(e.pipeline))
    case Parallel(of) => Some(of)
    case Candidate(_) => Some(Parallel(Base(e)))
    case CandidateStep(_) => Some(Candidate(e.candidate.value.run))
  }

  lemma {:induction false} PlacedStepsAt(home: Homes, candidate: Key, steps: seq<string>, k: Key)
    ensures var h := PlacedSteps(home, candidate, steps);
            && (k in h <==> k in home || (k.CandidateStep? && k.run in steps))
            && (k in h ==> h[k] == if k in home then home[k] else Some(candidate))
  {
    if steps != [] {
      var n := |steps| - 1;
      PlacedStepsAt(home, candidate, steps[..n], k);
      assert steps == steps[..n] + [steps[n]];
    }
  }

  /** An envelope places exactly the nodes it mentions, each below its parent, unless they hang somewhere already. */
  lemma PlacedByAt(home: Homes, e: Envelope, k: Key)
    ensures k in PlacedBy(home, e) <==> k in home || Mentions(e, k)
    ensures k in PlacedBy(home, e) ==> PlacedBy(home, e)[k] == if k in home then home[k] else Above(e, k)
  {
    hide PlacedSteps;
    if e.candidate.Some? {
      var h0 := Placed(home, Pipeline(e.pipeline), None);
      var h1 := if e.step.Some? then Placed(h0, Step(e.step.value), Some(Pipeline(e.pipeline))) else h0;
      var candidate := Candidate(e.candidate.value.run);
      PlacedStepsAt(Placed(Placed(h1, Parallel(Base(e)), Some(Base(e))), candidate, Some(Parallel(Base(e)))),
                    candidate, e.candidate.value.steps, k);
    }
  }

  ghost predicate FirstMention(log: seq<Envelope>, i: int, k: Key) {
    0 <= i < |log| && Mentions(log[i], k) && forall j :: 0 <= j < i ==> !Mentions(log[j], k)
  }

  /** Every node hangs where the first envelope that mentions it put it. */
  lemma {:induction false} HangsWhereFirstMentioned(log: seq<Envelope>, k: Key)
    ensures k in HomesOf(log) <==> exists i :: FirstMention(log, i, k)
    ensures forall i :: FirstMention(log, i, k) ==> k in HomesOf(log) && HomesOf(log)[k] == Above(log[i], k)
  {
    if log != [] {
      hide PlacedBy, Mentions, Above;
      var n, init := |log| - 1, log[..|log| - 1];
      HangsWhereFirstMentioned(init, k);
      PlacedByAt(HomesOf(init), log[n], k);
      if i :| FirstMention(init, i, k) {
        assert FirstMention(log, i, k);
        assert forall j :: FirstMention(log, j, k) ==> j == i;
      } else {
        NoMention(init, k);
        assert Mentions(log[n], k) ==> FirstMention(log, n, k);
        assert forall j :: FirstMention(log, j, k) ==> j == n;
      }
    }
  }

  lemma {:induction false} NoMention(log: seq<Envelope>, k: Key)
    requires forall i :: !FirstMention(log, i, k)
    ensures forall i :: 0 <= i < |log| ==> !Mentions(log[i], k)
  {
    if log != [] {
      var n, init := |log| - 1, log[..|log| - 1];
      forall i ensures !FirstMention(init, i, k) { assert !FirstMention(log, i, k); }
      NoMention(init, k);
      assert forall i :: 0 <= i < n ==> init[i] == log[i];
      assert !FirstMention(log, n, k);
    }
  }

  lemma MentionFits(e: Envelope, k: Key)
    requires Mentions(e, k)
    ensures Fits(k, Above(e, k)) && (Above(e, k).Some? ==> Mentions(e, Above(e, k).value))
  {
  }

  lemma HomesAreWellPlaced(log: seq<Envelope>)
    ensures WellPlaced(HomesOf(log))
  {
    hide Fits, HomesOf;
    forall k | k in HomesOf(log) ensures Fits(k, HomesOf(log)[k]) {
      HangsWhereFirstMentioned(log, k);
      var i :| FirstMention(log, i, k);
      MentionFits(log[i], k);
    }
  }

  /** The pipeline below which a node is shown. */
  ghost function RootOf(home: Homes, k: Key): Key
    requires WellPlaced(home)
    decreases Rank(k)
  {
    if k in home && home[k].Some? then
      assert Fits(k, home[k]);
      RootOf(home, home[k].value)
    else k
  }

  /**
   A step is shown below the pipeline of the first envelope that names it, a candidate below that of the step or
   pipeline it was first named with, and a candidate step below that of the candidate it was first named with.
   */
  lemma RootIsFirstPipeline(log: seq<Envelope>, k: Key, i: nat)
    requires FirstMention(log, i, k)
    ensures WellPlaced(HomesOf(log))
    ensures k.Pipeline? ==> RootOf(HomesOf(log), k) == k
    ensures k.Step? ==> RootOf(HomesOf(log), k) == Pipeline(log[i].pipeline)
    ensures k.Candidate? ==> RootOf(HomesOf(log), k) == RootOf(HomesOf(log), Base(log[i]))
    ensures k.CandidateStep? ==>
              RootOf(HomesOf(log), k) == RootOf(HomesOf(log), Candidate(log[i].candidate.value.run))
  {
    hide HomesOf;
    HomesAreWellPlaced(log);
    HangsWhereFirstMentioned(log, k);
    var pipeline := Pipeline(log[i].pipeline);
    HangsOf(log, pipeline, i);
    if k.Candidate? { HangsOf(log, Parallel(Base(log[i])), i); }
  }

  lemma HangsOf(log: seq<Envelope>, k: Key, i: nat)
    requires i < |log| && Mentions(log[i], k) && (k.Pipeline? || k.Parallel?)
    ensures k in HomesOf(log) && HomesOf(log)[k] == if k.Pipeline? then None else Some(k.of)
  {
    hide HomesOf;
    if forall j :: !FirstMention(log, j, k) { NoMention(log, k); }
    var j :| FirstMention(log, j, k);
    HangsWhereFirstMentioned(log, k);
  }

  /**
   An envelope that goes to step level is shown below its own pipeline exactly when the step it goes to was first
   named by an envelope of that pipeline.
   */
  lemma UnderOwnPipelineIff(log: seq<Envelope>, i: nat)
    requires log != [] && Target(log).Step? && FirstMention(log, i, Target(log))
    ensures WellPlaced(HomesOf(log))
    ensures RootOf(HomesOf(log), Target(log)) == Pipeline(log[|log| - 1].pipeline)
            <==> log[i].pipeline == log[|log| - 1].pipeline
  {
    hide Target, HomesOf, RootOf;
    RootIsFirstPipeline(log, Target(log), i);
  }

  /** An envelope without coordinates goes to the last step even if that belongs to another pipeline. */
  lemma StrayEnvelope(a: Envelope, b: Envelope)
    requires a.step.Some? && a.candidate == None && b.step == None && b.candidate == None && b.candidateStep == None
    requires DeltaOf(b).Some? && a.pipeline != b.pipeline
    ensures Target([a, b]) == Step(a.step.value) && WellPlaced(HomesOf([a, b]))
    ensures RootOf(HomesOf([a, b]), Target([a, b])) == Pipeline(a.pipeline) != Pipeline(b.pipeline)
  {
    hide HomesOf, RootOf;
    TwoRemembered(a, b);
    assert FirstMention([a, b], 0, Step(a.step.value));
    RootIsFirstPipeline([a, b], Step(a.step.value), 0);
  }

  lemma TwoRemembered(a: Envelope, b: Envelope)
    requires a.step.Some? && a.candidate == None && b.step == None && b.candidate == None && b.candidateStep == None
    ensures Remembered([a, b]) == Memory(Some(Step(a.step.value)), None, None)
  {
    assert [a, b][..1] == [a] && [a][..0] == [];
    assert Remembered([a]) == Recall(Remembered([]), a);
  }

  // ---------- the tree ----------

  class Tree {
    var nodes: Table
    var groups: Groups
    var lastStep: Option<Key>
    var lastCandidate: Option<Key>
    var lastCandidateStep: Option<Key>
    ghost var home: Homes
    ghost var history: History

    ghost predicate Valid()
      reads this
    {
      && TableOk(nodes, home, groups, history)
      && LastKeysOk(nodes.children, lastStep, lastCandidate, lastCandidateStep)
    }

    function Memories(): Memory
      reads this
    {
      Memory(lastStep, lastCandidate, lastCandidateStep)
    }

    constructor ()
      ensures Valid() && Memories() == Memory(None, None, None) && history == History([], [])
      ensures nodes.children == map[] && home == map[]
    {
      nodes, groups := Table(map[], map[], map[], []), map[];
      lastStep, lastCandidate, lastCandidateStep := None, None, None;
      home, history := map[], History([], []);
    }

    method EnsureTreeNode(key: Key, parentKey: Option<Key>)
      requires Valid() && MayHang(nodes, key, parentKey)
      modifies `nodes, `home
      ensures Valid() && nodes == Ensured(old(nodes), key, parentKey) && home == Placed(old(home), key, parentKey)
      ensures nodes.children.Keys == old(nodes.children.Keys) + {key}
    {
      hide TableOk;
      EnsureKeepsTable(nodes, home, groups, history, key, parentKey);
      home := Placed(home, key, parentKey);
      if key !in nodes.children {
        var children := nodes.children[key := []];
        if parentKey.Some? {
          nodes := nodes.(children := children[parentKey.value := children[parentKey.value] + [key]]);
        } else {
          nodes := nodes.(children := children, roots := nodes.roots + [key]);
        }
        nodes := nodes.(timeline := nodes.timeline[key := []], parent := nodes.parent[key := parentKey]);
      } else if parentKey.Some? {
        nodes := nodes.(parent := nodes.parent[key := parentKey]);
      }
    }

    /** Adds the envelope to one timeline, merging it into the open group of its kind. */
    method AppendTimelineItem(target: Key, e: Envelope)
      requires Valid() && target in nodes.timeline
      modifies `nodes, `groups, `history
      ensures Valid()
      ensures history == History(old(history).log + [e], old(history).targets + [target])
      ensures nodes == old(nodes).(timeline := old(nodes).timeline[target := Extend(old(nodes).timeline[target], e)])
    {
      AppendKeepsTable(nodes, home, groups, history, target, e);
      GroupsPointAtGroups(nodes.timeline, groups, target);
      AppendedIsExtend(nodes.timeline, groups, target, e);
      history := History(history.log + [e], history.targets + [target]);
      var items := nodes.timeline[target];
      nodes := nodes.(timeline := nodes.timeline[target := Appended(groups, target, items, e)]);
      groups := Regrouped(groups, target, |items|, e);
    }

    method EnsureStepNode(e: Envelope, pipeline: Key) returns (step: Option<Key>)
      requires Valid() && pipeline.Pipeline? && pipeline in nodes.children
      modifies `nodes, `home, `lastStep, `lastCandidate, `lastCandidateStep
      ensures Valid() && old(nodes.children.Keys) <= nodes.children.Keys
      ensures step == if e.step.Some? then Some(Step(e.step.value)) else None
      ensures step.Some? ==> step.value in nodes.children && lastStep == step
      ensures Memories() == RecallStep(old(Memories()), e)
      ensures home == if e.step.Some? then Placed(old(home), Step(e.step.value), Some(pipeline)) else old(home)
    {
      hide TableOk;
      if e.step == None {
        return None;
      }
      var key := Step(e.step.value);
      EnsureTreeNode(key, Some(pipeline));
      if lastStep != Some(key) || e.eventType in {"step_started", "step_completed", "step_failed"} {
        lastCandidate, lastCandidateStep := None, None;
      }
      lastStep := Some(key);
      step := Some(key);
    }

    method EnsureCandidateNode(e: Envelope, parentKey: Key) returns (candidate: Option<Key>)
      requires Valid() && parentKey in nodes.children && (e.candidate.Some? ==> parentKey.Parallel?)
      modifies `nodes, `home, `lastCandidate, `lastCandidateStep
      ensures Valid() && old(nodes.children.Keys) <= nodes.children.Keys
      ensures candidate == if e.candidate.Some? then Some(Candidate(e.candidate.value.run)) else None
      ensures candidate.Some? ==> candidate.value in nodes.children && lastCandidate == candidate
      ensures Memories() == RecallCandidate(old(Memories()), e)
      ensures home == if candidate.Some? then Placed(old(home), candidate.value, Some(parentKey)) else old(home)
    {
      hide TableOk;
      if e.candidate == None {
        return None;
      }
      var key := Candidate(e.candidate.value.run);
      EnsureTreeNode(key, Some(parentKey));
      if lastCandidate != Some(key) {
        lastCandidateStep := None;
      }
      lastCandidate := Some(key);
      candidate := Some(key);
    }

    method EnsureSkeletonSteps(candidate: Key, steps: seq<string>)
      requires Valid() && candidate.Candidate? && candidate in nodes.children
      modifies `nodes, `home
      ensures Valid() && old(nodes.children.Keys) <= nodes.children.Keys
      ensures forall i :: 0 <= i < |steps| ==> CandidateStep(steps[i]) in nodes.children
      ensures home == PlacedSteps(old(home), candidate, steps)
    {
      hide TableOk;
      for k := 0 to |steps|
        invariant Valid() && old(nodes.children.Keys) <= nodes.children.Keys
        invariant home == PlacedSteps(old(home), candidate, steps[..k])
        invariant forall i :: 0 <= i < k ==> CandidateStep(steps[i]) in nodes.children
      {
        EnsureTreeNode(CandidateStep(steps[k]), Some(candidate));
        assert steps[..k + 1][..k] == steps[..k];
      }
      assert steps[..|steps|] == steps;
    }

    method EnsureCandidateStepNode(e: Envelope, candidate: Option<Key>) returns (candidateStep: Option<Key>)
      requires Valid() && (candidate.Some? ==> candidate.value.Candidate? && candidate.value in nodes.children)
      modifies `nodes, `home, `lastCandidateStep
      ensures Valid() && old(nodes.children.Keys) <= nodes.children.Keys
      ensures candidateStep == if e.candidateStep.Some? && candidate.Some?
                then Some(CandidateStep(e.candidateStep.value)) else None
      ensures candidateStep.Some? ==> candidateStep.value in nodes.children && lastCandidateStep == candidateStep
      ensures candidateStep == None ==> lastCandidateStep == old(lastCandidateStep)
      ensures home == if candidateStep.Some? then Placed(old(home), candidateStep.value, candidate) else old(home)
    {
      hide TableOk;
      if e.candidateStep == None || candidate == None {
        return None;
      }
      var key := CandidateStep(e.candidateStep.value);
      EnsureTreeNode(key, candidate);
      lastCandidateStep := Some(key);
      candidateStep := Some(key);
    }

    /** Creates every node the envelope names, from the pipeline down. */
    method EnsureNodes(e: Envelope) returns (step: Option<Key>, candidate: Option<Key>, candidateStep: Option<Key>)
      requires Valid()
      modifies `nodes, `home, `lastStep, `lastCandidate, `lastCandidateStep
      ensures Valid() && old(nodes.children.Keys) <= nodes.children.Keys
      ensures Pipeline(e.pipeline) in nodes.children
      ensures step == if e.step.Some? then Some(Step(e.step.value)) else None
      ensures candidate == if e.candidate.Some? then Some(Candidate(e.candidate.value.run)) else None
      ensures candidateStep ==
              if e.candidateStep.Some? && e.candidate.Some? then Some(CandidateStep(e.candidateStep.value)) else None
      ensures LastKeysOk(nodes.children, step, candidate, candidateStep)
      ensures Agrees(step, lastStep) && Agrees(candidate, lastCandidate) && Agrees(candidateStep, lastCandidateStep)
      ensures Memories() == Recall(old(Memories()), e)
      ensures home == PlacedBy(old(home), e)
    {
      hide TableOk, Placed, PlacedSteps;
      var pipeline := Pipeline(e.pipeline);
      EnsureTreeNode(pipeline, None);
      step := EnsureStepNode(e, pipeline);
      var base := OrElse(step, pipeline);
      var above := base;
      if e.candidate.Some? || e.candidateStep.Some? {
        above := Parallel(base);
        EnsureTreeNode(above, Some(base));
      }
      candidate := EnsureCandidateNode(e, above);
      if candidate.Some? {
        EnsureSkeletonSteps(candidate.value, e.candidate.value.steps);
      }
      candidateStep := EnsureCandidateStepNode(e, candidate);
    }

    /** Creates every node the envelope names and appends the envelope to exactly one existing timeline. */
    method AppendExecutionTreeEvent(e: Envelope)
      requires Valid()
      modifies this
      ensures Valid()
      ensures old(nodes.children.Keys) <= nodes.children.Keys && NamedNodes(e) <= nodes.children.Keys
      ensures |history.targets| == |old(history).targets| + 1 && old(history).targets <= history.targets
      ensures history.log == old(history).log + [e]
      ensures Memories() == Recall(old(Memories()), e) && home == PlacedBy(old(home), e)
      ensures RoutedRight(e, history.targets[|history.targets| - 1])
      ensures history.targets[|history.targets| - 1] ==
              TargetKey(e, Pipeline(e.pipeline), lastStep, lastCandidate, lastCandidateStep)
    {
      hide TargetKey, RoutedRight, Forest, WellPlaced, TimelinesOk, GroupsOk, Recall, PlacedBy;
      var step, candidate, candidateStep := EnsureNodes(e);
      var pipeline := Pipeline(e.pipeline);
      assert nodes.timeline.Keys == nodes.children.Keys && NamedNodes(e) <= nodes.children.Keys;
      step := if step.Some? then step else lastStep;
      candidate := if candidate.Some? then candidate else lastCandidate;
      candidateStep := if candidateStep.Some? then candidateStep else lastCandidateStep;
      TargetIsRight(e, nodes.children, step, candidate, candidateStep);
      var target := TargetKey(e, pipeline, step, candidate, candidateStep);
      AppendTimelineItem(target, e);
    }
  }

  /** The nodes that an envelope names by its own coordinates. */
  ghost function NamedNodes(e: Envelope): set<Key> {
    {Pipeline(e.pipeline)}
    + (if e.step.Some? then {Step(e.step.value)} else {})
    + (if e.candidate.Some? then {Candidate(e.candidate.value.run)} else {})
    + (if e.candidate.Some? && e.candidateStep.Some? then {CandidateStep(e.candidateStep.value)} else {})
  }

  lemma TargetIsRight(e: Envelope, kids: Children, step: Option<Key>, candidate: Option<Key>,
                      candidateStep: Option<Key>)
    requires Pipeline(e.pipeline) in kids && LastKeysOk(kids, step, candidate, candidateStep)
    requires e.step.Some? ==> step == Some(Step(e.step.value))
    requires e.candidate.Some? && e.candidateStep.Some? ==> candidateStep == Some(CandidateStep(e.candidateStep.value))
    ensures var target := TargetKey(e, Pipeline(e.pipeline), step, candidate, candidateStep);
            target in kids && RoutedRight(e, target)
  {
    EventClasses(e.eventType);
  }

  /** The prefixes that the routing looks at exclude each other, except candidate_step_ and candidate_. */
  lemma EventClasses(s: string)
    ensures "pipeline_" <= s ==>
              !("candidate_" <= s) && !("step_" <= s) && !("interrupt_" <= s) && s != "input_received"
    ensures "step_" <= s ==> !("candidate_" <= s) && !("interrupt_" <= s)
    ensures "candidate_step_" <= s ==> "candidate_" <= s
    ensures "candidate_" <= s ==> !("interrupt_" <= s) && s != "input_received"
    ensures s in {"text_delta", "thinking_delta", "tool_result", "permission_requested", "input_required"} ==>
              !("pipeline_" <= s) && !("step_" <= s) && !("candidate_" <= s) && s != "input_received"
  {
    if "candidate_step_" <= s {
      assert "candidate_step_"[..10] == "candidate_";
      assert s[..10] == "candidate_";
    }
    assert "pipeline_"[0] == 'p' && "step_"[0] == 's' && "candidate_"[0] == 'c' && "interrupt_"[0] == 'i';
    assert "interrupt_"[2] == 't' && "input_received"[2] == 'p';
    assert "permission_requested"[1] == 'e' && "pipeline_"[1] == 'i';
  }

  /** Every envelope so far went where the log up to it says. */
  ghost predicate Routed(log: seq<Envelope>, targets: seq<Key>) {
    && |targets| == |log|
    && forall i :: 0 <= i < |log| ==> targets[i] == Target(log[..i + 1]) && RoutedRight(log[i], targets[i])
  }

  lemma RoutedNext(log: seq<Envelope>, targets: seq<Key>, e: Envelope, target: Key)
    requires Routed(log, targets) && target == Target(log + [e]) && RoutedRight(e, target)
    ensures Routed(log + [e], targets + [target])
  {
    hide Target, RoutedRight;
    var log', targets' := log + [e], targets + [target];
    forall i | 0 <= i < |log'| ensures targets'[i] == Target(log'[..i + 1]) && RoutedRight(log'[i], targets'[i]) {
      assert log'[..i + 1] == if i < |log| then log[..i + 1] else log';
    }
  }

  lemma TargetNext(log: seq<Envelope>, e: Envelope)
    ensures var m := Recall(Remembered(log), e);
            && Remembered(log + [e]) == m
            && Target(log + [e]) == TargetKey(e, Pipeline(e.pipeline), m.step, m.candidate, m.candidateStep)
  {
    hide TargetKey, Recall;
    assert (log + [e])[..|log|] == log;
  }

  /**
   Replays any sequence of envelopes: the result is a forest in which every node hangs where it was mentioned first,
   every envelope has been routed to one node, which
   depends only on the envelopes up to it, and every timeline holds exactly the envelopes routed to its node in
   maximal runs.
   */
  method Replay(envelopes: seq<Envelope>) returns (t: Table, ghost home: Homes, ghost targets: seq<Key>)
    ensures Forest(t.children, t.roots, home) && WellPlaced(home) && home == HomesOf(envelopes)
    ensures t.timeline.Keys == t.children.Keys
    ensures Routed(envelopes, targets) && forall i :: 0 <= i < |targets| ==> targets[i] in t.timeline
    ensures forall i :: 0 <= i < |targets| ==> RoutedExactly(envelopes[..i + 1], targets[i])
    ensures forall k :: k in t.timeline ==> TimelineOf(t.timeline[k], Select(envelopes, targets, k))
  {
    hide Routed, RoutedExactly, Forest, WellPlaced, Target, Remembered, Recall, RoutedRight, TargetKey, TimelineOf,
      PlacedBy;
    var tree := new Tree();
    NothingRouted();
    for n := 0 to |envelopes|
      invariant tree.Valid() && tree.history.log == envelopes[..n] && tree.Memories() == Remembered(envelopes[..n])
      invariant Routed(envelopes[..n], tree.history.targets) && tree.home == HomesOf(envelopes[..n])
    {
      ghost var before := tree.history.targets;
      TargetNext(envelopes[..n], envelopes[n]);
      tree.AppendExecutionTreeEvent(envelopes[n]);
      assert envelopes[..n + 1] == envelopes[..n] + [envelopes[n]] && envelopes[..n + 1][..n] == envelopes[..n];
      RoutedNext(envelopes[..n], before, envelopes[n], tree.history.targets[|before|]);
      assert tree.history.targets == before + [tree.history.targets[|before|]];
    }
    assert envelopes[..|envelopes|] == envelopes;
    t, home, targets := tree.nodes, tree.home, tree.history.targets;
    RoutedIsExact(envelopes, targets);
    forall k | k in t.timeline ensures TimelineOf(t.timeline[k], Select(envelopes, targets, k)) {
      assert HoldsRouted(t.timeline, envelopes, targets, k);
      RunsAreMaximal(Select(envelopes, targets, k));
    }
  }

  lemma RoutedIsExact(log: seq<Envelope>, targets: seq<Key>)
    requires Routed(log, targets)
    ensures |targets| == |log| && forall i :: 0 <= i < |targets| ==> RoutedExactly(log[..i + 1], targets[i])
  {
    hide Target, RoutedExactly, RoutedRight;
    forall i | 0 <= i < |targets| ensures RoutedExactly(log[..i + 1], targets[i]) {
      TargetIsExact(log[..i + 1]);
    }
  }

  lemma NothingRouted()
    ensures Routed([], []) && Remembered([]) == Memory(None, None, None)
  {
  }
}
