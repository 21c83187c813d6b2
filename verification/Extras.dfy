/**
 Dependency closure with growing extras (desktop/scripts/generate_release_metadata.py, `python_components`).

 A stack of names is worked off; a package is taken again whenever other packages ask for more of its extras.
 Environment markers are arbitrary functions of the extra they are evaluated for.
 */
module Extras {
  import opened Wrappers

  datatype Requirement = Requirement(name: string, extras: set<string>, marker: Option<string -> bool>)

  datatype Distribution = Distribution(purl: string, licensed: bool, requirements: seq<Requirement>)

  datatype Error = NotInstalled(name: string) | NoLicense(name: string)

  type ExtrasMap = map<string, set<string>>

  datatype Work = Work(active: ExtrasMap, queue: seq<string>, processed: ExtrasMap)

  // ---------- specification: maps closed under active requirements ----------

  /**
   A requirement without marker always applies; otherwise some requested extra, or "" if there is none, must satisfy
   it.
   */
  predicate Applies(r: Requirement, extras: set<string>) {
    r.marker == None
    || (if extras == {} then r.marker.value("") else exists e :: e in extras && r.marker.value(e))
  }

  ghost predicate Includes(m: ExtrasMap, r: Requirement) {
    r.name in m && r.extras <= m[r.name]
  }

  ghost predicate ClosedAt(d: Distribution, extras: set<string>, m: ExtrasMap) {
    forall i :: 0 <= i < |d.requirements| && Applies(d.requirements[i], extras) ==> Includes(m, d.requirements[i])
  }

  /** Closure spelled out: a marker is asked for every requested extra, and for "" when none is requested. */
  lemma ClosedAtMeans(d: Distribution, extras: set<string>, m: ExtrasMap)
    ensures ClosedAt(d, extras, m) <==>
            forall r :: r in d.requirements
                        && (r.marker == None
                            || (exists e :: (e in extras || (e == "" && extras == {})) && r.marker.value(e)))
              ==> r.name in m && r.extras <= m[r.name]
  {
    if ClosedAt(d, extras, m) {
      forall r | r in d.requirements
                 && (r.marker == None
                     || (exists e :: (e in extras || (e == "" && extras == {})) && r.marker.value(e)))
        ensures r.name in m && r.extras <= m[r.name]
      {
        var i :| 0 <= i < |d.requirements| && d.requirements[i] == r;
        assert Applies(d.requirements[i], extras);
      }
    }
  }

  ghost predicate Closed(seeds: seq<Requirement>, dists: map<string, Distribution>, m: ExtrasMap) {
    && (forall i :: 0 <= i < |seeds| ==> Includes(m, seeds[i]))
    && (forall n :: n in m && n in dists ==> ClosedAt(dists[n], m[n], m))
  }

  ghost predicate Below(a: ExtrasMap, m: ExtrasMap) {
    forall n :: n in a ==> n in m && a[n] <= m[n]
  }

  ghost predicate Least(seeds: seq<Requirement>, dists: map<string, Distribution>, a: ExtrasMap) {
    forall m :: Closed(seeds, dists, m) ==> Below(a, m)
  }

  ghost predicate Shippable(dists: map<string, Distribution>, name: string) {
    name in dists && dists[name].licensed
  }

  ghost predicate AllShippable(dists: map<string, Distribution>, m: ExtrasMap) {
    forall n :: n in m ==> Shippable(dists, n)
  }

  /** A marker that holds without extras holds with every extra. */
  ghost predicate Persistent(r: Requirement) {
    r.marker.Some? && r.marker.value("") ==> forall e :: r.marker.value(e)
  }

  ghost predicate AllPersistent(dists: map<string, Distribution>) {
    forall n, i :: n in dists && 0 <= i < |dists[n].requirements| ==> Persistent(dists[n].requirements[i])
  }

  /** Persistence is exactly what makes a requirement's applicability monotone in the requested extras. */
  lemma PersistentIffMonotone(r: Requirement)
    ensures Persistent(r) <==> forall a: set<string>, b: set<string> :: a <= b && Applies(r, a) ==> Applies(r, b)
  {
    if r.marker.Some? && r.marker.value("") && !Persistent(r) {
      var e :| !r.marker.value(e);
      assert Applies(r, {}) && !Applies(r, {e}) && {} <= {e};
    } else {
      forall a: set<string>, b: set<string> | a <= b && Applies(r, a) ensures Applies(r, b) {
        if r.marker.Some? && a == {} && b != {} {
          var e :| e in b;
          assert r.marker.value(e);
        }
      }
    }
  }

  lemma LeastIsUnique(seeds: seq<Requirement>, dists: map<string, Distribution>, a: ExtrasMap, b: ExtrasMap)
    requires Closed(seeds, dists, a) && Least(seeds, dists, a)
    requires Closed(seeds, dists, b) && Least(seeds, dists, b)
    ensures a == b
  {
    assert Below(a, b) && Below(b, a);
    assert forall n :: n in a ==> a[n] == b[n];
  }

  // ---------- the worklist ----------

  function Get(m: ExtrasMap, name: string): set<string> {
    if name in m then m[name] else {}
  }

  /** Adds a requirement's extras and queues the package if it is new or has grown. */
  function Absorb(w: Work, r: Requirement): Work {
    var before := Get(w.active, r.name);
    var after := before + r.extras;
    w.(active := w.active[r.name := after],
       queue := if r.name !in w.processed || before != after then w.queue + [r.name] else w.queue)
  }

  function AbsorbAll(w: Work, requirements: seq<Requirement>, extras: set<string>): Work
    decreases |requirements|
  {
    if requirements == [] then w
    else
      var r := requirements[0];
      AbsorbAll(if Applies(r, extras) then Absorb(w, r) else w, requirements[1..], extras)
  }

  /** Takes the last queued name; an unchanged package is skipped. */
  function Step(dists: map<string, Distribution>, w: Work): Result<Work, Error>
    requires w.queue != []
  {
    var name := w.queue[|w.queue| - 1];
    var popped := w.(queue := w.queue[..|w.queue| - 1]);
    var extras := Get(w.active, name);
    if name in w.processed && w.processed[name] == extras then Ok(popped)
    else if name !in dists then Err(NotInstalled(name))
    else if !dists[name].licensed then Err(NoLicense(name))
    else Ok(AbsorbAll(popped.(processed := w.processed[name := extras]), dists[name].requirements, extras))
  }

  function Seeded(w: Work, seeds: seq<Requirement>): Work
    decreases |seeds|
  {
    if seeds == [] then w
    else
      var r := seeds[0];
      Seeded(w.(active := w.active[r.name := Get(w.active, r.name) + r.extras], queue := w.queue + [r.name]),
        seeds[1..])
  }

  const EMPTY := Work(map[], [], map[])

  // ---------- invariant ----------

  ghost predicate Queued(w: Work) {
    && (forall n :: n in w.active && n !in w.queue ==> n in w.processed && w.processed[n] == w.active[n])
    && (forall n :: n in w.queue ==> n in w.active)
    && Below(w.processed, w.active)
  }

  ghost predicate Handled(dists: map<string, Distribution>, w: Work) {
    forall n :: n in w.processed ==> Shippable(dists, n) && ClosedAt(dists[n], w.processed[n], w.active)
  }

  lemma {:induction false} AbsorbAllGrows(w: Work, requirements: seq<Requirement>, extras: set<string>)
    requires Queued(w)
    ensures var v := AbsorbAll(w, requirements, extras);
            && Queued(v) && v.processed == w.processed && Below(w.active, v.active)
            && forall i :: 0 <= i < |requirements| && Applies(requirements[i], extras) ==>
              Includes(v.active, requirements[i])
    decreases |requirements|
  {
    if requirements != [] {
      var r := requirements[0];
      var next := if Applies(r, extras) then Absorb(w, r) else w;
      AbsorbAllGrows(next, requirements[1..], extras);
      var v := AbsorbAll(w, requirements, extras);
      forall i | 0 <= i < |requirements| && Applies(requirements[i], extras)
        ensures Includes(v.active, requirements[i])
      {
        if i > 0 { assert requirements[1..][i - 1] == requirements[i]; }
      }
    }
  }

  /** Whatever is absorbed is required by every closed map that already bounds the work. */
  lemma {:induction false} AbsorbAllBelow(w: Work, requirements: seq<Requirement>, extras: set<string>, m: ExtrasMap)
    requires Below(w.active, m)
    requires forall i :: 0 <= i < |requirements| && Applies(requirements[i], extras) ==> Includes(m, requirements[i])
    ensures Below(AbsorbAll(w, requirements, extras).active, m)
    decreases |requirements|
  {
    if requirements != [] {
      var r := requirements[0];
      forall i | 0 <= i < |requirements[1..]| && Applies(requirements[1..][i], extras)
        ensures Includes(m, requirements[1..][i])
      {
        assert requirements[1..][i] == requirements[i + 1];
      }
      AbsorbAllBelow(if Applies(r, extras) then Absorb(w, r) else w, requirements[1..], extras, m);
    }
  }

  lemma StepKeeps(dists: map<string, Distribution>, w: Work)
    requires w.queue != [] && Queued(w) && Handled(dists, w)
    requires Step(dists, w).Ok?
    ensures var v := Step(dists, w).value;
            Queued(v) && Handled(dists, v) && Below(w.active, v.active)
  {
    var name := w.queue[|w.queue| - 1];
    assert w.queue == w.queue[..|w.queue| - 1] + [name];
    var extras := Get(w.active, name);
    if !(name in w.processed && w.processed[name] == extras) {
      var start := Work(w.active, w.queue[..|w.queue| - 1], w.processed[name := extras]);
      AbsorbAllGrows(start, dists[name].requirements, extras);
      var v := Step(dists, w).value;
      assert v == AbsorbAll(start, dists[name].requirements, extras);
      forall n | n in v.processed ensures Shippable(dists, n) && ClosedAt(dists[n], v.processed[n], v.active) {
        if n != name {
          assert ClosedAt(dists[n], w.processed[n], w.active);
        }
      }
    }
  }

  lemma StepKeepsLeast(seeds: seq<Requirement>, dists: map<string, Distribution>, w: Work)
    requires w.queue != [] && Queued(w) && AllPersistent(dists) && Least(seeds, dists, w.active)
    ensures Step(dists, w).Ok? ==> Least(seeds, dists, Step(dists, w).value.active)
    ensures Step(dists, w).Err? ==>
              !Shippable(dists, Step(dists, w).error.name)
              && forall m :: Closed(seeds, dists, m) ==> Step(dists, w).error.name in m
  {
    var name := w.queue[|w.queue| - 1];
    assert name in w.queue && name in w.active;
    var extras := w.active[name];
    forall m | Closed(seeds, dists, m)
      ensures name in m && (Step(dists, w).Ok? ==> Below(Step(dists, w).value.active, m))
    {
      assert Below(w.active, m);
      if Step(dists, w).Ok? && !(name in w.processed && w.processed[name] == extras) {
        var rs := dists[name].requirements;
        forall i | 0 <= i < |rs| && Applies(rs[i], extras) ensures Includes(m, rs[i]) {
          PersistentIffMonotone(rs[i]);
          assert ClosedAt(dists[name], m[name], m);
        }
        AbsorbAllBelow(Work(w.active, w.queue[..|w.queue| - 1], w.processed[name := extras]), rs, extras, m);
      }
    }
  }

  // ---------- termination ----------

  ghost function AllNames(seeds: seq<Requirement>, dists: map<string, Distribution>): set<string> {
    (set i | 0 <= i < |seeds| :: seeds[i].name)
    + (set d, i | d in dists && 0 <= i < |dists[d].requirements| :: dists[d].requirements[i].name)
  }

  ghost function AllExtras(seeds: seq<Requirement>, dists: map<string, Distribution>): set<string> {
    (set i, e | 0 <= i < |seeds| && e in seeds[i].extras :: e)
    + (set d, i, e | d in dists && 0 <= i < |dists[d].requirements| && e in dists[d].requirements[i].extras :: e)
  }

  ghost function Pairs(m: ExtrasMap): set<(string, string)> {
    set n, e | n in m && e in m[n] :: (n, e)
  }

  ghost function AllPairs(names: set<string>, extras: set<string>): set<(string, string)> {
    set n, e | n in names && e in extras :: (n, e)
  }

  ghost predicate Bounded(names: set<string>, extras: set<string>, w: Work) {
    forall n :: n in w.active ==> n in names && w.active[n] <= extras
  }

  lemma {:induction false} AbsorbAllBounded(names: set<string>, extras: set<string>, w: Work, rs: seq<Requirement>,
                                            requested: set<string>)
    requires Bounded(names, extras, w)
    requires forall i :: 0 <= i < |rs| ==> rs[i].name in names && rs[i].extras <= extras
    ensures Bounded(names, extras, AbsorbAll(w, rs, requested))
    decreases |rs|
  {
    if rs != [] {
      assert forall i :: 0 <= i < |rs[1..]| ==> rs[1..][i] == rs[i + 1];
      AbsorbAllBounded(names, extras, if Applies(rs[0], requested) then Absorb(w, rs[0]) else w, rs[1..], requested);
    }
  }

  ghost function UntakenNames(seeds: seq<Requirement>, dists: map<string, Distribution>, w: Work): set<string> {
    AllNames(seeds, dists) - w.processed.Keys
  }

  ghost function UntakenPairs(seeds: seq<Requirement>, dists: map<string, Distribution>, w: Work)
    : set<(string, string)>
  {
    AllPairs(AllNames(seeds, dists), AllExtras(seeds, dists)) - Pairs(w.processed)
  }

  lemma StepBounded(seeds: seq<Requirement>, dists: map<string, Distribution>, w: Work)
    requires w.queue != [] && Queued(w) && Step(dists, w).Ok?
    requires Bounded(AllNames(seeds, dists), AllExtras(seeds, dists), w)
    ensures Bounded(AllNames(seeds, dists), AllExtras(seeds, dists), Step(dists, w).value)
  {
    var name := w.queue[|w.queue| - 1];
    assert name in w.queue && name in w.active;
    var requested := w.active[name];
    if !(name in w.processed && w.processed[name] == requested) {
      AbsorbAllBounded(AllNames(seeds, dists), AllExtras(seeds, dists),
                       Work(w.active, w.queue[..|w.queue| - 1], w.processed[name := requested]),
                       dists[name].requirements, requested);
    }
  }

  /** What a step takes and what it leaves, without the details of the queue. */
  lemma StepProcessed(dists: map<string, Distribution>, w: Work)
    requires w.queue != [] && Queued(w) && Step(dists, w).Ok?
    ensures var name := w.queue[|w.queue| - 1];
            if name in w.processed && w.processed[name] == Get(w.active, name)
            then Step(dists, w).value.processed == w.processed
            else name in dists && Step(dists, w).value.processed == w.processed[name := Get(w.active, name)]
  {
    var name := w.queue[|w.queue| - 1];
    assert w.queue == w.queue[..|w.queue| - 1] + [name];
    assert name in w.queue && name in w.active;
    var requested := w.active[name];
    if !(name in w.processed && w.processed[name] == requested) {
      AbsorbAllGrows(Work(w.active, w.queue[..|w.queue| - 1], w.processed[name := requested]),
                     dists[name].requirements, requested);
    }
  }

  /** A step takes a name with extras it was not taken with before, or shortens the queue. */
  lemma StepTakes(dists: map<string, Distribution>, w: Work)
    requires w.queue != [] && Queued(w) && Step(dists, w).Ok?
    ensures var name, v := w.queue[|w.queue| - 1], Step(dists, w).value;
            && name in w.active
            && (|| (v.processed == w.processed && |v.queue| < |w.queue|)
                || (&& v.processed == w.processed[name := w.active[name]]
                    && (name in w.processed ==> w.processed[name] < w.active[name])))
  {
    StepProcessed(dists, w);
    assert w.queue[|w.queue| - 1] in w.queue;
  }

  /** Untaken names, then untaken name/extra pairs, then the queue length shrink at every step. */
  lemma StepDecreases(seeds: seq<Requirement>, dists: map<string, Distribution>, w: Work)
    requires w.queue != [] && Queued(w) && Step(dists, w).Ok?
    requires Bounded(AllNames(seeds, dists), AllExtras(seeds, dists), w)
    ensures var v := Step(dists, w).value;
            || UntakenNames(seeds, dists, v) < UntakenNames(seeds, dists, w)
            || (&& UntakenNames(seeds, dists, v) == UntakenNames(seeds, dists, w)
                && (|| UntakenPairs(seeds, dists, v) < UntakenPairs(seeds, dists, w)
                    || (UntakenPairs(seeds, dists, v) == UntakenPairs(seeds, dists, w) && |v.queue| < |w.queue|)))
  {
    StepTakes(dists, w);
    var name, v := w.queue[|w.queue| - 1], Step(dists, w).value;
    if v.processed != w.processed {
      if name in w.processed {
        var e :| e in w.active[name] && e !in w.processed[name];
        assert v.processed.Keys == w.processed.Keys;
        assert (name, e) in UntakenPairs(seeds, dists, w) && (name, e) !in UntakenPairs(seeds, dists, v);
      } else {
        assert name in UntakenNames(seeds, dists, w) && name !in UntakenNames(seeds, dists, v);
      }
    }
  }

  lemma {:induction false} SeededInv(seeds: seq<Requirement>, dists: map<string, Distribution>, w: Work, k: nat)
    requires k <= |seeds| && w.processed == map[]
    requires Queued(w) && Bounded(AllNames(seeds, dists), AllExtras(seeds, dists), w) && Least(seeds, dists, w.active)
    requires forall i :: 0 <= i < k ==> Includes(w.active, seeds[i])
    ensures var v := Seeded(w, seeds[k..]);
            && Queued(v) && Bounded(AllNames(seeds, dists), AllExtras(seeds, dists), v)
            && Least(seeds, dists, v.active) && v.processed == map[]
            && forall i :: 0 <= i < |seeds| ==> Includes(v.active, seeds[i])
    decreases |seeds| - k
  {
    if k < |seeds| {
      var r := seeds[k];
      var next := w.(active := w.active[r.name := Get(w.active, r.name) + r.extras], queue := w.queue + [r.name]);
      assert seeds[k..][1..] == seeds[k + 1..];
      SeededInv(seeds, dists, next, k + 1);
    }
  }

  // ---------- the whole computation ----------

  method SeedQueue(seeds: seq<Requirement>) returns (w: Work)
    ensures w == Seeded(EMPTY, seeds)
  {
    w := EMPTY;
    for k := 0 to |seeds|
      invariant Seeded(w, seeds[k..]) == Seeded(EMPTY, seeds)
    {
      var r := seeds[k];
      assert seeds[k..][1..] == seeds[k + 1..];
      w := w.(active := w.active[r.name := Get(w.active, r.name) + r.extras], queue := w.queue + [r.name]);
    }
  }

  method AbsorbRequirements(start: Work, requirements: seq<Requirement>, extras: set<string>) returns (w: Work)
    ensures w == AbsorbAll(start, requirements, extras)
  {
    w := start;
    for k := 0 to |requirements|
      invariant AbsorbAll(w, requirements[k..], extras) == AbsorbAll(start, requirements, extras)
    {
      assert requirements[k..][1..] == requirements[k + 1..];
      if Applies(requirements[k], extras) {
        w := Absorb(w, requirements[k]);
      }
    }
  }

  ghost predicate ComponentsExact(dists: map<string, Distribution>, processed: ExtrasMap,
                                  components: map<string, Distribution>) {
    && (forall n :: n in processed ==> n in dists && dists[n].purl in components)
    && (forall p :: p in components ==>
          exists n :: n in processed && n in dists && dists[n] == components[p] && dists[n].purl == p)
  }

  /** What every run keeps, in whatever order it works. */
  ghost predicate Sound(seeds: seq<Requirement>, dists: map<string, Distribution>, w: Work) {
    && Queued(w) && Handled(dists, w)
    && (forall i :: 0 <= i < |seeds| ==> Includes(w.active, seeds[i]))
    && (AllPersistent(dists) ==> Least(seeds, dists, w.active))
  }

  /** A step keeps all that; a failing one names a package that cannot be shipped and that every closed map needs. */
  lemma SoundStep(seeds: seq<Requirement>, dists: map<string, Distribution>, w: Work)
    requires w.queue != [] && Sound(seeds, dists, w)
    ensures Step(dists, w).Ok? ==> Sound(seeds, dists, Step(dists, w).value)
    ensures Step(dists, w).Err? ==> !Shippable(dists, Step(dists, w).error.name)
    ensures Step(dists, w).Err? && AllPersistent(dists) ==>
              forall m :: Closed(seeds, dists, m) ==> Step(dists, w).error.name in m
  {
    hide Queued, Handled, Least, AllPersistent, Closed;
    if Step(dists, w).Ok? {
      StepKeeps(dists, w);
      if AllPersistent(dists) { StepKeepsLeast(seeds, dists, w); }
    } else if AllPersistent(dists) {
      StepKeepsLeast(seeds, dists, w);
    }
  }

  ghost predicate LoopInv(seeds: seq<Requirement>, dists: map<string, Distribution>, w: Work,
                          components: map<string, Distribution>) {
    && Sound(seeds, dists, w)
    && Bounded(AllNames(seeds, dists), AllExtras(seeds, dists), w)
    && ComponentsExact(dists, w.processed, components)
  }

  lemma SeededLoop(seeds: seq<Requirement>, dists: map<string, Distribution>)
    ensures LoopInv(seeds, dists, Seeded(EMPTY, seeds), map[])
  {
    assert seeds[0..] == seeds;
    SeededInv(seeds, dists, EMPTY, 0);
  }

  lemma EmptyQueueIsClosed(seeds: seq<Requirement>, dists: map<string, Distribution>, w: Work)
    requires w.queue == [] && Queued(w) && Handled(dists, w)
    requires forall i :: 0 <= i < |seeds| ==> Includes(w.active, seeds[i])
    ensures w.processed == w.active && Closed(seeds, dists, w.active) && AllShippable(dists, w.active)
  {
    assert w.processed == w.active;
  }

  /** A package is recorded whenever a step takes it, not when it is skipped. */
  function Record(dists: map<string, Distribution>, w: Work, components: map<string, Distribution>)
    : map<string, Distribution>
    requires w.queue != []
  {
    var name := w.queue[|w.queue| - 1];
    if name !in dists || (name in w.processed && w.processed[name] == Get(w.active, name)) then components
    else components[dists[name].purl := dists[name]]
  }

  lemma ComponentsGrow(dists: map<string, Distribution>, processed: ExtrasMap, components: map<string, Distribution>,
                       name: string, extras: set<string>)
    requires ComponentsExact(dists, processed, components) && name in dists
    ensures ComponentsExact(dists, processed[name := extras], components[dists[name].purl := dists[name]])
  {
    var processed', after := processed[name := extras], components[dists[name].purl := dists[name]];
    forall p | p in after
      ensures exists n :: n in processed' && n in dists && dists[n] == after[p] && dists[n].purl == p
    {
      if p == dists[name].purl {
        assert name in processed';
      } else {
        var n :| n in processed && n in dists && dists[n] == components[p] && dists[n].purl == p;
        assert n in processed';
      }
    }
  }

  lemma StepComponents(dists: map<string, Distribution>, w: Work, components: map<string, Distribution>)
    requires w.queue != [] && Queued(w) && Step(dists, w).Ok? && ComponentsExact(dists, w.processed, components)
    ensures ComponentsExact(dists, Step(dists, w).value.processed, Record(dists, w, components))
  {
    hide Step, Queued, ComponentsExact;
    StepProcessed(dists, w);
    var name := w.queue[|w.queue| - 1];
    if !(name in w.processed && w.processed[name] == Get(w.active, name)) {
      ComponentsGrow(dists, w.processed, components, name, Get(w.active, name));
    }
  }

  lemma StepLoop(seeds: seq<Requirement>, dists: map<string, Distribution>, w: Work,
                 components: map<string, Distribution>)
    requires w.queue != [] && LoopInv(seeds, dists, w, components) && Step(dists, w).Ok?
    ensures LoopInv(seeds, dists, Step(dists, w).value, Record(dists, w, components))
  {
    hide Step, Handled, Least, AllPersistent, Closed, Bounded, ComponentsExact, Record;
    SoundStep(seeds, dists, w);
    StepBounded(seeds, dists, w);
    StepComponents(dists, w, components);
  }

  /** One turn of the loop, as the source performs it. */
  method Turn(dists: map<string, Distribution>, w: Work, components: map<string, Distribution>)
    returns (r: Result<Work, Error>, components': map<string, Distribution>)
    requires w.queue != []
    ensures r == Step(dists, w)
    ensures r.Ok? ==> components' == Record(dists, w, components)
  {
    components' := components;
    var name := w.queue[|w.queue| - 1];
    var popped := w.(queue := w.queue[..|w.queue| - 1]);
    var extras := Get(w.active, name);
    if name in w.processed && w.processed[name] == extras {
      return Ok(popped), components';
    }
    popped := popped.(processed := w.processed[name := extras]);
    if name !in dists {
      return Err(NotInstalled(name)), components';
    }
    if !dists[name].licensed {
      return Err(NoLicense(name)), components';
    }
    components' := components[dists[name].purl := dists[name]];
    var absorbed := AbsorbRequirements(popped, dists[name].requirements, extras);
    r := Ok(absorbed);
  }

  /** A failure names a package that cannot be shipped, by the error that fits, and no closed map does without it. */
  lemma FailedStep(seeds: seq<Requirement>, dists: map<string, Distribution>, w: Work)
    requires w.queue != [] && Sound(seeds, dists, w) && Step(dists, w).Err?
    ensures var e := Step(dists, w).error;
            && !Shippable(dists, e.name) && (e.NotInstalled? <==> e.name !in dists)
            && (AllPersistent(dists) ==>
                  && (forall m :: Closed(seeds, dists, m) ==> e.name in m)
                  && !exists m :: Closed(seeds, dists, m) && AllShippable(dists, m))
  {
    hide AllPersistent, Closed, Sound;
    SoundStep(seeds, dists, w);
  }

  /**
   Terminates on every dependency graph, cyclic ones included. The final map is always closed; with persistent
   markers it is the least closed map, and the run fails exactly when every closed map names a package that is
   not installed or has no licence evidence.
   */
  method PythonComponents(seeds: seq<Requirement>, dists: map<string, Distribution>)
    returns (r: Result<map<string, Distribution>, Error>, extras: ExtrasMap)
    ensures r.Ok? ==> Closed(seeds, dists, extras) && AllShippable(dists, extras)
    ensures r.Ok? ==> ComponentsExact(dists, extras, r.value)
    ensures r.Err? ==> !Shippable(dists, r.error.name)
    ensures r.Err? ==> (r.error.NotInstalled? <==> r.error.name !in dists)
    ensures AllPersistent(dists) && r.Ok? ==> Least(seeds, dists, extras)
    ensures AllPersistent(dists) ==> (r.Ok? <==> exists m :: Closed(seeds, dists, m) && AllShippable(dists, m))
    ensures AllPersistent(dists) && r.Err? ==> forall m :: Closed(seeds, dists, m) ==> r.error.name in m
  {
    hide Step, UntakenNames, UntakenPairs, ComponentsExact, Closed, Least, AllPersistent, AllShippable;
    var w := SeedQueue(seeds);
    var components: map<string, Distribution> := map[];
    SeededLoop(seeds, dists);
    while w.queue != []
      invariant LoopInv(seeds, dists, w, components)
      decreases UntakenNames(seeds, dists, w), UntakenPairs(seeds, dists, w), |w.queue|
    {
      if Step(dists, w).Ok? {
        StepLoop(seeds, dists, w, components);
        StepDecreases(seeds, dists, w);
      } else {
        FailedStep(seeds, dists, w);
      }
      var turn;
      turn, components := Turn(dists, w, components);
      if turn.Err? {
        return Err(turn.error), w.active;
      }
      w := turn.value;
    }
    EmptyQueueIsClosed(seeds, dists, w);
    r, extras := Ok(components), w.active;
  }

  // ---------- any order of work ----------

  /** The work with the name at position `i` moved to where it is taken next. */
  function Picked(w: Work, i: nat): Work
    requires i < |w.queue|
  {
    w.(queue := w.queue[..i] + w.queue[i + 1..] + [w.queue[i]])
  }

  /**
   A run that takes, at every turn, whichever queued name `picks` says; it goes on until the picks or the queue are
   used up.
   */
  function AnyRun(dists: map<string, Distribution>, w: Work, picks: seq<nat>): Result<Work, Error>
    decreases |picks|
  {
    if picks == [] || w.queue == [] then Ok(w)
    else
      match Step(dists, Picked(w, picks[0] % |w.queue|))
      case Err(e) => Err(e)
      case Ok(v) => AnyRun(dists, v, picks[1..])
  }

  lemma {:induction false} AnyRunIsSound(seeds: seq<Requirement>, dists: map<string, Distribution>, w: Work,
                                         picks: seq<nat>)
    requires Sound(seeds, dists, w)
    ensures var r := AnyRun(dists, w, picks);
            && (r.Ok? ==> Sound(seeds, dists, r.value))
            && (r.Err? ==> !Shippable(dists, r.error.name))
            && (r.Err? && AllPersistent(dists) ==> forall m :: Closed(seeds, dists, m) ==> r.error.name in m)
    decreases |picks|
  {
    if picks != [] && w.queue != [] {
      hide Step, Queued, Handled, Least, AllPersistent, Closed;
      var i := picks[0] % |w.queue|;
      PickedIsSound(seeds, dists, w, i);
      SoundStep(seeds, dists, Picked(w, i));
      if Step(dists, Picked(w, i)).Ok? {
        AnyRunIsSound(seeds, dists, Step(dists, Picked(w, i)).value, picks[1..]);
      }
    }
  }

  lemma PickedIsSound(seeds: seq<Requirement>, dists: map<string, Distribution>, w: Work, i: nat)
    requires Sound(seeds, dists, w) && i < |w.queue|
    ensures Sound(seeds, dists, Picked(w, i))
  {
  }

  /** Two lists with the same elements, in any order and number. */
  ghost predicate SameElements(a: seq<Requirement>, b: seq<Requirement>) {
    forall r :: r in a <==> r in b
  }

  /** The same packages, with their requirements listed in any order. */
  ghost predicate SamePackages(a: map<string, Distribution>, b: map<string, Distribution>) {
    && a.Keys == b.Keys
    && (forall n :: n in a ==>
          a[n].licensed == b[n].licensed && a[n].purl == b[n].purl
            && SameElements(a[n].requirements, b[n].requirements))
  }

  lemma ClosedAtInAnyOrder(d: Distribution, d': Distribution, extras: set<string>, m: ExtrasMap)
    requires SameElements(d.requirements, d'.requirements) && ClosedAt(d, extras, m)
    ensures ClosedAt(d', extras, m)
  {
    forall i | 0 <= i < |d'.requirements| && Applies(d'.requirements[i], extras)
      ensures Includes(m, d'.requirements[i])
    {
      assert d'.requirements[i] in d.requirements;
      var j :| 0 <= j < |d.requirements| && d.requirements[j] == d'.requirements[i];
    }
  }

  lemma ClosedInAnyOrder(seeds: seq<Requirement>, seeds': seq<Requirement>,
                         dists: map<string, Distribution>, dists': map<string, Distribution>, m: ExtrasMap)
    requires SameElements(seeds, seeds') && SamePackages(dists, dists') && Closed(seeds, dists, m)
    ensures Closed(seeds', dists', m)
  {
    forall i | 0 <= i < |seeds'| ensures Includes(m, seeds'[i]) {
      assert seeds'[i] in seeds;
      var j :| 0 <= j < |seeds| && seeds[j] == seeds'[i];
    }
    forall n | n in m && n in dists' ensures ClosedAt(dists'[n], m[n], m) {
      ClosedAtInAnyOrder(dists[n], dists'[n], m[n], m);
    }
  }

  lemma PersistentInAnyOrder(dists: map<string, Distribution>, dists': map<string, Distribution>)
    requires SamePackages(dists, dists') && AllPersistent(dists)
    ensures AllPersistent(dists')
  {
    forall n, i | n in dists' && 0 <= i < |dists'[n].requirements| ensures Persistent(dists'[n].requirements[i]) {
      assert dists'[n].requirements[i] in dists[n].requirements;
      var j :| 0 <= j < |dists[n].requirements| && dists[n].requirements[j] == dists'[n].requirements[i];
    }
  }

  /**
   With persistent markers neither the order in which queued names are taken nor the order of the seeds and of the
   requirements matters: runs that end give the same map, and none fails where another one succeeds.
   */
  lemma OrderIsIrrelevant(seeds: seq<Requirement>, seeds': seq<Requirement>, dists: map<string, Distribution>,
                          dists': map<string, Distribution>, picks: seq<nat>, picks': seq<nat>)
    requires SameElements(seeds, seeds') && SamePackages(dists, dists') && AllPersistent(dists)
    ensures var r, r' := AnyRun(dists, Seeded(EMPTY, seeds), picks), AnyRun(dists', Seeded(EMPTY, seeds'), picks');
            r.Ok? && r.value.queue == [] ==>
              r'.Ok? && (r'.value.queue == [] ==> r'.value.active == r.value.active)
  {
    hide AnyRun, Seeded, Queued, Handled, Closed, Least, AllPersistent;
    SeededLoop(seeds, dists);
    SeededLoop(seeds', dists');
    PersistentInAnyOrder(dists, dists');
    AnyRunIsSound(seeds, dists, Seeded(EMPTY, seeds), picks);
    AnyRunIsSound(seeds', dists', Seeded(EMPTY, seeds'), picks');
    var r, r' := AnyRun(dists, Seeded(EMPTY, seeds), picks), AnyRun(dists', Seeded(EMPTY, seeds'), picks');
    if r.Ok? && r.value.queue == [] {
      EmptyQueueIsClosed(seeds, dists, r.value);
      ClosedInAnyOrder(seeds, seeds', dists, dists', r.value.active);
      if r'.Ok? && r'.value.queue == [] {
        EmptyQueueIsClosed(seeds', dists', r'.value);
        ClosedInAnyOrder(seeds', seeds, dists', dists, r'.value.active);
        LeastInAnyOrder(seeds, seeds', dists, dists', r.value.active);
        LeastIsUnique(seeds', dists', r.value.active, r'.value.active);
      }
    }
  }

  lemma LeastInAnyOrder(seeds: seq<Requirement>, seeds': seq<Requirement>,
                        dists: map<string, Distribution>, dists': map<string, Distribution>, a: ExtrasMap)
    requires SameElements(seeds, seeds') && SamePackages(dists, dists') && Least(seeds, dists, a)
    ensures Least(seeds', dists', a)
  {
    forall m | Closed(seeds', dists', m) ensures Below(a, m) {
      ClosedInAnyOrder(seeds', seeds, dists', dists, m);
    }
  }

  // ---------- persistence is exactly what guarantees the least map ----------

  function Start(host: string): seq<Requirement> {
    [Requirement(host, {}, None)]
  }

  /** `host` asks for its own extra `e` and has the requirement `r`, whose package asks for nothing. */
  function Hosting(host: string, e: string, r: Requirement): map<string, Distribution> {
    map[host := Distribution(host, true, [Requirement(host, {e}, None), r]),
        r.name := Distribution(r.name, true, [])]
  }

  function Settled(host: string, e: string, r: Requirement): ExtrasMap {
    map[host := {e}, r.name := r.extras]
  }

  /** `r` applies without extras and no longer once `e` is requested. */
  ghost predicate Retracts(host: string, e: string, r: Requirement) {
    host != r.name && r.marker.Some? && r.marker.value("") && !r.marker.value(e)
  }

  /** `host` is taken without extras: its own extra is noted, and `r` applies. */
  lemma FirstTurn(host: string, e: string, r: Requirement)
    requires Retracts(host, e, r)
    ensures Step(Hosting(host, e, r), Work(map[host := {}], [host], map[])) ==
            Ok(Work(Settled(host, e, r), [host, r.name], map[host := {}]))
  {
    var self, taken := Requirement(host, {e}, None), Work(map[host := {}], [], map[host := {}]);
    AbsorbTwo(taken, self, r, {});
    assert Absorb(taken, self) == Work(map[host := {e}], [host], taken.processed) by {
      assert {} + {e} == {e} && [] + [host] == [host];
    }
    assert Absorb(Absorb(taken, self), r) == Work(Settled(host, e, r), [host, r.name], taken.processed) by {
      assert Get(Absorb(taken, self).active, r.name) + r.extras == r.extras;
      assert [host] + [r.name] == [host, r.name];
    }
    assert [host][..0] == [];
  }

  lemma SecondTurn(host: string, e: string, r: Requirement)
    requires Retracts(host, e, r)
    ensures Step(Hosting(host, e, r), Work(Settled(host, e, r), [host, r.name], map[host := {}])) ==
            Ok(Work(Settled(host, e, r), [host], map[host := {}, r.name := r.extras]))
  {
    assert [host, r.name][..1] == [host];
    assert map[host := {}][r.name := r.extras] == map[host := {}, r.name := r.extras];
  }

  /** `host` is taken again with its extra: nothing new is asked for, and `r` no longer applies. */
  lemma ThirdTurn(host: string, e: string, r: Requirement)
    requires Retracts(host, e, r)
    ensures Step(Hosting(host, e, r), Work(Settled(host, e, r), [host], map[host := {}, r.name := r.extras])) ==
            Ok(Work(Settled(host, e, r), [], Settled(host, e, r)))
  {
    var self, final := Requirement(host, {e}, None), Settled(host, e, r);
    var taken := Work(final, [], final);
    AbsorbTwo(taken, self, r, {e});
    assert Absorb(taken, self) == taken by { assert {e} + {e} == {e} && final[host := {e}] == final; }
    assert !Applies(r, {e}) && [host][..0] == [];
    assert map[host := {}, r.name := r.extras][host := {e}] == final;
  }

  /** Taking the last name, as the source does, needs no rearranging. */
  lemma {:induction false} PickLast(dists: map<string, Distribution>, w: Work, v: Work, picks: seq<nat>)
    requires w.queue != [] && picks != [] && picks[0] == |w.queue| - 1 && Step(dists, w) == Ok(v)
    ensures AnyRun(dists, w, picks) == AnyRun(dists, v, picks[1..])
  {
    hide Step;
    SmallModulo(picks[0], |w.queue|);
    LastIsLast(w);
  }

  lemma SmallModulo(x: nat, n: nat)
    requires x < n
    ensures x % n == x
  {
  }

  lemma LastIsLast(w: Work)
    requires w.queue != []
    ensures Picked(w, |w.queue| - 1) == w
  {
    assert w.queue == w.queue[..|w.queue| - 1] + [] + [w.queue[|w.queue| - 1]];
  }

  lemma SeededHost(host: string)
    ensures Seeded(EMPTY, Start(host)) == Work(map[host := {}], [host], map[])
  {
    assert Start(host)[1..] == [] && [] + [host] == [host];
    assert Get(EMPTY.active, host) + {} == {};
  }

  lemma ThreeTurns(host: string, e: string, r: Requirement)
    requires Retracts(host, e, r)
    ensures AnyRun(Hosting(host, e, r), Seeded(EMPTY, Start(host)), [0, 1, 0]) ==
            Ok(Work(Settled(host, e, r), [], Settled(host, e, r)))
  {
    hide Step, Hosting, Settled, Seeded, Retracts;
    var d, final := Hosting(host, e, r), Settled(host, e, r);
    var w1 := Work(final, [host, r.name], map[host := {}]);
    var w2 := Work(final, [host], map[host := {}, r.name := r.extras]);
    SeededHost(host);
    FirstTurn(host, e, r);
    PickLast(d, Seeded(EMPTY, Start(host)), w1, [0, 1, 0]);
    SecondTurn(host, e, r);
    PickLast(d, w1, w2, [1, 0]);
    ThirdTurn(host, e, r);
    PickLast(d, w2, Work(final, [], final), [0]);
    assert [0, 1, 0][1..] == [1, 0] && [1, 0][1..] == [0];
  }

  lemma HostAloneIsClosed(host: string, e: string, r: Requirement)
    requires Retracts(host, e, r)
    ensures Closed(Start(host), Hosting(host, e, r), Settled(host, e, r))
    ensures !Least(Start(host), Hosting(host, e, r), Settled(host, e, r))
  {
    var alone: ExtrasMap := map[host := {e}];
    var d, self := Hosting(host, e, r), Requirement(host, {e}, None);
    assert !Applies(r, {e});
    assert d[host].requirements == [self, r] && Includes(alone, self) && Includes(Settled(host, e, r), self);
    assert ClosedAt(d[host], {e}, alone) && ClosedAt(d[host], {e}, Settled(host, e, r));
    assert Closed(Start(host), d, alone) && !Below(Settled(host, e, r), alone);
  }

  /**
   Any requirement whose marker is not persistent is kept by some run although no closed map needs its package: it
   applies when its host is first taken, and stays when it no longer does.
   */
  lemma RetractedRequirementStays(host: string, e: string, r: Requirement)
    requires Retracts(host, e, r)
    ensures var end := AnyRun(Hosting(host, e, r), Seeded(EMPTY, Start(host)), [0, 1, 0]);
            && end.Ok? && end.value.queue == [] && r.name in end.value.active
            && Closed(Start(host), Hosting(host, e, r), end.value.active)
            && !Least(Start(host), Hosting(host, e, r), end.value.active)
  {
    hide Closed, Least, Step, AnyRun;
    ThreeTurns(host, e, r);
    HostAloneIsClosed(host, e, r);
  }

  ghost predicate EndsLeast(dists: map<string, Distribution>, seeds: seq<Requirement>, picks: seq<nat>) {
    var end := AnyRun(dists, Seeded(EMPTY, seeds), picks);
    end.Ok? && end.value.queue == [] ==> Least(seeds, dists, end.value.active)
  }

  lemma PersistentEndsLeast(dists: map<string, Distribution>, seeds: seq<Requirement>, picks: seq<nat>)
    requires AllPersistent(dists)
    ensures EndsLeast(dists, seeds, picks)
  {
    hide AnyRun, Seeded, Least, AllPersistent;
    SeededLoop(seeds, dists);
    AnyRunIsSound(seeds, dists, Seeded(EMPTY, seeds), picks);
  }

  lemma HostingIsMarkedBy(host: string, e: string, r: Requirement)
    requires host != r.name
    ensures MarkedBy(Hosting(host, e, r), r)
  {
  }

  lemma MarkedByPersistent(dists: map<string, Distribution>, r: Requirement)
    requires MarkedBy(dists, r) && Persistent(r)
    ensures AllPersistent(dists)
  {
  }

  /**
   Persistence is exactly what guarantees leastness: with a persistent marker every run that ends, on any graph, gives
   the least map, and a requirement with any other marker has a graph and a run that do not.
   */
  lemma PersistentIffEndsLeast(r: Requirement)
    ensures Persistent(r) <==> forall dists, seeds, picks :: MarkedBy(dists, r) ==> EndsLeast(dists, seeds, picks)
  {
    hide EndsLeast, MarkedBy;
    if Persistent(r) {
      forall dists, seeds, picks | MarkedBy(dists, r) ensures EndsLeast(dists, seeds, picks) {
        MarkedByPersistent(dists, r);
        PersistentEndsLeast(dists, seeds, picks);
      }
    } else {
      var e :| !r.marker.value(e);
      var host := r.name + "x";
      HostingIsMarkedBy(host, e, r);
      NotLeast(host, e, r);
    }
  }

  lemma NotLeast(host: string, e: string, r: Requirement)
    requires Retracts(host, e, r)
    ensures !EndsLeast(Hosting(host, e, r), Start(host), [0, 1, 0])
  {
    hide AnyRun, Seeded, Closed, Least, Hosting;
    RetractedRequirementStays(host, e, r);
  }

  /** `r` is the only requirement with a marker. */
  ghost predicate MarkedBy(dists: map<string, Distribution>, r: Requirement) {
    forall n, i :: n in dists && 0 <= i < |dists[n].requirements| ==>
      dists[n].requirements[i].marker == None || dists[n].requirements[i] == r
  }

  lemma AbsorbTwo(w: Work, r: Requirement, s: Requirement, extras: set<string>)
    ensures var v := if Applies(r, extras) then Absorb(w, r) else w;
            AbsorbAll(w, [r, s], extras) == if Applies(s, extras) then Absorb(v, s) else v
  {
    var v := if Applies(r, extras) then Absorb(w, r) else w;
    assert [r, s][1..] == [s] && [s][1..] == [];
    assert AbsorbAll(v, [s], extras) == if Applies(s, extras) then Absorb(v, s) else v;
  }
}
