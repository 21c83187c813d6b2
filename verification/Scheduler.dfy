/**
 Rolling scheduler of live end-to-end cases (scripts/ci/model_pool.py).

 Cases wait in `pending`, hold a worker while in `running`, and are yielded when their future completes.
 A case may need an exclusive resource lock and a slot on one model of its pool. Which futures complete,
 and in which order they are drained, is left entirely open.
 */
module Scheduler {
  import opened Wrappers

  /** `resourceLock == ""` means that the case needs no lock. */
  datatype Case = Case(name: string, live: bool, multimodal: bool, resourceLock: string)

  datatype Config = Config(
    jobs: int, enabled: bool,
    textModels: seq<string>, multimodalModels: seq<string>,
    textJobs: int, multimodalJobs: int,
    pins: map<string, string>)

  /** A submitted case: its future and the model reserved for it, if any. */
  datatype Slot = Slot(future: nat, job: Case, model: Option<string>)

  datatype State = State(
    pending: seq<Case>, running: seq<Slot>, busy: set<string>,
    active: map<string, int>, dispatched: map<string, int>, nextFuture: nat)

  datatype Outcome = Finished | BadPin | BadWorkers | NoCapacity

  const PRIME := "glm-5.3-prime"

  // ---------- static configuration ----------

  function Pool(cfg: Config, c: Case): seq<string> {
    if c.multimodal then cfg.multimodalModels else cfg.textModels
  }

  predicate PinAccepted(cfg: Config, c: Case) {
    c.name in cfg.pins && cfg.pins[c.name] != "" ==>
      cfg.enabled && c.live && cfg.pins[c.name] in Pool(cfg, c)
  }

  predicate NeedsModel(cfg: Config, c: Case) {
    cfg.enabled && c.live
  }

  function ModelsFor(cfg: Config, c: Case): seq<string> {
    if c.name in cfg.pins then [cfg.pins[c.name]] else Pool(cfg, c)
  }

  function Limit(cfg: Config, c: Case, model: string): int {
    var capacity := if c.multimodal then cfg.multimodalJobs else cfg.textJobs;
    if model == PRIME && capacity > 2 then 2 else capacity
  }

  /** Some model that the case may use accepts at least one case. */
  predicate Servable(cfg: Config, c: Case) {
    NeedsModel(cfg, c) ==> exists m :: m in ModelsFor(cfg, c) && 0 < Limit(cfg, c, m)
  }

  /** Every case that may be placed on `model` is limited to `bound` concurrent cases there. */
  ghost predicate LimitedTo(cfg: Config, cases: seq<Case>, model: string, bound: nat) {
    forall c :: c in cases && NeedsModel(cfg, c) && model in ModelsFor(cfg, c) ==> Limit(cfg, c, model) <= bound
  }

  // ---------- counting ----------

  function Count(counter: map<string, int>, key: string): int {
    if key in counter then counter[key] else 0
  }

  ghost function RunningOn(running: seq<Slot>, model: string): nat {
    if running == [] then 0
    else (if running[0].model == Some(model) then 1 else 0) + RunningOn(running[1..], model)
  }

  lemma {:induction false} RunningOnConcat(a: seq<Slot>, b: seq<Slot>, model: string)
    ensures RunningOn(a + b, model) == RunningOn(a, model) + RunningOn(b, model)
  {
    if a == [] {
      assert a + b == b;
    } else {
      assert (a + b)[1..] == a[1..] + b;
      RunningOnConcat(a[1..], b, model);
    }
  }

  ghost function Jobs(slots: seq<Slot>): seq<Case> {
    seq(|slots|, i requires 0 <= i < |slots| => slots[i].job)
  }

  lemma JobsConcat(a: seq<Slot>, b: seq<Slot>)
    ensures Jobs(a + b) == Jobs(a) + Jobs(b)
  {
  }

  // ---------- the invariant ----------

  ghost predicate SlotOk(cfg: Config, cases: seq<Case>, slot: Slot) {
    && slot.job in cases
    && (if NeedsModel(cfg, slot.job)
        then slot.model.Some? && slot.model.value in ModelsFor(cfg, slot.job)
             && 0 < Limit(cfg, slot.job, slot.model.value)
        else slot.model == None)
  }

  /** No two running cases hold the same lock, and `busy` is exactly the set of held locks. */
  ghost predicate LocksExact(running: seq<Slot>, busy: set<string>) {
    && (forall i :: 0 <= i < |running| && running[i].job.resourceLock != "" ==> running[i].job.resourceLock in busy)
    && (forall l :: l in busy ==> l != "" && exists i :: 0 <= i < |running| && running[i].job.resourceLock == l)
    && (forall i, j :: 0 <= i < j < |running| && running[i].job.resourceLock == running[j].job.resourceLock
          ==> running[i].job.resourceLock == "")
  }

  ghost predicate FuturesDistinct(running: seq<Slot>, nextFuture: nat) {
    && (forall i :: 0 <= i < |running| ==> running[i].future < nextFuture)
    && (forall i, j :: 0 <= i < j < |running| ==> running[i].future != running[j].future)
  }

  ghost predicate ActiveExact(cfg: Config, cases: seq<Case>, running: seq<Slot>, active: map<string, int>) {
    && (forall m :: Count(active, m) == RunningOn(running, m))
    && (forall m, b: nat :: LimitedTo(cfg, cases, m, b) ==> Count(active, m) <= b)
  }

  ghost predicate Inv(cfg: Config, cases: seq<Case>, s: State) {
    && |s.running| <= cfg.jobs
    && (forall c :: c in s.pending ==> c in cases)
    && (forall i :: 0 <= i < |s.running| ==> SlotOk(cfg, cases, s.running[i]))
    && LocksExact(s.running, s.busy)
    && FuturesDistinct(s.running, s.nextFuture)
    && ActiveExact(cfg, cases, s.running, s.active)
  }

  /**
   Every submitted case is pending, running or yielded, exactly as often as it was submitted, and
   `dispatched` counts the cases ever placed on a model.
   */
  ghost predicate Conserved(cases: seq<Case>, s: State, yielded: seq<Slot>) {
    && multiset(s.pending) + multiset(Jobs(s.running)) + multiset(Jobs(yielded)) == multiset(cases)
    && DispatchedExact(s, yielded)
  }

  ghost predicate DispatchedExact(s: State, yielded: seq<Slot>) {
    forall m :: Count(s.dispatched, m) == RunningOn(s.running, m) + RunningOn(yielded, m)
  }

  predicate Blocked(cfg: Config, s: State, c: Case) {
    || (c.resourceLock != "" && c.resourceLock in s.busy)
    || (NeedsModel(cfg, c) && forall m :: m in ModelsFor(cfg, c) ==> Limit(cfg, c, m) <= Count(s.active, m))
  }

  /**
   Why a case cannot start next to those that run: its lock is held, or it is live and every model it may use, its pin
   or else its pool, runs as many cases as its capacity allows, which is at most two for the diagnosis model.
   */
  ghost predicate Waits(cfg: Config, running: seq<Slot>, c: Case) {
    || (c.resourceLock != "" && exists i :: 0 <= i < |running| && running[i].job.resourceLock == c.resourceLock)
    || (cfg.enabled && c.live
        && forall m :: m in (if c.name in cfg.pins then [cfg.pins[c.name]]
                             else if c.multimodal then cfg.multimodalModels else cfg.textModels) ==>
             var capacity := if c.multimodal then cfg.multimodalJobs else cfg.textJobs;
             RunningOn(running, m) >= if m == "glm-5.3-prime" && capacity > 2 then 2 else capacity)
  }

  lemma BlockedIsWaits(cfg: Config, cases: seq<Case>, s: State, c: Case)
    requires LocksExact(s.running, s.busy) && ActiveExact(cfg, cases, s.running, s.active)
    ensures Blocked(cfg, s, c) <==> Waits(cfg, s.running, c)
  {
    WaitsMeans(cfg, s.running, c);
    assert forall m :: Count(s.active, m) == RunningOn(s.running, m);
  }

  /** A refill leaves no startable case behind while a worker is free. */
  ghost predicate Maximal(cfg: Config, s: State) {
    |s.running| >= cfg.jobs || forall c :: c in s.pending ==> Waits(cfg, s.running, c)
  }

  // ---------- choosing a model ----------

  function Available(cfg: Config, s: State, c: Case, models: seq<string>): (r: seq<string>)
    ensures forall m :: m in r <==> m in models && Count(s.active, m) < Limit(cfg, c, m)
  {
    if models == [] then []
    else
      (if Count(s.active, models[0]) < Limit(cfg, c, models[0]) then [models[0]] else [])
      + Available(cfg, s, c, models[1..])
  }

  predicate LessLoaded(s: State, m: string, n: string) {
    || Count(s.active, m) < Count(s.active, n)
    || (Count(s.active, m) == Count(s.active, n) && Count(s.dispatched, m) < Count(s.dispatched, n))
  }

  /** A model of `available` that no other one is less loaded than; ties go to the earlier model. */
  function LeastLoaded(s: State, available: seq<string>): (m: string)
    requires available != []
    ensures m in available
    ensures forall n :: n in available ==> !LessLoaded(s, n, m)
  {
    if |available| == 1 then available[0]
    else
      var rest := LeastLoaded(s, available[1..]);
      assert forall n :: n in available ==> n == available[0] || n in available[1..];
      if LessLoaded(s, rest, available[0]) then rest else available[0]
  }

  /** Among equally loaded models the first one of the pool is chosen. */
  lemma {:induction false} LeastLoadedIsFirst(s: State, available: seq<string>) returns (i: nat)
    requires available != []
    ensures i < |available| && available[i] == LeastLoaded(s, available)
    ensures forall j :: 0 <= j < i ==>
              || Count(s.active, available[i]) < Count(s.active, available[j])
              || (Count(s.active, available[i]) == Count(s.active, available[j])
                  && Count(s.dispatched, available[i]) < Count(s.dispatched, available[j]))
  {
    i := 0;
    if |available| > 1 {
      var rest := LeastLoaded(s, available[1..]);
      if LessLoaded(s, rest, available[0]) {
        var k := LeastLoadedIsFirst(s, available[1..]);
        i := k + 1;
        forall j | 0 <= j < i ensures LessLoaded(s, available[i], available[j]) {
          if j > 0 { assert available[j] == available[1..][j - 1]; }
        }
      }
    }
  }

  // ---------- starting one case ----------

  function Dispatch(cfg: Config, s: State, c: Case): State
    requires c in s.pending && !Blocked(cfg, s, c)
  {
    var model :=
      if NeedsModel(cfg, c) then Some(LeastLoaded(s, Available(cfg, s, c, ModelsFor(cfg, c)))) else None;
    State(
      RemoveFirst(s.pending, c),
      s.running + [Slot(s.nextFuture, c, model)],
      if c.resourceLock != "" then s.busy + {c.resourceLock} else s.busy,
      if model.Some? then s.active[model.value := Count(s.active, model.value) + 1] else s.active,
      if model.Some? then s.dispatched[model.value := Count(s.dispatched, model.value) + 1] else s.dispatched,
      s.nextFuture + 1)
  }

  function RemoveFirst(pending: seq<Case>, c: Case): (r: seq<Case>)
    requires c in pending
    ensures multiset(pending) == multiset(r) + multiset{c}
    ensures |r| == |pending| - 1
    ensures forall d :: d in r ==> d in pending
  {
    if pending[0] == c then
      assert pending == [c] + pending[1..];
      pending[1..]
    else
      assert pending == [pending[0]] + pending[1..];
      [pending[0]] + RemoveFirst(pending[1..], c)
  }

  lemma {:induction false} RemoveFirstSkips(skipped: seq<Case>, c: Case, rest: seq<Case>)
    requires c !in skipped
    ensures RemoveFirst(skipped + [c] + rest, c) == skipped + rest
  {
    var whole := skipped + [c] + rest;
    if skipped == [] {
      assert whole == [c] + rest;
    } else {
      hide RemoveFirst;
      assert whole[0] == skipped[0] && whole[1..] == skipped[1..] + [c] + rest;
      RemoveFirstSkips(skipped[1..], c, rest);
      assert [skipped[0]] + (skipped[1..] + rest) == skipped + rest;
    }
  }

  lemma DispatchActive(cfg: Config, cases: seq<Case>, s: State, c: Case)
    requires Inv(cfg, cases, s) && c in s.pending && !Blocked(cfg, s, c)
    ensures ActiveExact(cfg, cases, Dispatch(cfg, s, c).running, Dispatch(cfg, s, c).active)
  {
    var t := Dispatch(cfg, s, c);
    forall m
      ensures Count(t.active, m) == RunningOn(t.running, m)
    {
      RunningOnConcat(s.running, [t.running[|s.running|]], m);
    }
  }

  lemma DispatchLocks(cfg: Config, cases: seq<Case>, s: State, c: Case)
    requires Inv(cfg, cases, s) && c in s.pending && !Blocked(cfg, s, c)
    ensures LocksExact(Dispatch(cfg, s, c).running, Dispatch(cfg, s, c).busy)
  {
    var t := Dispatch(cfg, s, c);
    forall l | l in t.busy
      ensures l != "" && exists i :: 0 <= i < |t.running| && t.running[i].job.resourceLock == l
    {
      if l in s.busy {
        var i :| 0 <= i < |s.running| && s.running[i].job.resourceLock == l;
        assert t.running[i] == s.running[i];
      } else {
        assert t.running[|s.running|].job.resourceLock == l;
      }
    }
  }

  lemma DispatchConserves(cfg: Config, cases: seq<Case>, s: State, c: Case, yielded: seq<Slot>)
    requires Conserved(cases, s, yielded) && c in s.pending && !Blocked(cfg, s, c)
    ensures Conserved(cases, Dispatch(cfg, s, c), yielded)
  {
    var t := Dispatch(cfg, s, c);
    var slot := t.running[|s.running|];
    JobsConcat(s.running, [slot]);
    assert Jobs([slot]) == [c];
    forall m
      ensures Count(t.dispatched, m) == RunningOn(t.running, m) + RunningOn(yielded, m)
    {
      RunningOnConcat(s.running, [slot], m);
    }
  }

  /** The case goes to a model it may use, below its limit, and no such model is less loaded. */
  lemma DispatchPlacement(cfg: Config, s: State, c: Case)
    requires c in s.pending && !Blocked(cfg, s, c)
    ensures var slot := Dispatch(cfg, s, c).running[|s.running|];
            && slot.job == c
            && (slot.model.Some? <==> NeedsModel(cfg, c))
            && (slot.model.Some? ==>
                  && slot.model.value in ModelsFor(cfg, c)
                  && Count(s.active, slot.model.value) < Limit(cfg, c, slot.model.value)
                  && forall n :: n in ModelsFor(cfg, c) && Count(s.active, n) < Limit(cfg, c, n) ==>
                       var m := slot.model.value;
                       || Count(s.active, m) < Count(s.active, n)
                       || (Count(s.active, m) == Count(s.active, n)
                           && Count(s.dispatched, m) <= Count(s.dispatched, n)))
  {
    if NeedsModel(cfg, c) {
      var available := Available(cfg, s, c, ModelsFor(cfg, c));
      assert LeastLoaded(s, available) in available;
    }
  }

  /** Starting an unblocked case while a worker is free keeps the invariant and only tightens what is blocked. */
  lemma DispatchKeepsInv(cfg: Config, cases: seq<Case>, s: State, c: Case, yielded: seq<Slot>)
    requires Inv(cfg, cases, s) && Conserved(cases, s, yielded)
    requires c in s.pending && !Blocked(cfg, s, c) && |s.running| < cfg.jobs
    ensures Inv(cfg, cases, Dispatch(cfg, s, c)) && Conserved(cases, Dispatch(cfg, s, c), yielded)
    ensures forall d :: Blocked(cfg, s, d) ==> Blocked(cfg, Dispatch(cfg, s, c), d)
  {
    hide LocksExact, ActiveExact, Conserved, FuturesDistinct, SlotOk, Blocked, Dispatch;
    DispatchActive(cfg, cases, s, c);
    DispatchLocks(cfg, cases, s, c);
    DispatchSlots(cfg, cases, s, c);
    DispatchConserves(cfg, cases, s, c, yielded);
    DispatchBlocks(cfg, s, c);
  }

  lemma DispatchSlots(cfg: Config, cases: seq<Case>, s: State, c: Case)
    requires Inv(cfg, cases, s) && c in s.pending && !Blocked(cfg, s, c)
    ensures var t := Dispatch(cfg, s, c);
            && |t.running| == |s.running| + 1
            && FuturesDistinct(t.running, t.nextFuture)
            && (forall d :: d in t.pending ==> d in cases)
            && forall i :: 0 <= i < |t.running| ==> SlotOk(cfg, cases, t.running[i])
  {
    hide LocksExact;
    DispatchPlacement(cfg, s, c);
    var t := Dispatch(cfg, s, c);
    assert t.running[..|s.running|] == s.running;
    forall i | 0 <= i < |t.running| ensures SlotOk(cfg, cases, t.running[i]) {
      if i < |s.running| { assert t.running[i] == s.running[i]; }
    }
  }

  lemma DispatchBlocks(cfg: Config, s: State, c: Case)
    requires c in s.pending && !Blocked(cfg, s, c)
    ensures forall d :: Blocked(cfg, s, d) ==> Blocked(cfg, Dispatch(cfg, s, c), d)
  {
  }

  // ---------- completing one future ----------

  function Without(slots: seq<Slot>, i: nat): seq<Slot>
    requires i < |slots|
  {
    slots[..i] + slots[i + 1..]
  }

  lemma RunningOnWithout(slots: seq<Slot>, i: nat, m: string)
    requires i < |slots|
    ensures RunningOn(slots, m) == RunningOn(Without(slots, i), m) + RunningOn([slots[i]], m)
  {
    assert slots == slots[..i] + ([slots[i]] + slots[i + 1..]);
    RunningOnConcat(slots[..i], [slots[i]] + slots[i + 1..], m);
    RunningOnConcat([slots[i]], slots[i + 1..], m);
    RunningOnConcat(slots[..i], slots[i + 1..], m);
  }

  function Complete(s: State, i: nat): State
    requires i < |s.running|
  {
    var slot := s.running[i];
    s.(running := Without(s.running, i),
       busy := if slot.job.resourceLock != "" then s.busy - {slot.job.resourceLock} else s.busy,
       active := if slot.model.Some?
                 then s.active[slot.model.value := Count(s.active, slot.model.value) - 1] else s.active)
  }

  lemma CompleteActive(cfg: Config, cases: seq<Case>, s: State, i: nat)
    requires Inv(cfg, cases, s) && i < |s.running|
    ensures ActiveExact(cfg, cases, Complete(s, i).running, Complete(s, i).active)
  {
    var t := Complete(s, i);
    forall m
      ensures Count(t.active, m) == RunningOn(t.running, m) && Count(t.active, m) <= Count(s.active, m)
    {
      RunningOnWithout(s.running, i, m);
    }
  }

  lemma CompleteLocks(cfg: Config, cases: seq<Case>, s: State, i: nat)
    requires Inv(cfg, cases, s) && i < |s.running|
    ensures LocksExact(Complete(s, i).running, Complete(s, i).busy)
  {
    hide ActiveExact, FuturesDistinct, SlotOk;
    var t := Complete(s, i);
    forall l | l in t.busy
      ensures l != "" && exists k :: 0 <= k < |t.running| && t.running[k].job.resourceLock == l
    {
      var k :| 0 <= k < |s.running| && s.running[k].job.resourceLock == l;
      assert t.running[if k < i then k else k - 1] == s.running[k];
    }
  }

  lemma CompleteConserves(cases: seq<Case>, s: State, i: nat, yielded: seq<Slot>)
    requires Conserved(cases, s, yielded) && i < |s.running|
    ensures Conserved(cases, Complete(s, i), yielded + [s.running[i]])
  {
    var slot := s.running[i];
    assert Jobs(s.running) == Jobs(s.running[..i]) + [slot.job] + Jobs(s.running[i + 1..]);
    assert Jobs(Without(s.running, i)) == Jobs(s.running[..i]) + Jobs(s.running[i + 1..]);
    assert Jobs(yielded + [slot]) == Jobs(yielded) + [slot.job];
    forall m
      ensures RunningOn(Without(s.running, i), m) + RunningOn(yielded + [slot], m)
           == RunningOn(s.running, m) + RunningOn(yielded, m)
    {
      RunningOnWithout(s.running, i, m);
      RunningOnConcat(yielded, [slot], m);
    }
  }

  /** Draining any running future keeps the invariant; its case moves to the yielded ones. */
  lemma CompleteKeepsInv(cfg: Config, cases: seq<Case>, s: State, i: nat, yielded: seq<Slot>)
    requires Inv(cfg, cases, s) && Conserved(cases, s, yielded) && i < |s.running|
    ensures Inv(cfg, cases, Complete(s, i)) && Conserved(cases, Complete(s, i), yielded + [s.running[i]])
  {
    hide LocksExact, ActiveExact, Conserved;
    CompleteActive(cfg, cases, s, i);
    CompleteLocks(cfg, cases, s, i);
    CompleteConserves(cases, s, i, yielded);
  }

  // ---------- the scheduler ----------

  /** Halfway through a pass: `skipped` was passed over, `rest` has not been looked at yet. */
  ghost predicate Refilling(cfg: Config, cases: seq<Case>, s: State, t: State, yielded: seq<Slot>,
                            skipped: seq<Case>, rest: seq<Case>) {
    && Inv(cfg, cases, t) && Conserved(cases, t, yielded)
    && t.pending == skipped + rest
    && (forall c :: c in skipped ==> Blocked(cfg, t, c))
    && s.running <= t.running
    && |t.pending| + |t.running| == |s.pending| + |s.running|
  }

  lemma RefillingDispatch(cfg: Config, cases: seq<Case>, s: State, t: State, yielded: seq<Slot>,
                          skipped: seq<Case>, rest: seq<Case>)
    requires rest != [] && Refilling(cfg, cases, s, t, yielded, skipped, rest)
    requires !Blocked(cfg, t, rest[0]) && |t.running| < cfg.jobs
    ensures rest[0] in t.pending
    ensures Refilling(cfg, cases, s, Dispatch(cfg, t, rest[0]), yielded, skipped, rest[1..])
  {
    assert t.pending == skipped + [rest[0]] + rest[1..];
    RemoveFirstSkips(skipped, rest[0], rest[1..]);
    DispatchKeepsInv(cfg, cases, t, rest[0], yielded);
  }

  // ---------- the order of starting ----------

  /** The cases whose mark is `mark`, in order. */
  ghost function Marked(cases: seq<Case>, marks: seq<bool>, mark: bool): seq<Case>
    requires |cases| == |marks|
  {
    if cases == [] then []
    else
      var n := |cases| - 1;
      Marked(cases[..n], marks[..n], mark) + if marks[n] == mark then [cases[n]] else []
  }

  /** How many cases are marked as started. */
  ghost function Started(marks: seq<bool>): nat {
    if marks == [] then 0 else Started(marks[..|marks| - 1]) + if marks[|marks| - 1] then 1 else 0
  }

  /** When case `j` is started, case `i` before it, which is not, has to wait next to those running then. */
  ghost predicate WaitsThen(cfg: Config, pending: seq<Case>, running: seq<Slot>, already: nat, marks: seq<bool>,
                            i: int, j: int) {
    0 <= i < j < |marks| == |pending| && !marks[i] && marks[j] ==>
      already + Started(marks[..j]) <= |running| && Waits(cfg, running[..already + Started(marks[..j])], pending[i])
  }

  /**
   A pass goes through the pending cases in order: those it starts and those it leaves keep their order, and it
   starts a case before an earlier one only if that one has to wait.
   */
  ghost predicate InOrder(cfg: Config, s: State, t: State, marks: seq<bool>) {
    && |marks| == |s.pending| && s.running <= t.running
    && t.pending == Marked(s.pending, marks, false)
    && Jobs(t.running[|s.running|..]) == Marked(s.pending, marks, true)
    && forall i, j :: WaitsThen(cfg, s.pending, t.running, |s.running|, marks, i, j)
  }

  /** Halfway through: of the first |marks| cases those not marked are left. */
  ghost predicate Left(pending: seq<Case>, marks: seq<bool>, rest: seq<Case>, left: seq<Case>) {
    |marks| <= |pending| && rest == pending[|marks|..] && left == Marked(pending[..|marks|], marks, false) + rest
  }

  /** The marked cases have been started next to those that ran already. */
  ghost predicate Begun(before: seq<Slot>, after: seq<Slot>, pending: seq<Case>, marks: seq<bool>) {
    && |pending| == |marks| && before <= after && |after| == |before| + Started(marks)
    && Jobs(after[|before|..]) == Marked(pending, marks, true)
  }

  lemma BegunOneMore(before: seq<Slot>, after: seq<Slot>, pending: seq<Case>, marks: seq<bool>, after': seq<Slot>)
    requires |pending| == |marks| && Begun(before, after, pending, marks)
    requires after <= after' && |after'| == |after| + 1
    ensures Begun(before, after', pending + [after'[|after|].job], marks + [true])
  {
    hide Started, Jobs;
    var pending' := pending + [after'[|after|].job];
    StartedNext(marks, true);
    JobsGrow(after, after', |before|);
    assert pending'[..|marks|] == pending && (marks + [true])[..|marks|] == marks;
  }

  lemma BegunNoMore(before: seq<Slot>, after: seq<Slot>, pending: seq<Case>, marks: seq<bool>, c: Case)
    requires |pending| == |marks| && Begun(before, after, pending, marks)
    ensures Begun(before, after, pending + [c], marks + [false])
  {
    hide Started, Jobs;
    StartedNext(marks, false);
    assert (pending + [c])[..|marks|] == pending && (marks + [false])[..|marks|] == marks;
  }

  /** Whoever was left has to wait, and had to whenever a later one was started. */
  ghost predicate Overtaken(cfg: Config, pending: seq<Case>, running: seq<Slot>, already: nat, marks: seq<bool>) {
    && |pending| == |marks| && |running| == already + Started(marks)
    && (forall i :: 0 <= i < |marks| && !marks[i] ==> Waits(cfg, running, pending[i]))
    && forall i, j :: WaitsThen(cfg, pending, running, already, marks, i, j)
  }

  ghost predicate Passing(cfg: Config, s: State, t: State, marks: seq<bool>, rest: seq<Case>) {
    && |marks| <= |s.pending|
    && Left(s.pending, marks, rest, t.pending) && Begun(s.running, t.running, s.pending[..|marks|], marks)
    && Overtaken(cfg, s.pending[..|marks|], t.running, |s.running|, marks)
  }

  lemma PassingStarts(cfg: Config, s: State)
    ensures Passing(cfg, s, s, [], s.pending)
  {
    assert Jobs(s.running[|s.running|..]) == [];
    assert Marked(s.pending[..0], [], false) + s.pending == s.pending;
  }

  lemma MarkedNext(pending: seq<Case>, marks: seq<bool>, started: bool, mark: bool)
    requires |marks| < |pending|
    ensures Marked(pending[..|marks| + 1], marks + [started], mark) ==
            Marked(pending[..|marks|], marks, mark) + if started == mark then [pending[|marks|]] else []
  {
    var n := |marks|;
    assert pending[..n + 1][..n] == pending[..n] && (marks + [started])[..n] == marks;
  }

  lemma StartedNext(marks: seq<bool>, started: bool)
    ensures Started(marks + [started]) == Started(marks) + if started then 1 else 0
  {
    assert (marks + [started])[..|marks|] == marks;
  }

  lemma LookedAtNext(pending: seq<Case>, marks: seq<bool>, started: bool)
    requires |marks| < |pending|
    ensures var marks', rest := marks + [started], pending[|marks|..];
            && |marks'| == |marks| + 1 && rest[1..] == pending[|marks'|..]
            && pending[..|marks'|] == pending[..|marks|] + [rest[0]]
            && Marked(pending[..|marks'|], marks', false) ==
               Marked(pending[..|marks|], marks, false) + if started then [] else [rest[0]]
  {
    hide Marked;
    assert pending[..|marks| + 1] == pending[..|marks|] + [pending[|marks|]] && |marks + [started]| == |marks| + 1;
    MarkedNext(pending, marks, started, false);
  }

  lemma LeftNext(pending: seq<Case>, marks: seq<bool>, started: bool, rest: seq<Case>, left: seq<Case>)
    requires Left(pending, marks, rest, left) && rest != []
    ensures var left' := if started then Marked(pending[..|marks|], marks, false) + rest[1..] else left;
            Left(pending, marks + [started], rest[1..], left')
    ensures |marks| < |pending| && pending[..|marks + [started]|] == pending[..|marks|] + [rest[0]]
  {
    hide Marked;
    LookedAtNext(pending, marks, started);
    var looked := Marked(pending[..|marks|], marks, false);
    assert looked + rest == looked + [rest[0]] + rest[1..] && looked + [] == looked;
  }

  lemma OvertakenSkips(cfg: Config, pending: seq<Case>, running: seq<Slot>, already: nat, marks: seq<bool>, c: Case)
    requires Overtaken(cfg, pending, running, already, marks) && Waits(cfg, running, c)
    ensures Overtaken(cfg, pending + [c], running, already, marks + [false])
  {
    hide Waits, Started;
    var n, marks', pending' := |marks|, marks + [false], pending + [c];
    StartedNext(marks, false);
    forall i, j ensures WaitsThen(cfg, pending', running, already, marks', i, j) {
      assert WaitsThen(cfg, pending, running, already, marks, i, j);
      if 0 <= i < j < n { assert marks'[..j] == marks[..j]; }
    }
  }

  /** A case that is left behind because it has to wait. */
  lemma PassingSkips(cfg: Config, s: State, t: State, marks: seq<bool>, rest: seq<Case>)
    requires Passing(cfg, s, t, marks, rest) && rest != [] && Waits(cfg, t.running, rest[0])
    ensures Passing(cfg, s, t, marks + [false], rest[1..])
  {
    hide Left, Begun, Overtaken, Waits;
    LeftNext(s.pending, marks, false, rest, t.pending);
    BegunNoMore(s.running, t.running, s.pending[..|marks|], marks, rest[0]);
    OvertakenSkips(cfg, s.pending[..|marks|], t.running, |s.running|, marks, rest[0]);
  }

  lemma {:induction false} RunningOnPrefix(running: seq<Slot>, n: nat, m: string)
    requires n <= |running|
    ensures RunningOn(running[..n], m) <= RunningOn(running, m)
  {
    assert running == running[..n] + running[n..];
    RunningOnConcat(running[..n], running[n..], m);
  }

  /** Next to more cases, whoever had to wait still has to. */
  lemma WaitsOn(cfg: Config, running: seq<Slot>, n: nat, c: Case)
    requires n <= |running| && Waits(cfg, running[..n], c)
    ensures Waits(cfg, running, c)
  {
    forall m ensures RunningOn(running[..n], m) <= RunningOn(running, m) { RunningOnPrefix(running, n, m); }
  }

  lemma {:induction false} StartedGrows(marks: seq<bool>, n: nat)
    requires n <= |marks|
    ensures Started(marks[..n]) <= Started(marks)
  {
    if n < |marks| {
      assert marks[..|marks| - 1][..n] == marks[..n];
      StartedGrows(marks[..|marks| - 1], n);
    } else {
      assert marks[..n] == marks;
    }
  }

  lemma PassingDispatches(cfg: Config, s: State, t: State, marks: seq<bool>, rest: seq<Case>, t': State)
    requires Passing(cfg, s, t, marks, rest) && rest != []
    requires t.running <= t'.running && |t'.running| == |t.running| + 1 && t'.running[|t.running|].job == rest[0]
    requires t'.pending == Marked(s.pending[..|marks|], marks, false) + rest[1..]
    ensures Passing(cfg, s, t', marks + [true], rest[1..])
  {
    hide Left, Begun, Overtaken, Marked;
    LeftNext(s.pending, marks, true, rest, t.pending);
    BegunOneMore(s.running, t.running, s.pending[..|marks|], marks, t'.running);
    OvertakenStarts(cfg, s.pending[..|marks|], t.running, |s.running|, marks, rest[0], t'.running);
  }

  lemma JobsGrow(running: seq<Slot>, running': seq<Slot>, from: nat)
    requires from <= |running| && running <= running' && |running'| == |running| + 1
    ensures Jobs(running'[from..]) == Jobs(running[from..]) + [running'[|running|].job]
  {
    assert running'[from..] == running[from..] + [running'[|running|]];
  }

  /** The case started now may overtake those left behind, since they have to wait. */
  lemma OvertakenStarts(cfg: Config, pending: seq<Case>, running: seq<Slot>, already: nat, marks: seq<bool>, c: Case,
                        running': seq<Slot>)
    requires Overtaken(cfg, pending, running, already, marks) && running <= running' && |running'| == |running| + 1
    ensures Overtaken(cfg, pending + [c], running', already, marks + [true])
  {
    hide Waits, Started;
    var n, marks', pending' := |marks|, marks + [true], pending + [c];
    StartedNext(marks, true);
    assert running'[..|running|] == running && marks[..n] == marks;
    forall i | 0 <= i < n && !marks'[i] ensures Waits(cfg, running', pending'[i]) {
      WaitsOn(cfg, running', |running|, pending[i]);
    }
    forall i, j ensures WaitsThen(cfg, pending', running', already, marks', i, j) {
      assert WaitsThen(cfg, pending, running, already, marks, i, j);
      if 0 <= i < j <= n {
        assert marks'[..j] == marks[..j];
        StartedGrows(marks, j);
        var k := already + Started(marks[..j]);
        assert running'[..k] == running[..k];
      }
    }
  }

  /** All workers are busy: whatever was not looked at stays pending. */
  lemma {:induction false} MarkedRest(pending: seq<Case>, marks: seq<bool>, mark: bool)
    requires |marks| <= |pending|
    ensures Marked(pending, marks + seq(|pending| - |marks|, _ => false), mark) ==
            Marked(pending[..|marks|], marks, mark) + if mark then [] else pending[|marks|..]
    decreases |pending| - |marks|
  {
    hide Marked;
    var n := |marks|;
    var all := marks + seq(|pending| - n, _ => false);
    if n == |pending| {
      assert all == marks && pending[..n] == pending && pending[n..] == [];
    } else {
      var marks' := marks + [false];
      assert all == marks' + seq(|pending| - |marks'|, _ => false);
      MarkedRest(pending, marks', mark);
      MarkedNext(pending, marks, false, mark);
      assert |marks'| == n + 1 && pending[n..] == [pending[n]] + pending[n + 1..];
    }
  }

  lemma PassingEnds(cfg: Config, s: State, t: State, marks: seq<bool>, rest: seq<Case>)
    requires Passing(cfg, s, t, marks, rest)
    ensures InOrder(cfg, s, t, marks + seq(|rest|, _ => false))
  {
    hide Waits, Marked, Started, Jobs;
    var all := marks + seq(|rest|, _ => false);
    MarkedRest(s.pending, marks, false);
    MarkedRest(s.pending, marks, true);
    forall i, j ensures WaitsThen(cfg, s.pending, t.running, |s.running|, all, i, j) {
      assert WaitsThen(cfg, s.pending[..|marks|], t.running, |s.running|, marks, i, j);
      if 0 <= i < j < |all| && all[j] { assert j < |marks| && all[..j] == marks[..j]; }
    }
  }

  /** One pass over a snapshot of the pending list. */
  method Refill(cfg: Config, ghost cases: seq<Case>, s: State, ghost yielded: seq<Slot>)
    returns (t: State, marks: seq<bool>)
    requires Inv(cfg, cases, s) && Conserved(cases, s, yielded)
    ensures Inv(cfg, cases, t) && Conserved(cases, t, yielded)
    ensures Maximal(cfg, t) && InOrder(cfg, s, t, marks)
    ensures s.running <= t.running
    ensures |t.pending| + |t.running| == |s.pending| + |s.running|
  {
    hide Passing, InOrder, Blocked, Dispatch, Waits;
    t, marks := s, [];
    var rest := s.pending;
    ghost var skipped: seq<Case> := [];
    PassingStarts(cfg, s);
    while rest != []
      invariant Refilling(cfg, cases, s, t, yielded, skipped, rest)
      invariant Passing(cfg, s, t, marks, rest)
      decreases |rest|
    {
      if |t.running| >= cfg.jobs {
        PassingEnds(cfg, s, t, marks, rest);
        marks := marks + seq(|rest|, _ => false);
        return;
      }
      BlockedIsWaits(cfg, cases, t, rest[0]);
      if Blocked(cfg, t, rest[0]) {
        PassingSkips(cfg, s, t, marks, rest);
        skipped, marks := skipped + [rest[0]], marks + [false];
      } else {
        RefillingDispatch(cfg, cases, s, t, yielded, skipped, rest);
        DispatchPasses(cfg, s, t, marks, skipped, rest);
        t, marks := Dispatch(cfg, t, rest[0]), marks + [true];
      }
      rest := rest[1..];
    }
    PassingEnds(cfg, s, t, marks, []);
    assert marks + seq(0, _ => false) == marks;
    assert skipped + [] == skipped;
    forall c | c in t.pending ensures Waits(cfg, t.running, c) { BlockedIsWaits(cfg, cases, t, c); }
  }

  lemma DispatchPasses(cfg: Config, s: State, t: State, marks: seq<bool>, skipped: seq<Case>, rest: seq<Case>)
    requires Passing(cfg, s, t, marks, rest) && rest != [] && rest[0] in t.pending && !Blocked(cfg, t, rest[0])
    requires t.pending == skipped + rest && Dispatch(cfg, t, rest[0]).pending == skipped + rest[1..]
    ensures Passing(cfg, s, Dispatch(cfg, t, rest[0]), marks + [true], rest[1..])
  {
    hide Waits, Marked, Started, Blocked;
    var left := Marked(s.pending[..|marks|], marks, false);
    assert |left| == |skipped| && skipped == t.pending[..|skipped|] == left;
    PassingDispatches(cfg, s, t, marks, rest, Dispatch(cfg, t, rest[0]));
  }

  function Futures(running: seq<Slot>): set<nat> {
    set i | 0 <= i < |running| :: running[i].future
  }

  method FindFuture(running: seq<Slot>, future: nat) returns (i: nat)
    requires future in Futures(running)
    ensures i < |running| && running[i].future == future
  {
    i := 0;
    while running[i].future != future
      invariant i < |running|
      invariant exists k :: i <= k < |running| && running[k].future == future
      decreases |running| - i
    {
      i := i + 1;
    }
  }

  lemma CompleteFutures(cfg: Config, cases: seq<Case>, s: State, i: nat)
    requires Inv(cfg, cases, s) && i < |s.running|
    ensures Futures(Complete(s, i).running) == Futures(s.running) - {s.running[i].future}
  {
    var t := Complete(s, i);
    forall f | f in Futures(s.running) - {s.running[i].future} ensures f in Futures(t.running) {
      var k :| 0 <= k < |s.running| && s.running[k].future == f;
      assert t.running[if k < i then k else k - 1] == s.running[k];
    }
  }

  /** `atYield[k]` is the state in which `yielded[k]` is handed out. */
  ghost predicate GoodTrace(cfg: Config, cases: seq<Case>, yielded: seq<Slot>, atYield: seq<State>) {
    && |atYield| == |yielded|
    && (forall i :: 0 <= i < |yielded| ==> SlotOk(cfg, cases, yielded[i]))
    && (forall k :: 0 <= k < |atYield| ==>
          Inv(cfg, cases, atYield[k]) && Conserved(cases, atYield[k], yielded[..k + 1]))
  }

  lemma GoodTraceExtends(cfg: Config, cases: seq<Case>, yielded: seq<Slot>, atYield: seq<State>, slot: Slot, s: State)
    requires GoodTrace(cfg, cases, yielded, atYield)
    requires SlotOk(cfg, cases, slot) && Inv(cfg, cases, s) && Conserved(cases, s, yielded + [slot])
    ensures GoodTrace(cfg, cases, yielded + [slot], atYield + [s])
  {
    var longer := yielded + [slot];
    forall k | 0 <= k < |atYield| + 1
      ensures Inv(cfg, cases, (atYield + [s])[k]) && Conserved(cases, (atYield + [s])[k], longer[..k + 1])
    {
      assert longer[..k + 1] == if k < |atYield| then yielded[..k + 1] else longer;
    }
  }

  method PinsAccepted(cfg: Config, cases: seq<Case>) returns (ok: bool)
    ensures ok <==> forall c :: c in cases ==> PinAccepted(cfg, c)
  {
    for k := 0 to |cases|
      invariant forall c :: c in cases[..k] ==> PinAccepted(cfg, c)
    {
      if !PinAccepted(cfg, cases[k]) {
        return false;
      }
    }
    assert cases[..|cases|] == cases;
    ok := true;
  }

  /** What was yielded in addition had been running in `s`. */
  ghost predicate YieldedFrom(s: State, yielded: seq<Slot>, yielded': seq<Slot>) {
    yielded <= yielded' && forall i :: |yielded| <= i < |yielded'| ==> yielded'[i] in s.running
  }

  /** Drains the completed futures in an arbitrary order, yielding one case for each. */
  method Drain(cfg: Config, ghost cases: seq<Case>, s: State, completed: set<nat>, yielded: seq<Slot>,
               atYield: seq<State>)
    returns (t: State, yielded': seq<Slot>, atYield': seq<State>)
    requires Inv(cfg, cases, s) && Conserved(cases, s, yielded) && GoodTrace(cfg, cases, yielded, atYield)
    requires completed <= Futures(s.running)
    ensures Inv(cfg, cases, t) && Conserved(cases, t, yielded') && GoodTrace(cfg, cases, yielded', atYield')
    ensures Futures(t.running) == Futures(s.running) - completed
    ensures t.pending == s.pending && |t.running| == |s.running| - |completed|
    ensures YieldedFrom(s, yielded, yielded') && |yielded'| == |yielded| + |completed|
  {
    hide Conserved, GoodTrace, LocksExact, ActiveExact;
    t, yielded', atYield' := s, yielded, atYield;
    var done := completed;
    while done != {}
      invariant Inv(cfg, cases, t) && Conserved(cases, t, yielded') && GoodTrace(cfg, cases, yielded', atYield')
      invariant done <= completed && Futures(t.running) == Futures(s.running) - (completed - done)
      invariant t.pending == s.pending && |t.running| == |s.running| - |completed| + |done|
      invariant YieldedFrom(s, yielded, yielded') && |yielded'| == |yielded| + |completed| - |done|
      invariant forall x :: x in t.running ==> x in s.running
      decreases done
    {
      var f :| f in done;
      done := done - {f};
      var i := FindFuture(t.running, f);
      CompleteKeepsInv(cfg, cases, t, i, yielded');
      CompleteFutures(cfg, cases, t, i);
      GoodTraceExtends(cfg, cases, yielded', atYield', t.running[i], Complete(t, i));
      yielded' := yielded' + [t.running[i]];
      t := Complete(t, i);
      atYield' := atYield' + [t];
    }
  }

  /** What is known between two rounds. */
  ghost predicate Running(cfg: Config, cases: seq<Case>, s: State, yielded: seq<Slot>, atYield: seq<State>) {
    Inv(cfg, cases, s) && Conserved(cases, s, yielded) && GoodTrace(cfg, cases, yielded, atYield)
  }

  /**
   A wait: the states before and after its refill, what the pass started, and how many cases had been yielded by then.
   */
  datatype Wait = Wait(from: State, state: State, marks: seq<bool>, before: nat)

  /**
   The scheduler waits in a state that keeps the invariant, conserves every case, was refilled in order and leaves no
   startable case behind.
   */
  ghost predicate GoodWait(cfg: Config, cases: seq<Case>, yielded: seq<Slot>, w: Wait) {
    && Inv(cfg, cases, w.state) && Maximal(cfg, w.state) && InOrder(cfg, w.from, w.state, w.marks)
    && (w.from.pending != [] || w.from.running != [])
    && w.before <= |yielded| && Conserved(cases, w.state, yielded[..w.before])
  }

  /** The next wait begins, or the run ends, when this many cases have been yielded. */
  ghost function After(waits: seq<Wait>, j: nat, total: nat): nat {
    if j + 1 < |waits| then waits[j + 1].before else total
  }

  /** The waits divide the yielded cases into consecutive batches, none larger than what was running. */
  ghost predicate BatchSizes(total: nat, waits: seq<Wait>) {
    && (waits == [] ==> total == 0) && (waits != [] ==> waits[0].before == 0)
    && (forall j :: 0 <= j < |waits| - 1 ==> waits[j].before < waits[j + 1].before)
    && (forall j :: 0 <= j < |waits| ==>
          waits[j].before <= total && After(waits, j, total) <= waits[j].before + |waits[j].state.running|)
  }

  /** Each batch had been running at its wait. */
  ghost predicate InBatch(yielded: seq<Slot>, waits: seq<Wait>, j: int, i: int) {
    0 <= j < |waits| && waits[j].before <= i < After(waits, j, |yielded|) && i < |yielded| ==>
      yielded[i] in waits[j].state.running
  }

  ghost predicate Batched(yielded: seq<Slot>, waits: seq<Wait>) {
    BatchSizes(|yielded|, waits) && forall j, i :: InBatch(yielded, waits, j, i)
  }

  /** After a wait, `yielded` cases later, nothing has been added to the pending cases or taken from them. */
  ghost predicate Drained(w: Wait, s: State, yielded: nat) {
    s.pending == w.state.pending && |s.running| + yielded == |w.state.running| + w.before
  }

  /** The first pass starts from the submitted cases, and each later one from what the wait before it left. */
  ghost predicate Chained(cases: seq<Case>, waits: seq<Wait>) {
    && (waits != [] ==> waits[0].from.pending == cases && waits[0].from.running == [])
    && forall j :: 0 <= j < |waits| - 1 ==> Drained(waits[j], waits[j + 1].from, waits[j + 1].before)
  }

  ghost predicate GoodWaits(cfg: Config, cases: seq<Case>, yielded: seq<Slot>, waits: seq<Wait>) {
    && Batched(yielded, waits) && Chained(cases, waits)
    && forall j :: 0 <= j < |waits| ==> GoodWait(cfg, cases, yielded, waits[j])
  }

  /** The state from which the next pass starts. */
  ghost predicate Next(cases: seq<Case>, waits: seq<Wait>, s: State, yielded: nat) {
    if waits == [] then s.pending == cases && s.running == [] else Drained(waits[|waits| - 1], s, yielded)
  }

  /** Every wait so far was followed by at least one yield. */
  ghost predicate Advanced(yielded: seq<Slot>, waits: seq<Wait>) {
    waits != [] ==> waits[|waits| - 1].before < |yielded|
  }

  lemma InitiallyRunning(cfg: Config, cases: seq<Case>)
    requires cfg.jobs > 0
    ensures Running(cfg, cases, State(cases, [], {}, map[], map[], 0), [], [])
    ensures GoodWaits(cfg, cases, [], []) && Advanced([], [])
    ensures Next(cases, [], State(cases, [], {}, map[], map[], 0), 0)
  {
    assert Jobs([]) == [];
  }

  lemma BatchSizesOnceMore(total: nat, waits: seq<Wait>, w: Wait, total': nat)
    requires BatchSizes(total, waits) && (waits != [] ==> waits[|waits| - 1].before < total)
    requires w.before == total <= total' <= total + |w.state.running|
    ensures BatchSizes(total', waits + [w])
    ensures forall j :: 0 <= j < |waits| ==> After(waits + [w], j, total') == After(waits, j, total) <= total
  {
    var waits' := waits + [w];
    forall j | 0 <= j < |waits| ensures After(waits', j, total') == After(waits, j, total) <= total {
      if j + 1 < |waits| { assert waits[j + 1].before <= total; }
    }
  }

  lemma BatchedOnceMore(yielded: seq<Slot>, waits: seq<Wait>, w: Wait, yielded': seq<Slot>)
    requires Batched(yielded, waits) && Advanced(yielded, waits) && YieldedFrom(w.state, yielded, yielded')
    requires w.before == |yielded| && |yielded'| <= |yielded| + |w.state.running|
    ensures Batched(yielded', waits + [w])
  {
    hide BatchSizes, After;
    BatchSizesOnceMore(|yielded|, waits, w, |yielded'|);
    var waits' := waits + [w];
    forall j, i ensures InBatch(yielded', waits', j, i) {
      assert InBatch(yielded, waits, j, i);
      if 0 <= j < |waits| && i < |yielded| { assert waits'[j] == waits[j] && (0 <= i ==> yielded'[i] == yielded[i]); }
    }
  }

  lemma ChainedOnceMore(cases: seq<Case>, waits: seq<Wait>, w: Wait)
    requires Chained(cases, waits) && Next(cases, waits, w.from, w.before)
    ensures Chained(cases, waits + [w])
  {
    var waits' := waits + [w];
    forall j | 0 <= j < |waits'| - 1 ensures Drained(waits'[j], waits'[j + 1].from, waits'[j + 1].before) {
      if j < |waits| - 1 { assert Drained(waits[j], waits[j + 1].from, waits[j + 1].before); }
    }
  }

  lemma WaitedOnceMore(cfg: Config, cases: seq<Case>, yielded: seq<Slot>, waits: seq<Wait>, w: Wait,
                       yielded': seq<Slot>)
    requires GoodWaits(cfg, cases, yielded, waits) && Advanced(yielded, waits)
    requires w.before == |yielded| && Next(cases, waits, w.from, |yielded|) && InOrder(cfg, w.from, w.state, w.marks)
    requires Inv(cfg, cases, w.state) && Maximal(cfg, w.state) && Conserved(cases, w.state, yielded)
    requires YieldedFrom(w.state, yielded, yielded') && |yielded'| <= |yielded| + |w.state.running|
    requires w.from.pending != [] || w.from.running != []
    ensures GoodWaits(cfg, cases, yielded', waits + [w])
    ensures |yielded| < |yielded'| ==> Advanced(yielded', waits + [w])
  {
    hide Inv, Maximal, Conserved, Batched, Chained, InOrder, Next;
    BatchedOnceMore(yielded, waits, w, yielded');
    ChainedOnceMore(cases, waits, w);
    var waits' := waits + [w];
    forall j | 0 <= j < |waits'| ensures GoodWait(cfg, cases, yielded', waits'[j]) {
      if j < |waits| {
        assert GoodWait(cfg, cases, yielded, waits[j]);
        assert yielded'[..waits[j].before] == yielded[..waits[j].before];
      } else {
        assert yielded'[..|yielded|] == yielded;
      }
    }
  }

  /** What a run has done when it ends because nothing runs any more. */
  lemma RunWhenIdle(cfg: Config, cases: seq<Case>, s: State, yielded: seq<Slot>, atYield: seq<State>)
    requires Running(cfg, cases, s, yielded, atYield) && s.running == [] && cfg.jobs > 0
    requires s.pending == [] || Maximal(cfg, s)
    ensures s.pending == [] <==> forall c :: c in cases ==> Servable(cfg, c)
    ensures forall c :: multiset(Jobs(yielded))[c] == if Servable(cfg, c) then multiset(cases)[c] else 0
    ensures GoodTrace(cfg, cases, yielded, atYield) && (s.pending == [] ==> |yielded| == |cases|)
  {
    YieldedWhenIdle(cfg, cases, s, yielded);
    if s.pending == [] {
      assert Jobs(s.running) == [] && multiset(Jobs(yielded)) == multiset(cases);
      assert |multiset(Jobs(yielded))| == |Jobs(yielded)| && |multiset(cases)| == |cases|;
    }
    if s.pending != [] { assert s.pending[0] in s.pending; }
  }

  /** Refill, wait for some non-empty set of futures, and drain it. */
  method Round(cfg: Config, ghost cases: seq<Case>, s: State, yielded: seq<Slot>, atYield: seq<State>)
    returns (waiting: State, marks: seq<bool>, t: State, yielded': seq<Slot>, atYield': seq<State>)
    requires Running(cfg, cases, s, yielded, atYield)
    ensures Inv(cfg, cases, waiting) && Maximal(cfg, waiting) && Conserved(cases, waiting, yielded)
    ensures InOrder(cfg, s, waiting, marks)
    ensures t.pending == waiting.pending && |t.running| + |yielded'| == |waiting.running| + |yielded|
    ensures |waiting.pending| + |waiting.running| == |s.pending| + |s.running| && s.running <= waiting.running
    ensures Running(cfg, cases, t, yielded', atYield')
    ensures waiting.running == [] ==> t == waiting && yielded' == yielded
    ensures YieldedFrom(waiting, yielded, yielded') && (waiting.running != [] ==> |yielded| < |yielded'|)
    ensures waiting.running != [] ==> 2 * |t.pending| + |t.running| < 2 * |s.pending| + |s.running|
  {
    hide Inv, Conserved, GoodTrace, InOrder, Maximal;
    waiting, marks := Refill(cfg, cases, s, yielded);
    t, yielded', atYield' := waiting, yielded, atYield;
    if waiting.running != [] {
      assert waiting.running[0].future in Futures(waiting.running);
      var done: set<nat> :| done != {} && done <= Futures(waiting.running);
      t, yielded', atYield' := Drain(cfg, cases, waiting, done, yielded, atYield);
    }
  }

  lemma NextIsDrained(cases: seq<Case>, waits: seq<Wait>, w: Wait, s: State, yielded: nat)
    requires s.pending == w.state.pending && |s.running| + yielded == |w.state.running| + w.before
    ensures Next(cases, waits + [w], s, yielded)
  {
  }

  // ---------- one worker ----------

  /** Some model accepts each case; with one worker no lock is ever held when a case could start. */
  ghost predicate Unhindered(cfg: Config, cases: seq<Case>) {
    forall c :: c in cases ==> Servable(cfg, c)
  }

  /** Where nothing runs, exactly the cases that can never be served have to wait. */
  lemma WaitsAlone(cfg: Config, c: Case)
    ensures Waits(cfg, [], c) <==> !Servable(cfg, c)
  {
    WaitsMeans(cfg, [], c);
    assert forall m :: RunningOn([], m) == 0;
  }

  lemma WaitsMeans(cfg: Config, running: seq<Slot>, c: Case)
    ensures Waits(cfg, running, c) <==>
            || (c.resourceLock != "" && exists i :: 0 <= i < |running| && running[i].job.resourceLock == c.resourceLock)
            || (NeedsModel(cfg, c) && forall m :: m in ModelsFor(cfg, c) ==> Limit(cfg, c, m) <= RunningOn(running, m))
  {
    if c.name in cfg.pins {
      assert forall m :: m in ModelsFor(cfg, c) <==> m in [cfg.pins[c.name]];
    }
  }

  lemma {:induction false} MarkedAt(cases: seq<Case>, marks: seq<bool>, j: nat)
    requires |cases| == |marks| && j < |marks| && marks[j] && Started(marks) <= 1
    ensures Marked(cases, marks, true) == [cases[j]]
    ensures Marked(cases, marks, false) == cases[..j] + cases[j + 1..]
  {
    var n := |marks| - 1;
    if j < n {
      StartedOnce(marks[..n], j);
      MarkedAt(cases[..n], marks[..n], j);
      assert cases[..j] + cases[j + 1..] == (cases[..n][..j] + cases[..n][j + 1..]) + [cases[n]];
    } else {
      NoneStarted(cases[..n], marks[..n]);
      assert cases[..n] + cases[n + 1..] == cases[..n];
    }
  }

  lemma {:induction false} StartedOnce(marks: seq<bool>, j: nat)
    requires j < |marks| && marks[j]
    ensures Started(marks) >= 1
  {
    if j < |marks| - 1 { StartedOnce(marks[..|marks| - 1], j); }
  }

  lemma {:induction false} NoneStarted(cases: seq<Case>, marks: seq<bool>)
    requires |cases| == |marks| && Started(marks) == 0
    ensures Marked(cases, marks, true) == [] && Marked(cases, marks, false) == cases
    ensures forall j :: 0 <= j < |marks| ==> !marks[j]
  {
    if cases != [] {
      var n := |cases| - 1;
      NoneStarted(cases[..n], marks[..n]);
      assert cases == cases[..n] + [cases[n]];
    }
  }

  lemma {:induction false} MarkedCount(cases: seq<Case>, marks: seq<bool>)
    requires |cases| == |marks|
    ensures |Marked(cases, marks, true)| == Started(marks)
    ensures Started(marks) > 0 ==> exists j :: 0 <= j < |marks| && marks[j]
  {
    if cases != [] {
      var n := |cases| - 1;
      MarkedCount(cases[..n], marks[..n]);
      if Started(marks[..n]) > 0 {
        var j :| 0 <= j < n && marks[..n][j];
        assert marks[j];
      }
    }
  }

  /** With one worker and a model for every case, a pass starts the first pending case. */
  lemma OneStarts(cfg: Config, cases: seq<Case>, s: State, t: State, marks: seq<bool>)
    requires cfg.jobs == 1 && Unhindered(cfg, cases) && s.running == [] && s.pending != []
    requires (forall c :: c in s.pending ==> c in cases) && InOrder(cfg, s, t, marks) && |t.running| <= 1
              && Maximal(cfg, t)
    ensures |t.running| == 1 && t.running[0].job == s.pending[0] && t.pending == s.pending[1..]
  {
    hide Waits, Servable;
    MarkedCount(s.pending, marks);
    assert t.running[0..] == t.running && |Jobs(t.running)| == |t.running|;
    if Started(marks) == 0 {
      NoneStarted(s.pending, marks);
      assert s.pending[0] in t.pending && t.running == [];
      WaitsAlone(cfg, s.pending[0]);
    }
    var j :| 0 <= j < |marks| && marks[j];
    MarkedAt(s.pending, marks, j);
    if j > 0 {
      FirstMark(marks, j);
      assert WaitsThen(cfg, s.pending, t.running, 0, marks, 0, j);
      assert t.running[..0] == [] && s.pending[0] in s.pending;
      WaitsAlone(cfg, s.pending[0]);
    }
    assert Jobs(t.running)[0] == s.pending[0];
  }

  /** When only one case is started, none before it is. */
  lemma {:induction false} FirstMark(marks: seq<bool>, j: nat)
    requires 0 < j < |marks| && marks[j] && Started(marks) <= 1
    ensures !marks[0] && Started(marks[..j]) == 0
  {
    var n := |marks| - 1;
    if j < n {
      FirstMark(marks[..n], j);
      assert marks[..n][..j] == marks[..j];
    } else {
      assert marks[..j] == marks[..n];
      if marks[0] { StartedOnce(marks[..n], 0); }
    }
  }

  lemma {:induction false} OneByOne(cfg: Config, cases: seq<Case>, yielded: seq<Slot>, waits: seq<Wait>, j: nat)
    requires cfg.jobs == 1 && Unhindered(cfg, cases) && GoodWaits(cfg, cases, yielded, waits)
    requires j < |waits| && |yielded| == |cases|
    ensures waits[j].before == j < |cases|
    ensures waits[j].from.running == [] && waits[j].from.pending == cases[j..]
    ensures |waits[j].state.running| == 1 && waits[j].state.running[0].job == cases[j]
    ensures waits[j].state.pending == cases[j + 1..]
  {
    hide Waits, Servable, Inv, Maximal, InOrder, Conserved;
    if j > 0 {
      OneByOne(cfg, cases, yielded, waits, j - 1);
      assert Drained(waits[j - 1], waits[j].from, waits[j].before);
      assert After(waits, j - 1, |yielded|) == waits[j].before;
    }
    assert GoodWait(cfg, cases, yielded, waits[j]);
    OneAt(cfg, cases, yielded, waits[j], j);
  }

  lemma OneAt(cfg: Config, cases: seq<Case>, yielded: seq<Slot>, w: Wait, j: nat)
    requires cfg.jobs == 1 && Unhindered(cfg, cases) && GoodWait(cfg, cases, yielded, w)
    requires w.before == j <= |cases| && w.from.running == [] && w.from.pending == cases[j..]
    ensures j < |cases| && |w.state.running| == 1 && w.state.running[0].job == cases[j]
    ensures w.state.pending == cases[j + 1..]
  {
    hide Waits, Servable, Unhindered;
    OneStarts(cfg, cases, w.from, w.state, w.marks);
    assert cases[j..][1..] == cases[j + 1..];
  }

  /** With one worker and a model for every case they are yielded in the order in which they were submitted. */
  lemma OneWorkerKeepsOrder(cfg: Config, cases: seq<Case>, yielded: seq<Slot>, waits: seq<Wait>)
    requires cfg.jobs == 1 && Unhindered(cfg, cases) && GoodWaits(cfg, cases, yielded, waits) && |yielded| == |cases|
    ensures Jobs(yielded) == cases
  {
    hide GoodWaits, Unhindered;
    forall i | 0 <= i < |cases| ensures Jobs(yielded)[i] == cases[i] {
      YieldedInTurn(cfg, cases, yielded, waits, i);
    }
  }

  lemma YieldedInTurn(cfg: Config, cases: seq<Case>, yielded: seq<Slot>, waits: seq<Wait>, i: nat)
    requires cfg.jobs == 1 && Unhindered(cfg, cases) && GoodWaits(cfg, cases, yielded, waits) && |yielded| == |cases|
    requires i < |cases|
    ensures yielded[i].job == cases[i]
  {
    hide *;
    AsManyWaits(cfg, cases, yielded, waits);
    OneByOne(cfg, cases, yielded, waits, i);
    if i + 1 < |waits| { OneByOne(cfg, cases, yielded, waits, i + 1); }
    BatchHolds(cfg, cases, yielded, waits, i);
  }

  lemma AsManyWaits(cfg: Config, cases: seq<Case>, yielded: seq<Slot>, waits: seq<Wait>)
    requires cfg.jobs == 1 && Unhindered(cfg, cases) && GoodWaits(cfg, cases, yielded, waits) && |yielded| == |cases|
    ensures |waits| == |cases|
  {
    hide GoodWait, Unhindered, Chained, InBatch;
    if waits != [] {
      var last := |waits| - 1;
      OneByOne(cfg, cases, yielded, waits, last);
      assert After(waits, last, |yielded|) == |yielded|;
    }
  }

  lemma BatchHolds(cfg: Config, cases: seq<Case>, yielded: seq<Slot>, waits: seq<Wait>, i: nat)
    requires GoodWaits(cfg, cases, yielded, waits) && i < |waits| && i < |yielded|
    requires waits[i].before == i && (i + 1 < |waits| ==> waits[i + 1].before == i + 1)
    ensures yielded[i] in waits[i].state.running
  {
    hide GoodWait, Chained, BatchSizes;
    assert InBatch(yielded, waits, i, i);
  }

  method RunAll(cfg: Config, cases: seq<Case>)
    returns (outcome: Outcome, yielded: seq<Slot>, atYield: seq<State>, waits: seq<Wait>)
    requires cfg.jobs > 0
    ensures outcome == if forall c :: c in cases ==> Servable(cfg, c) then Finished else NoCapacity
    ensures forall c :: multiset(Jobs(yielded))[c] == if Servable(cfg, c) then multiset(cases)[c] else 0
    ensures GoodTrace(cfg, cases, yielded, atYield) && GoodWaits(cfg, cases, yielded, waits)
    ensures outcome == Finished ==> |yielded| == |cases|
  {
    hide *;
    var s := State(cases, [], {}, map[], map[], 0);
    yielded, atYield, waits := [], [], [];
    InitiallyRunning(cfg, cases);
    while s.pending != [] || s.running != []
      invariant Running(cfg, cases, s, yielded, atYield)
      invariant GoodWaits(cfg, cases, yielded, waits) && Advanced(yielded, waits) && Next(cases, waits, s, |yielded|)
      decreases 2 * |s.pending| + |s.running|
    {
      var from, before := s, yielded;
      var waiting, marks;
      waiting, marks, s, yielded, atYield := Round(cfg, cases, s, yielded, atYield);
      var w := Wait(from, waiting, marks, |before|);
      WaitedOnceMore(cfg, cases, before, waits, w, yielded);
      NextIsDrained(cases, waits, w, s, |yielded|);
      waits := waits + [w];
      if waiting.running == [] {
        RunWhenIdle(cfg, cases, s, yielded, atYield);
        return NoCapacity, yielded, atYield, waits;
      }
    }
    RunWhenIdle(cfg, cases, s, yielded, atYield);
    outcome := Finished;
  }

  /** The whole run; `waits` are the states in which the scheduler goes to wait, one for each batch of yields. */
  method ScheduledCases(cfg: Config, cases: seq<Case>)
    returns (outcome: Outcome, yielded: seq<Slot>, atYield: seq<State>, waits: seq<Wait>)
    // Refusals, in the order in which they are checked; an empty case list is never refused.
    ensures cases == [] ==> outcome == Finished
    ensures outcome == BadPin <==>
              exists c :: c in cases && c.name in cfg.pins && cfg.pins[c.name] != ""
                          && !(cfg.enabled && c.live
                               && cfg.pins[c.name] in (if c.multimodal then cfg.multimodalModels else cfg.textModels))
    ensures outcome == BadWorkers <==> cases != [] && cfg.jobs <= 0 && forall c :: c in cases ==> PinAccepted(cfg, c)
    ensures outcome in {BadPin, BadWorkers} ==> yielded == []
    // "No model capacity" is raised exactly when some case could never run.
    ensures outcome in {Finished, NoCapacity} ==>
              (outcome == NoCapacity <==> exists c :: c in cases && !Servable(cfg, c))
    // Exactly the servable cases are yielded, each as often as it was submitted.
    ensures outcome in {Finished, NoCapacity} ==>
              forall c :: multiset(Jobs(yielded))[c] == if Servable(cfg, c) then multiset(cases)[c] else 0
    // Each runs on a model of its own pool, unless an empty pin strays.
    ensures outcome in {Finished, NoCapacity} ==>
              (PlacedInPool(cfg, yielded) <==> forall c :: c in cases && Servable(cfg, c) ==> !StrayPin(cfg, c))
    // With one worker they are yielded in the order in which they were submitted.
    ensures outcome == Finished && cfg.jobs == 1 ==> Jobs(yielded) == cases
    // What holds throughout the run.
    ensures GoodTrace(cfg, cases, yielded, atYield) && GoodWaits(cfg, cases, yielded, waits)
  {
    yielded, atYield, waits := [], [], [];
    assert Jobs(yielded) == [];
    if cases == [] {
      return Finished, yielded, atYield, waits;
    }
    var ok := PinsAccepted(cfg, cases);
    if !ok {
      return BadPin, yielded, atYield, waits;
    }
    if cfg.jobs <= 0 {
      return BadWorkers, yielded, atYield, waits;
    }
    outcome, yielded, atYield, waits := RunAll(cfg, cases);
    PlacedInPoolIff(cfg, cases, yielded);
    if outcome == Finished && cfg.jobs == 1 {
      OneWorkerKeepsOrder(cfg, cases, yielded, waits);
    }
  }

  /** When nothing runs and every pending case is blocked, the pending cases are the unservable ones. */
  lemma YieldedWhenIdle(cfg: Config, cases: seq<Case>, s: State, yielded: seq<Slot>)
    requires Inv(cfg, cases, s) && Conserved(cases, s, yielded) && s.running == [] && cfg.jobs > 0
    requires Maximal(cfg, s)
    requires forall i :: 0 <= i < |yielded| ==> SlotOk(cfg, cases, yielded[i])
    ensures forall c :: c in s.pending ==> c in cases && !Servable(cfg, c)
    ensures s.pending == [] ==> forall c :: c in cases ==> Servable(cfg, c)
    ensures forall c :: multiset(Jobs(yielded))[c] == if Servable(cfg, c) then multiset(cases)[c] else 0
  {
    assert Jobs(s.running) == [];
    forall c
      ensures multiset(Jobs(yielded))[c] == if Servable(cfg, c) then multiset(cases)[c] else 0
      ensures c in s.pending ==> !Servable(cfg, c)
      ensures s.pending == [] && c in cases ==> Servable(cfg, c)
    {
      WaitsAlone(cfg, c);
      if c in Jobs(yielded) {
        var i :| 0 <= i < |Jobs(yielded)| && Jobs(yielded)[i] == c;
        assert SlotOk(cfg, cases, yielded[i]);
      }
      assert c in multiset(cases) <==> c in cases;
      assert c in multiset(s.pending) <==> c in s.pending;
      assert c in multiset(Jobs(yielded)) <==> c in Jobs(yielded);
    }
  }

  // ---------- what the invariant means for the shipped pools ----------

  /** Whatever the configured capacity, at most two cases share the diagnosis model. */
  lemma PrimeAtMostTwo(cfg: Config, cases: seq<Case>, s: State)
    requires Inv(cfg, cases, s)
    ensures Count(s.active, PRIME) <= 2
  {
    assert LimitedTo(cfg, cases, PRIME, 2);
  }

  /** A live case whose empty pin passes validation although no model of its pool has an empty name. */
  predicate StrayPin(cfg: Config, c: Case) {
    NeedsModel(cfg, c) && c.name in cfg.pins && cfg.pins[c.name] == "" && "" !in Pool(cfg, c)
  }

  /** Every placed case runs on a model of its own pool. */
  ghost predicate PlacedInPool(cfg: Config, slots: seq<Slot>) {
    forall i :: 0 <= i < |slots| && slots[i].model.Some? ==> slots[i].model.value in Pool(cfg, slots[i].job)
  }

  /** The validation lets an empty pin through, and the case then runs on a model with an empty name. */
  lemma EmptyPinStrays(pool: string, jobs: int)
    requires pool != "" && jobs > 0
    ensures var c := Case("a", true, false, "");
            var cfg := Config(1, true, [pool], [], jobs, 0, map["a" := ""]);
            PinAccepted(cfg, c) && StrayPin(cfg, c) && Servable(cfg, c) && ModelsFor(cfg, c) == [""]
  {
    var c := Case("a", true, false, "");
    var cfg := Config(1, true, [pool], [], jobs, 0, map["a" := ""]);
    assert ModelsFor(cfg, c)[0] in ModelsFor(cfg, c) && 0 < Limit(cfg, c, "");
  }

  /**
   A run that was not refused keeps every case on its own pool exactly when no case that can be served has a stray
   empty pin.
   */
  lemma PlacedInPoolIff(cfg: Config, cases: seq<Case>, yielded: seq<Slot>)
    requires forall c :: c in cases ==> PinAccepted(cfg, c)
    requires forall i :: 0 <= i < |yielded| ==> SlotOk(cfg, cases, yielded[i])
    requires forall c :: multiset(Jobs(yielded))[c] == if Servable(cfg, c) then multiset(cases)[c] else 0
    ensures PlacedInPool(cfg, yielded) <==> forall c :: c in cases && Servable(cfg, c) ==> !StrayPin(cfg, c)
  {
    hide Servable, Limit;
    if c :| c in cases && Servable(cfg, c) && StrayPin(cfg, c) {
      assert c in multiset(cases);
      assert c in multiset(Jobs(yielded));
      var i :| 0 <= i < |Jobs(yielded)| && Jobs(yielded)[i] == c;
      assert SlotOk(cfg, cases, yielded[i]);
    } else {
      forall i | 0 <= i < |yielded| && yielded[i].model.Some?
        ensures yielded[i].model.value in Pool(cfg, yielded[i].job)
      {
        var c := yielded[i].job;
        assert SlotOk(cfg, cases, yielded[i]);
        assert Jobs(yielded)[i] == c;
        assert c in multiset(Jobs(yielded));
      }
    }
  }

  /**
   With disjoint pools each pool's models stay within that pool's capacity, unless a stray pin uses the other pool's
   empty name.
   */
  lemma PoolCapacities(cfg: Config, cases: seq<Case>, s: State, model: string)
    requires Inv(cfg, cases, s)
    requires forall c :: c in cases ==> PinAccepted(cfg, c)
    requires model == "" ==> forall c :: c in cases ==> !StrayPin(cfg, c)
    requires forall m :: m in cfg.textModels ==> m !in cfg.multimodalModels
    ensures model in cfg.textModels ==> Count(s.active, model) <= if cfg.textJobs > 0 then cfg.textJobs else 0
    ensures model in cfg.multimodalModels ==>
              Count(s.active, model) <= if cfg.multimodalJobs > 0 then cfg.multimodalJobs else 0
  {
    if model in cfg.textModels {
      assert LimitedTo(cfg, cases, model, if cfg.textJobs > 0 then cfg.textJobs else 0);
    } else if model in cfg.multimodalModels {
      assert LimitedTo(cfg, cases, model, if cfg.multimodalJobs > 0 then cfg.multimodalJobs else 0);
    }
  }
}
