/**
 Subnet reservation across processes (scripts/e2e_question_driver.py, `reserve_network_subnet`).

 Any number of processes interleave at the granularity of one file-system operation. The lock is a bare
 directory: it records no owner, `mkdir` fails while it exists and `rmdir` removes it whoever made it.
 A process may give up, fail at any operation, or be killed at any point.
 */
module Reservation {
  import opened Wrappers
  import opened Cidr

  type Pid = nat

  datatype Request = Request(vpc: string, network: Block, occupied: seq<Block>, desired: Block, shared: bool)

  /** A registry entry that is not a list of network strings is `Malformed`. */
  datatype Entry = Malformed | Reserved(blocks: seq<Block>)

  datatype Registry = Absent | Corrupt | Table(entries: map<string, Entry>)

  /** How a call ends for its caller. */
  datatype Ending = Returned(subnet: Option<Block>) | Raised

  datatype Pc =
    | Start                                                // waiting for the lock
    | Locked                                               // mkdir succeeded
    | Chosen(entries: map<string, Entry>, subnet: Block)   // registry read, block chosen
    | Written(entries: map<string, Entry>, subnet: Block)  // temporary file complete
    | Closing(result: Ending)                              // in the finally block
    | Abandoned                                            // gone, the lock directory stays behind
    | Finished(result: Ending)

  datatype System = System(lock: bool, registry: Registry, pcs: map<Pid, Pc>)

  datatype Action =
    Direct | Acquire | GiveUp | ReadAndChoose | WriteTemporary | Replace | Fail | Release | CleanupFails | Kill

  predicate Holding(pc: Pc) {
    !pc.Start? && !pc.Finished?
  }

  // ---------- one step ----------

  ghost predicate RequestOk(r: Request) {
    && WellFormed(r.network) && WellFormed(r.desired)
    && forall b :: b in r.occupied ==> WellFormed(b)
  }

  function EntriesOf(registry: Registry): map<string, Entry>
    requires registry != Corrupt
  {
    if registry == Absent then map[] else registry.entries
  }

  function EntryOf(registry: Registry, vpc: string): Entry
    requires registry != Corrupt
  {
    if vpc in EntriesOf(registry) then EntriesOf(registry)[vpc] else Reserved([])
  }

  ghost predicate BlocksOk(blocks: seq<Block>) {
    && (forall b :: b in blocks ==> WellFormed(b))
    && (forall i, j :: 0 <= i < j < |blocks| ==> !Overlaps(blocks[i], blocks[j]))
  }

  /** What the file may hold initially: well-formed, pairwise disjoint reservations for every VPC. */
  ghost predicate RegistryOk(registry: Registry) {
    registry.Table? ==>
      forall v :: v in registry.entries && registry.entries[v].Reserved? ==> BlocksOk(registry.entries[v].blocks)
  }

  ghost function ReadStep(r: Request, registry: Registry): Pc
    requires RequestOk(r) && RegistryOk(registry)
  {
    if registry == Corrupt || EntryOf(registry, r.vpc) == Malformed then Closing(Raised)
    else
      var reserved := EntryOf(registry, r.vpc).blocks;
      match Choose(r.network, r.occupied, reserved, r.desired)
      case Err(_) => Closing(Raised)
      case Ok(None) => Closing(Returned(None))
      case Ok(Some(b)) => Chosen(EntriesOf(registry)[r.vpc := Reserved(reserved + [b])], b)
  }

  ghost function DirectStep(r: Request): Pc
    requires RequestOk(r)
  {
    match Choose(r.network, r.occupied, [], r.desired)
    case Err(_) => Finished(Raised)
    case Ok(b) => Finished(Returned(b))
  }

  /** The new program counter, or None when the action is not possible there. */
  ghost function Move(r: Request, s: System, pc: Pc, a: Action): Option<Pc>
    requires RequestOk(r) && RegistryOk(s.registry)
  {
    match a
    case Direct => if pc.Start? && !r.shared then Some(DirectStep(r)) else None
    case Acquire => if pc.Start? && r.shared && !s.lock then Some(Locked) else None
    case GiveUp => if pc.Start? then Some(Finished(Raised)) else None
    case ReadAndChoose => if pc.Locked? then Some(ReadStep(r, s.registry)) else None
    case WriteTemporary => if pc.Chosen? then Some(Written(pc.entries, pc.subnet)) else None
    case Replace => if pc.Written? then Some(Closing(Returned(Some(pc.subnet)))) else None
    case Fail => if pc.Locked? || pc.Chosen? || pc.Written? then Some(Closing(Raised)) else None
    case Release => if pc.Closing? then Some(Finished(pc.result)) else None
    case CleanupFails => if pc.Closing? then Some(Abandoned) else None
    case Kill => if pc.Finished? then None else if pc.Start? then Some(Finished(Raised)) else Some(Abandoned)
  }

  ghost function Step(reqs: map<Pid, Request>, s: System, p: Pid, a: Action): System
    requires p in reqs && RequestOk(reqs[p]) && RegistryOk(s.registry)
  {
    if p !in s.pcs then s
    else
      match Move(reqs[p], s, s.pcs[p], a)
      case None => s
      case Some(pc) =>
        System(
          if a == Acquire then true else if a == Release then false else s.lock,
          if a == Replace then Table(s.pcs[p].entries) else s.registry,
          s.pcs[p := pc])
  }

  // ---------- what every step keeps ----------

  ghost predicate Usable(r: Request, b: Block)
    requires RequestOk(r)
  {
    WellFormed(b) && SubnetOf(b, r.network) && forall o :: o in r.occupied ==> !Overlaps(b, o)
  }

  ghost predicate Recorded(registry: Registry, vpc: string, b: Block) {
    registry.Table? && vpc in registry.entries && registry.entries[vpc].Reserved? && b in registry.entries[vpc].blocks
  }

  /** The block that a process has put into the registry, if it got that far. */
  ghost function Granted(pc: Pc): Option<Block> {
    if (pc.Closing? || pc.Finished?) && pc.result.Returned? then pc.result.subnet else None
  }

  /** A process between reading and replacing still sees the current registry. */
  ghost predicate Current(r: Request, registry: Registry, pc: Pc)
    requires RequestOk(r)
  {
    pc.Chosen? || pc.Written? ==>
      && registry != Corrupt && EntryOf(registry, r.vpc).Reserved?
      && pc.entries == EntriesOf(registry)[r.vpc := Reserved(EntryOf(registry, r.vpc).blocks + [pc.subnet])]
      && Usable(r, pc.subnet)
      && (forall b :: b in EntryOf(registry, r.vpc).blocks ==> WellFormed(b) && !Overlaps(b, pc.subnet))
  }

  ghost predicate GrantOk(r: Request, registry: Registry, pc: Pc)
    requires RequestOk(r)
  {
    Granted(pc).Some? ==> Usable(r, Granted(pc).value) && (r.shared ==> Recorded(registry, r.vpc, Granted(pc).value))
  }

  /** At most one process holds the ownerless lock, and the directory exists exactly while one does. */
  ghost predicate LockInv(reqs: map<Pid, Request>, s: System) {
    && s.pcs.Keys == reqs.Keys
    && (forall p :: p in s.pcs && Holding(s.pcs[p]) ==> s.lock && reqs[p].shared)
    && (forall p, q :: p in s.pcs && q in s.pcs && Holding(s.pcs[p]) && Holding(s.pcs[q]) ==> p == q)
    && (s.lock ==> exists p :: p in s.pcs && Holding(s.pcs[p]))
  }

  ghost predicate ProcessInv(reqs: map<Pid, Request>, s: System) {
    && s.pcs.Keys == reqs.Keys
    && (forall p :: p in reqs ==> RequestOk(reqs[p]))
    && (forall p :: p in s.pcs ==> Current(reqs[p], s.registry, s.pcs[p]) && GrantOk(reqs[p], s.registry, s.pcs[p]))
  }

  ghost predicate Inv(reqs: map<Pid, Request>, s: System) {
    LockInv(reqs, s) && RegistryOk(s.registry) && ProcessInv(reqs, s) && GrantsDisjoint(reqs, s)
  }

  /** No two processes of one VPC are granted overlapping blocks. */
  ghost predicate GrantsDisjoint(reqs: map<Pid, Request>, s: System) {
    forall p, q :: p in s.pcs && q in s.pcs && p in reqs && q in reqs && p != q
                   && reqs[p].shared && reqs[q].shared && reqs[p].vpc == reqs[q].vpc
                   && Granted(s.pcs[p]).Some? && Granted(s.pcs[q]).Some?
      ==> var b, c := Granted(s.pcs[p]).value, Granted(s.pcs[q]).value;
          WellFormed(b) && WellFormed(c) && !Overlaps(b, c)
  }

  /** Entries are only ever appended to, and an unreadable file is never overwritten. */
  ghost predicate Extends(before: Registry, after: Registry) {
    && (before == Corrupt ==> after == Corrupt)
    && (before.Table? ==>
          && after.Table?
          && forall v :: v in before.entries ==>
               && v in after.entries
               && (before.entries[v] == Malformed ==> after.entries[v] == Malformed)
               && (before.entries[v].Reserved? ==>
                     after.entries[v].Reserved? && before.entries[v].blocks <= after.entries[v].blocks))
  }

  lemma ReadIsCurrent(r: Request, registry: Registry)
    requires RequestOk(r) && RegistryOk(registry)
    ensures Current(r, registry, ReadStep(r, registry)) && Granted(ReadStep(r, registry)) == None
    ensures Holding(ReadStep(r, registry))
  {
    var pc := ReadStep(r, registry);
    if pc.Chosen? {
      var reserved := EntryOf(registry, r.vpc).blocks;
      ChooseIsSound(r.network, r.occupied, reserved, r.desired);
      forall b | b in reserved ensures !Overlaps(b, pc.subnet) {
        OverlapIsNesting(b, pc.subnet);
      }
    }
  }

  lemma DirectIsUsable(r: Request)
    requires RequestOk(r) && !r.shared
    ensures DirectStep(r).Finished? && GrantOk(r, Absent, DirectStep(r))
    ensures DirectStep(r).result == Raised <==> 24 < r.network.prefix < 32
    ensures DirectStep(r).result.Returned? ==>
              Choose(r.network, r.occupied, [], r.desired) == Ok(DirectStep(r).result.subnet)
  {
    ChooseIsSound(r.network, r.occupied, [], r.desired);
  }

  /** Replacing the file appends the chosen block and nothing else. */
  lemma ReplaceAppends(r: Request, registry: Registry, pc: Pc)
    requires RequestOk(r) && RegistryOk(registry) && pc.Written? && Current(r, registry, pc)
    ensures RegistryOk(Table(pc.entries)) && Extends(registry, Table(pc.entries))
    ensures Recorded(Table(pc.entries), r.vpc, pc.subnet)
    ensures forall v, b :: Recorded(registry, v, b) ==> Recorded(Table(pc.entries), v, b)
  {
    var blocks := EntryOf(registry, r.vpc).blocks;
    assert BlocksOk(blocks + [pc.subnet]);
    assert pc.subnet in blocks + [pc.subnet];
    assert pc.entries[r.vpc].blocks == blocks + [pc.subnet];
  }

  /** A block chosen against the current registry is disjoint from every block already granted in its VPC. */
  lemma ChosenAvoidsGranted(reqs: map<Pid, Request>, s: System, p: Pid, q: Pid)
    requires Inv(reqs, s) && p in reqs && q in reqs && s.pcs[p].Written? && p != q
    requires reqs[q].shared && reqs[p].vpc == reqs[q].vpc && Granted(s.pcs[q]).Some?
    ensures var b, c := s.pcs[p].subnet, Granted(s.pcs[q]).value;
            WellFormed(b) && WellFormed(c) && !Overlaps(b, c) && !Overlaps(c, b)
  {
    var b, c := s.pcs[p].subnet, Granted(s.pcs[q]).value;
    assert Recorded(s.registry, reqs[q].vpc, c) by { assert GrantOk(reqs[q], s.registry, s.pcs[q]); }
    assert Current(reqs[p], s.registry, s.pcs[p]);
    assert c in EntryOf(s.registry, reqs[p].vpc).blocks;
    OverlapIsNesting(b, c);
  }

  lemma StepKeepsLock(reqs: map<Pid, Request>, s: System, p: Pid, a: Action)
    requires LockInv(reqs, s) && p in reqs && RequestOk(reqs[p]) && RegistryOk(s.registry)
    ensures LockInv(reqs, Step(reqs, s, p, a))
  {
    hide RequestOk, RegistryOk, ReadStep, DirectStep, GrantOk, Current;
    var t := Step(reqs, s, p, a);
    if a == ReadAndChoose { ReadIsCurrent(reqs[p], s.registry); }
    if a == Direct && !reqs[p].shared { DirectIsUsable(reqs[p]); }
    if t.lock && !Holding(t.pcs[p]) {
      var q :| q in s.pcs && Holding(s.pcs[q]);
      assert Holding(t.pcs[q]);
    }
  }

  /** A step other than Replace leaves the registry alone and grants nothing new to a sharing process. */
  lemma QuietMove(r: Request, s: System, pc: Pc, a: Action)
    requires RequestOk(r) && RegistryOk(s.registry) && a != Replace && Move(r, s, pc, a).Some?
    requires Current(r, s.registry, pc) && GrantOk(r, s.registry, pc)
    ensures Current(r, s.registry, Move(r, s, pc, a).value) && GrantOk(r, s.registry, Move(r, s, pc, a).value)
    ensures r.shared && Granted(Move(r, s, pc, a).value).Some? ==> Granted(pc) == Granted(Move(r, s, pc, a).value)
  {
    if a == ReadAndChoose { ReadIsCurrent(r, s.registry); }
    if a == Direct { DirectIsUsable(r); }
  }

  lemma ReplaceMove(reqs: map<Pid, Request>, s: System, p: Pid, q: Pid)
    requires Inv(reqs, s) && p in reqs && q in reqs && s.pcs[p].Written?
    ensures var t := Step(reqs, s, p, Replace);
            Current(reqs[q], t.registry, t.pcs[q]) && GrantOk(reqs[q], t.registry, t.pcs[q])
  {
    ReplaceAppends(reqs[p], s.registry, s.pcs[p]);
    assert Current(reqs[q], s.registry, s.pcs[q]) && GrantOk(reqs[q], s.registry, s.pcs[q]);
    if p != q {
      assert !Holding(s.pcs[q]);
    }
  }

  lemma StepKeepsProcesses(reqs: map<Pid, Request>, s: System, p: Pid, a: Action)
    requires Inv(reqs, s) && p in reqs
    ensures ProcessInv(reqs, Step(reqs, s, p, a)) && RegistryOk(Step(reqs, s, p, a).registry)
  {
    hide RequestOk, RegistryOk, ReadStep, DirectStep, GrantOk, Current, GrantsDisjoint;
    var t := Step(reqs, s, p, a);
    if Move(reqs[p], s, s.pcs[p], a).Some? {
      if a == Replace {
        ReplaceAppends(reqs[p], s.registry, s.pcs[p]);
        forall q | q in t.pcs
          ensures Current(reqs[q], t.registry, t.pcs[q]) && GrantOk(reqs[q], t.registry, t.pcs[q])
        {
          ReplaceMove(reqs, s, p, q);
        }
      } else {
        QuietMove(reqs[p], s, s.pcs[p], a);
      }
    }
  }

  lemma StepKeepsGrants(reqs: map<Pid, Request>, s: System, p: Pid, a: Action)
    requires Inv(reqs, s) && p in reqs
    ensures GrantsDisjoint(reqs, Step(reqs, s, p, a))
  {
    hide Overlaps, SubnetOf, WellFormed, ReadStep, DirectStep, Usable, Recorded, EntryOf, RegistryOk;
    var t := Step(reqs, s, p, a);
    if Move(reqs[p], s, s.pcs[p], a).Some? {
      if a == Replace {
        forall q | q in s.pcs && q != p && reqs[q].shared && reqs[p].vpc == reqs[q].vpc && Granted(s.pcs[q]).Some?
          ensures var b, c := s.pcs[p].subnet, Granted(s.pcs[q]).value;
                  WellFormed(b) && WellFormed(c) && !Overlaps(b, c) && !Overlaps(c, b)
        {
          ChosenAvoidsGranted(reqs, s, p, q);
        }
      } else {
        QuietMove(reqs[p], s, s.pcs[p], a);
      }
    }
  }

  /** One step of any process keeps every safety property and only appends to the registry. */
  lemma StepKeepsInv(reqs: map<Pid, Request>, s: System, p: Pid, a: Action)
    requires Inv(reqs, s) && p in reqs
    ensures Inv(reqs, Step(reqs, s, p, a)) && Extends(s.registry, Step(reqs, s, p, a).registry)
  {
    StepKeepsLock(reqs, s, p, a);
    StepKeepsProcesses(reqs, s, p, a);
    StepKeepsGrants(reqs, s, p, a);
    if a == Replace && s.pcs[p].Written? {
      ReplaceAppends(reqs[p], s.registry, s.pcs[p]);
    }
  }

  // ---------- whole runs ----------

  datatype Event = Event(pid: Pid, action: Action)

  ghost predicate Initial(reqs: map<Pid, Request>, s: System) {
    && !s.lock && RegistryOk(s.registry)
    && s.pcs.Keys == reqs.Keys
    && (forall p :: p in reqs ==> RequestOk(reqs[p]) && s.pcs[p] == Start)
  }

  /** The system after a run; a step by an unknown process or an impossible action changes nothing. */
  ghost function Run(reqs: map<Pid, Request>, s: System, events: seq<Event>): (t: System)
    requires Inv(reqs, s)
    ensures Inv(reqs, t) && Extends(s.registry, t.registry)
    decreases |events|
  {
    if events == [] then s
    else
      var e := events[0];
      if e.pid !in reqs then Run(reqs, s, events[1..])
      else
        StepKeepsInv(reqs, s, e.pid, e.action);
        var next := Step(reqs, s, e.pid, e.action);
        var t := Run(reqs, next, events[1..]);
        assert Extends(s.registry, t.registry) by { ExtendsTransitive(s.registry, next.registry, t.registry); }
        t
  }

  lemma ExtendsTransitive(a: Registry, b: Registry, c: Registry)
    requires Extends(a, b) && Extends(b, c)
    ensures Extends(a, c)
  {
  }

  /** The directory is removed only by the one process that holds it. */
  lemma OnlyHolderReleases(reqs: map<Pid, Request>, s: System, p: Pid, a: Action)
    requires Inv(reqs, s) && p in reqs && s.lock && !Step(reqs, s, p, a).lock
    ensures Holding(s.pcs[p]) && forall q :: q in s.pcs && q != p ==> !Holding(s.pcs[q])
  {
    assert a == Release && s.pcs[p].Closing?;
  }

  /**
   From any initial state, after every interleaving: one process at most holds the lock; a subnet that was
   returned under the registry lies in its network, avoids the caller's occupied blocks and is recorded;
   reservations of one VPC are pairwise disjoint, and so are the subnets returned to different callers.
   */
  lemma ReservationsAreSafe(reqs: map<Pid, Request>, s: System, events: seq<Event>, p: Pid)
    requires Initial(reqs, s) && p in reqs
    ensures Inv(reqs, s)
    ensures var t := Run(reqs, s, events);
            && RegistryOk(t.registry) && t.pcs.Keys == reqs.Keys
            && (forall b :: t.pcs[p] == Finished(Returned(Some(b))) ==>
                  Usable(reqs[p], b) && (reqs[p].shared ==> Recorded(t.registry, reqs[p].vpc, b)))
            && (forall q :: q in reqs && q != p ==> !(Holding(t.pcs[p]) && Holding(t.pcs[q])))
            && (forall q, b, c :: q in reqs && q != p
                                  && t.pcs[p] == Finished(Returned(Some(b))) && t.pcs[q] == Finished(Returned(Some(c)))
                                  && reqs[p].shared && reqs[q].shared && reqs[p].vpc == reqs[q].vpc
                  ==> WellFormed(b) && WellFormed(c) && !Overlaps(b, c))
  {
    var t := Run(reqs, s, events);
    assert GrantOk(reqs[p], t.registry, t.pcs[p]);
    assert GrantsDisjoint(reqs, t);
  }

  /** When every process has come to an end, the lock is free exactly when none of them abandoned it. */
  lemma LockIsFreeAtTheEnd(reqs: map<Pid, Request>, s: System, events: seq<Event>)
    requires Initial(reqs, s)
    ensures Inv(reqs, s)
    ensures var t := Run(reqs, s, events);
            (forall p :: p in t.pcs ==> t.pcs[p].Finished? || t.pcs[p].Abandoned?) ==>
              (!t.lock <==> forall p :: p in t.pcs ==> !t.pcs[p].Abandoned?)
  {
  }

  // ---------- an abandoned lock ----------

  lemma AbandonedStep(reqs: map<Pid, Request>, s: System, p: Pid, q: Pid, a: Action)
    requires Inv(reqs, s) && p in reqs && q in reqs && s.pcs[p] == Abandoned
    ensures var t := Step(reqs, s, q, a);
            && t.lock && t.pcs[p] == Abandoned && t.registry == s.registry
            && (q != p && s.pcs[q] == Start && reqs[q].shared ==> t.pcs[q] in {Start, Finished(Raised)})
            && forall x :: x in s.pcs && x != q ==> t.pcs[x] == s.pcs[x]
  {
    hide RegistryOk, Current, GrantOk, GrantsDisjoint, ReadStep, DirectStep;
    if q != p { assert !Holding(s.pcs[q]); }
  }

  /**
   A process that dies while holding the lock leaves the directory behind for good: whatever happens later, the
   lock stays taken, nobody else gets hold of it, the registry does not change any more, and everybody who was
   still waiting goes on waiting or fails.
   */
  lemma {:induction false} AbandonedLockStays(reqs: map<Pid, Request>, s: System, events: seq<Event>, p: Pid)
    requires Inv(reqs, s) && p in reqs && s.pcs[p] == Abandoned
    ensures var t := Run(reqs, s, events);
            && t.lock && t.pcs[p] == Abandoned && t.registry == s.registry
            && (forall q :: q in t.pcs && q != p ==> !Holding(t.pcs[q]))
            && (forall q :: q in reqs && s.pcs[q] == Start && reqs[q].shared ==> t.pcs[q] in {Start, Finished(Raised)})
    decreases |events|
  {
    hide RegistryOk, GrantsDisjoint, Step, Current, GrantOk;
    if events != [] {
      var e := events[0];
      if e.pid in reqs {
        RunStep(reqs, s, events);
        AbandonedStep(reqs, s, p, e.pid, e.action);
        var next := Step(reqs, s, e.pid, e.action);
        AbandonedLockStays(reqs, next, events[1..], p);
        forall q | q in reqs && s.pcs[q] == Start && reqs[q].shared
          ensures Run(reqs, s, events).pcs[q] in {Start, Finished(Raised)}
        {
          if next.pcs[q] == Finished(Raised) { FinishedStays(reqs, next, events[1..], q); }
        }
      } else {
        AbandonedLockStays(reqs, s, events[1..], p);
      }
    }
  }

  lemma FinishedStep(reqs: map<Pid, Request>, s: System, p: Pid, a: Action, q: Pid)
    requires p in reqs && RequestOk(reqs[p]) && RegistryOk(s.registry) && q in s.pcs && s.pcs[q].Finished?
    ensures q in Step(reqs, s, p, a).pcs && Step(reqs, s, p, a).pcs[q] == s.pcs[q]
  {
  }

  lemma {:induction false} FinishedStays(reqs: map<Pid, Request>, s: System, events: seq<Event>, q: Pid)
    requires Inv(reqs, s) && q in reqs && s.pcs[q].Finished?
    ensures Run(reqs, s, events).pcs[q] == s.pcs[q]
    decreases |events|
  {
    hide RegistryOk, GrantsDisjoint, Step, Current, GrantOk;
    if events != [] {
      if events[0].pid in reqs {
        RunStep(reqs, s, events);
        FinishedStep(reqs, s, events[0].pid, events[0].action, q);
        FinishedStays(reqs, Step(reqs, s, events[0].pid, events[0].action), events[1..], q);
      } else {
        FinishedStays(reqs, s, events[1..], q);
      }
    }
  }

  /** In particular, killing the holder at any moment blocks everybody else for good. */
  lemma KilledHolderBlocks(reqs: map<Pid, Request>, s: System, events: seq<Event>, p: Pid)
    requires Inv(reqs, s) && p in reqs && Holding(s.pcs[p])
    ensures var t := Run(reqs, s, [Event(p, Kill)] + events);
            && t.lock && t.registry == s.registry
            && (forall q :: q in t.pcs && q != p ==> !Holding(t.pcs[q]))
            && (forall q :: q in reqs && s.pcs[q] == Start && reqs[q].shared ==> t.pcs[q] in {Start, Finished(Raised)})
  {
    hide LockInv, RegistryOk, GrantsDisjoint, Step, Current, GrantOk, Run;
    var all := [Event(p, Kill)] + events;
    RunStep(reqs, s, all);
    assert all[1..] == events;
    Killing(reqs, s, p);
    AbandonedLockStays(reqs, Step(reqs, s, p, Kill), events, p);
  }

  lemma Killing(reqs: map<Pid, Request>, s: System, p: Pid)
    requires p in reqs && RequestOk(reqs[p]) && RegistryOk(s.registry) && p in s.pcs && Holding(s.pcs[p])
    ensures Step(reqs, s, p, Kill) == s.(pcs := s.pcs[p := Abandoned])
  {
  }

  // ---------- an undisturbed process ----------

  ghost function Solo(p: Pid): seq<Event> {
    [Event(p, Acquire), Event(p, ReadAndChoose), Event(p, WriteTemporary), Event(p, Replace), Event(p, Release)]
  }

  lemma RunStep(reqs: map<Pid, Request>, s: System, events: seq<Event>)
    requires Inv(reqs, s) && events != [] && events[0].pid in reqs
    ensures Inv(reqs, Step(reqs, s, events[0].pid, events[0].action))
    ensures Run(reqs, s, events) == Run(reqs, Step(reqs, s, events[0].pid, events[0].action), events[1..])
  {
    StepKeepsInv(reqs, s, events[0].pid, events[0].action);
  }

  /** What one process on its own makes of the registry and what it returns. */
  ghost function Alone(r: Request, registry: Registry): (Registry, Ending)
    requires RequestOk(r) && RegistryOk(registry)
  {
    if registry == Corrupt || EntryOf(registry, r.vpc) == Malformed then (registry, Raised)
    else
      var reserved := EntryOf(registry, r.vpc).blocks;
      match Choose(r.network, r.occupied, reserved, r.desired)
      case Err(_) => (registry, Raised)
      case Ok(None) => (registry, Returned(None))
      case Ok(Some(b)) => (Table(EntriesOf(registry)[r.vpc := Reserved(reserved + [b])]), Returned(Some(b)))
  }

  /** Everything after reading: an early end is only cleaned up, a chosen block is written and recorded. */
  lemma AfterReading(reqs: map<Pid, Request>, s: System, p: Pid)
    requires p in reqs && RequestOk(reqs[p]) && RegistryOk(s.registry)
    requires p in s.pcs && s.lock && (s.pcs[p].Closing? || s.pcs[p].Chosen?)
    requires s.pcs[p].Chosen? ==> RegistryOk(Table(s.pcs[p].entries))
    ensures var t := Step(reqs, Step(reqs, s, p, WriteTemporary), p, Replace);
            && RegistryOk(t.registry)
            && Step(reqs, t, p, Release) ==
               if s.pcs[p].Closing? then System(false, s.registry, s.pcs[p := Finished(s.pcs[p].result)])
               else System(false, Table(s.pcs[p].entries), s.pcs[p := Finished(Returned(Some(s.pcs[p].subnet)))])
  {
    hide RequestOk, RegistryOk;
    var pcs := s.pcs;
    if pcs[p].Closing? {
      assert Step(reqs, s, p, WriteTemporary) == s && Step(reqs, s, p, Replace) == s;
    } else {
      var entries, b := pcs[p].entries, pcs[p].subnet;
      var written := System(true, s.registry, pcs[p := Written(entries, b)]);
      var replaced := System(true, Table(entries), pcs[p := Closing(Returned(Some(b)))]);
      assert Step(reqs, s, p, WriteTemporary) == written;
      assert Step(reqs, written, p, Replace) == replaced;
    }
  }

  lemma SoloRun(reqs: map<Pid, Request>, s: System, p: Pid)
    requires Inv(reqs, s) && p in reqs
    ensures var s2 := Step(reqs, Step(reqs, s, p, Acquire), p, ReadAndChoose);
            && Inv(reqs, s2) && Inv(reqs, Step(reqs, s2, p, WriteTemporary))
            && Inv(reqs, Step(reqs, Step(reqs, s2, p, WriteTemporary), p, Replace))
            && Run(reqs, s, Solo(p)) ==
               Step(reqs, Step(reqs, Step(reqs, s2, p, WriteTemporary), p, Replace), p, Release)
  {
    hide LockInv, RegistryOk, GrantsDisjoint, Step, Current, GrantOk;
    var e := Solo(p);
    RunStep(reqs, s, e);
    var s1 := Step(reqs, s, p, Acquire);
    RunStep(reqs, s1, e[1..]);
    var s2 := Step(reqs, s1, p, ReadAndChoose);
    RunStep(reqs, s2, e[2..]);
    var s3 := Step(reqs, s2, p, WriteTemporary);
    RunStep(reqs, s3, e[3..]);
    RunStep(reqs, Step(reqs, s3, p, Replace), e[4..]);
    assert e[1..][1..] == e[2..] && e[2..][1..] == e[3..] && e[3..][1..] == e[4..] && e[4..][1..] == [];
  }

  lemma Reading(reqs: map<Pid, Request>, s: System, p: Pid)
    requires Inv(reqs, s) && p in reqs && reqs[p].shared && s.pcs[p] == Start && !s.lock
    ensures Step(reqs, Step(reqs, s, p, Acquire), p, ReadAndChoose) ==
            System(true, s.registry, s.pcs[p := ReadStep(reqs[p], s.registry)])
    ensures var pc := ReadStep(reqs[p], s.registry);
            (pc.Closing? || pc.Chosen?) && (pc.Chosen? ==> RegistryOk(Table(pc.entries)))
  {
    var locked := System(true, s.registry, s.pcs[p := Locked]);
    assert Step(reqs, s, p, Acquire) == locked;
    ReadIsCurrent(reqs[p], s.registry);
    var pc := ReadStep(reqs[p], s.registry);
    if pc.Chosen? { ReplaceAppends(reqs[p], s.registry, Written(pc.entries, pc.subnet)); }
  }

  /**
   A process that finds the lock free and is not disturbed returns what the choice against the recorded blocks
   gives, appends exactly that block to its VPC's entry, and leaves the lock free and everybody else alone.
   */
  lemma UndisturbedReservation(reqs: map<Pid, Request>, s: System, p: Pid)
    requires Inv(reqs, s) && p in reqs && reqs[p].shared && s.pcs[p] == Start && !s.lock
    ensures var (registry, result) := Alone(reqs[p], s.registry);
            Run(reqs, s, Solo(p)) == System(false, registry, s.pcs[p := Finished(result)])
  {
    hide LockInv, GrantsDisjoint, Step, Current, GrantOk, RegistryOk, Choose;
    SoloRun(reqs, s, p);
    Reading(reqs, s, p);
    var pc := ReadStep(reqs[p], s.registry);
    var read := System(true, s.registry, s.pcs[p := pc]);
    AfterReading(reqs, read, p);
  }
}
