/**
 Situations in which the question driver (scripts/e2e_question_driver.py, `answer_question`) gives an answer that
 its rules do not seem to allow, each for a whole family of calls.
 */
module QuestionWitnesses {
  import opened Wrappers
  import opened QuestionDriver

  lemma FilterOnly(names: seq<Name>, keep: Name -> bool, i: nat)
    requires i < |names| && keep(names[i]) && forall j :: 0 <= j < |names| && j != i ==> !keep(names[j])
    ensures Filter(names, keep) == [names[i]]
  {
    FilterAround(names, keep, i);
    FilterNone(names[..i], keep);
    FilterNone(names[i + 1..], keep);
  }

  lemma DropBlankSame(f: Facts)
    requires FactsOk(f)
    ensures DropBlank(f) == f
  {
    FilterAll(f.keys, (k: Name) => k in f.values && !Blank(f.values[k]));
    assert DropBlank(f).values == f.values;
  }

  /** The choice counts and names missing fields. */
  ghost predicate ChoiceCounts(supplied: Facts, o: Oracles, chosen: Choice) {
    FactsOk(supplied) && supplied.keys != [] && CountingChoice(supplied, o) == Some(chosen)
      && NamesMissing(Some(chosen))
  }

  /** A free-text question that is asked within budget. */
  ghost predicate Askable(p: Pending, counts: Counts) {
    && PendingOk(p) && p.allowText && !p.oneParameter && !Blank(p.question)
    && WithinBudget(Bumped(counts, p.fingerprint), p.fingerprint)
  }

  lemma CountingIsChosen(supplied: Facts, o: Oracles, chosen: Choice)
    requires ChoiceCounts(supplied, o, chosen)
    ensures ChosenByHelper(o, chosen.optionId)
  {
  }

  /** A screening that leaves no field over is answered from its facts, with its notices and its selection. */
  method AnswerScreened(p: Pending, given: Facts, counts: Counts, o: Oracles, ghost chosen: Choice)
    returns (r: Outcome, facts: Facts)
    requires Askable(p, counts) && ChoiceCounts(given, o, chosen)
    ensures var plan := Screening(p, given, o, chosen);
            plan.fields == [] ==>
              && r.Answered? && facts == plan.facts && r.draft.unspecified == plan.unspecified
              && (forall k :: k in SelectedKeys(Some(plan.chosen), facts) ==> k in r.draft.rendered)
              && (forall k :: k != Other ==>
                    (k in r.draft.unspecified && Known(facts, k) <==> StaleNotice(p, given, o, k)))
              && forall k :: k in r.draft.deferred && Known(facts, k) <==> StaleDeferral(p, given, o, k)
  {
    hide Screening, Unanswerable, StaleNotice, StaleDeferral, TextReply, Decided, Enriched, AllSettled, CountingChoice,
      SelectedKeys;
    DropBlankSame(given);
    UnanswerableIff(p, given, o);
    var counts', t;
    r, facts, counts', t := AnswerQuestion(p, given, counts, o);
    PlainMeans(p, given, Prepared(p, given, o), o, r, Replies(o));
  }

  lemma PlainMeans(p: Pending, given: Facts, b: Basis, o: Oracles, r: Outcome, replies: set<(Name, string)>)
    requires FactsOk(given) && given.keys != [] && Enriched(given, b.facts, replies)
    ensures TextReply(p, b, o, r) && !p.oneParameter ==>
              && r.Answered? && r.draft.unspecified == b.unspecified
              && forall k :: k in SelectedKeys(b.chosen, b.facts) ==> k in r.draft.rendered
  {
    hide Backs, SelectedKeys, PicksFacts;
    SelectionIs(b.chosen, b.facts);
    var k := given.keys[0];
    assert k in given.keys;
    assert Kept(given, b.facts, k);
    assert k in b.facts.values && k in b.facts.keys;
  }

  // ---------- a missing zone that is passed over ----------

  /** Ten missing fields come before the missing zone, and the resolver knows all ten. */
  ghost predicate ZoneBehindTen(supplied: Facts, o: Oracles, chosen: Choice) {
    hide Considered, CountingChoice, FactsOk;
    && ChoiceCounts(supplied, o, chosen) && o.resolver.Some?
    && Reports(chosen.missing.items, supplied, ZoneId) && ZoneId !in FirstAgenda(supplied, chosen)
    && forall k :: k in FirstAgenda(supplied, chosen) ==> HasValue(o.resolver.value(Fields), k)
  }

  /** Everything that is looked up is found, so no field is left over. */
  lemma AllFound(p: Pending, supplied: Facts, o: Oracles, chosen: Choice)
    requires ChoiceCounts(supplied, o, chosen) && o.resolver.Some?
    ensures var plan, open := Screening(p, supplied, o, chosen), Opened(p, supplied, chosen);
            !LooksUpIdentities(p, supplied, o, open)
            && (forall k :: k in open.fields ==> HasValue(o.resolver.value(Fields), k)) ==>
              && plan.fields == [] && plan.facts == LookedUp(o, open).facts
              && forall k :: Known(plan.facts, k) <==> Known(supplied, k) || k in open.fields
  {
    hide Considered, Opened, Deferred, DropUnrelated, Identified, LookedUp, AdmitAbsences, LooksUpIdentities, HasValue,
      CountingChoice, Enriched, GroundedCurrent, MayAdmit;
    var open, considered := Opened(p, supplied, chosen), FirstAgenda(supplied, chosen);
    CountingIsChosen(supplied, o, chosen);
    OpenedOk(p, supplied, o, chosen);
    if !LooksUpIdentities(p, supplied, o, open)
       && (forall k :: k in open.fields ==> HasValue(o.resolver.value(Fields), k)) {
      NothingIdentified(p, supplied, o, open);
      LookUpKeepsPlan(p, supplied, o, open, considered);
      var enquired := LookedUp(o, open);
      NoFieldsLeft(open, enquired);
      AdmitAbsencesKeepsPlan(p, supplied, o, enquired, GroundedCurrent(p, Deferred(p, supplied, chosen)), considered);
    }
  }

  lemma NoFieldsLeft(open: Plan, enquired: Plan)
    requires forall k :: k in enquired.fields ==> k in open.fields
    requires forall k :: k in open.fields ==> k !in enquired.fields
    ensures enquired.fields == []
  {
    FirstIsMember(enquired.fields);
  }

  lemma FirstIsMember(names: seq<Name>)
    ensures names == [] || names[0] in names
  {
  }

  /** An answered call whose missing zone is neither known nor put off: ten other missing fields hide it. */
  method LongListHidesZone(p: Pending, given: Facts, counts: Counts, o: Oracles, ghost chosen: Choice)
    returns (r: Outcome, facts: Facts)
    requires Askable(p, counts) && ZoneBehindTen(given, o, chosen) && p.deferred == None
    ensures r.Answered? && Reports(chosen.missing.items, given, ZoneId)
    ensures !Known(facts, ZoneId) && !DeclaredDeferred(p, ZoneId)
  {
    hide Screening, Opened, Considered, CountingChoice, HasValue, StaleNotice, LooksUpIdentities, Askable, FirstAgenda,
      Reports, ChosenByHelper;
    CountingIsChosen(given, o, chosen);
    OpenedIsUnknown(p, given, o, chosen);
    LongListIsNotIdentified(p, given, o, chosen, ZoneId);
    ReportedIsMissing(chosen.missing.items, given, ZoneId);
    AllFound(p, given, o, chosen);
    r, facts := AnswerScreened(p, given, counts, o, chosen);
  }

  // ---------- a field that comes back ----------

  /** A field that is reported alone is the only one looked at. */
  lemma OneReported(f: Facts, k: Name)
    requires IsReportable(k) && !Known(f, k)
    ensures Considered([Some(k)], f) == [k]
  {
    hide Filter, Reports;
    var keep := Reported([Some(k)], f);
    forall n ensures keep(n) <==> n == k { ReportsOne(f, k, n); }
    AllMissingIsFilter([Some(k)], f);
    PlaceIsPlace(k);
    FilterOnly(SORTED, keep, Place(k));
  }

  lemma ReportsOne(f: Facts, k: Name, n: Name)
    requires IsReportable(k) && !Known(f, k)
    ensures Reports([Some(k)], f, n) <==> n == k
  {
    assert [Some(k)][0] in [Some(k)];
  }

  lemma PlaceIsPlace(k: Name)
    requires IsReportable(k)
    ensures Place(k) < |SORTED| && forall j :: 0 <= j < |SORTED| ==> (SORTED[j] == k <==> j == Place(k))
  {
    forall j | 0 <= j < |SORTED| ensures Place(SORTED[j]) == j { }
  }

  /** The helper's second thought, once an identity has been found: `k` is missing. */
  function SecondThought(k: Name): Choice {
    Choice(Items([Some(Purpose)]), None, Items([Some(k)]), None)
  }

  /** The resolver finds the identity, the helper then misses `k` alone, and the resolver finds that, too. */
  ghost predicate ComesBack(o: Oracles, first: Choice, identity: (Name, string), field: (Name, string)) {
    && o.helper(First) == Some(first) && o.helper(Review) == None
    && o.helper(IdentityReview) == Some(SecondThought(field.0))
    && o.resolver.Some? && !Blank(identity.1) && !Blank(field.1)
    && o.resolver.value(Identities) == [identity] && o.resolver.value(Fields) == [field]
  }

  /** The opened plan waits for one unnamed detail, and the question names one identity. */
  ghost predicate WaitsForDetail(p: Pending, supplied: Facts, plan: Plan, id: Name, k: Name) {
    && plan.fields == [Other] && plan.facts == supplied && NamedIdentities(p, supplied, plan) == [id]
    && FactsOk(supplied) && Known(supplied, Purpose) && !Known(supplied, k) && k != id && IsReportable(k)
  }

  lemma UsableOne(q: (Name, string))
    requires !Blank(q.1)
    ensures Usable([q], [q.0]) == [q] && KeysOf([q]) == [q.0]
  {
    assert [q][1..] == [];
  }

  lemma PutOne(f: Facts, q: (Name, string))
    ensures PutAll(f, [q]) == Put(f, q.0, q.1)
  {
    assert [q][1..] == [];
    assert PutAll(f, [q]) == PutAll(Put(f, q.0, q.1), []);
  }

  lemma IsReviewed(p: Pending, supplied: Facts, o: Oracles, plan: Plan, first: Choice, identity: (Name, string),
                   field: (Name, string))
    requires ComesBack(o, first, identity, field) && WaitsForDetail(p, supplied, plan, identity.0, field.0)
    ensures Reviewed(p, supplied, o, plan)
    ensures Identified(p, supplied, o, plan) ==
            plan.(facts := Put(supplied, identity.0, identity.1), chosen := SecondThought(field.0), fields := [field.0])
  {
    hide Considered, Usable, PutAll, NamedIdentities, Blank;
    UsableOne(identity);
    PutOne(supplied, identity);
    OneReported(Put(supplied, identity.0, identity.1), field.0);
  }

  /** What a lookup finds is selected together with what had been selected. */
  lemma FoundIsSelected(o: Oracles, plan: Plan, k: Name)
    requires plan.fields != [] && o.resolver.Some? && AllKnown(plan.chosen.factKeys, plan.facts)
    ensures k in KeysOf(Usable(o.resolver.value(Fields), plan.fields)) ==>
              k in SelectedKeys(Some(LookedUp(o, plan).chosen), LookedUp(o, plan).facts)
  {
    hide Usable, PutAll, Filter, Distinct, Strings, Known;
    var found := Usable(o.resolver.value(Fields), plan.fields);
    forall n ensures Known(PutAll(plan.facts, found), n) <==> Known(plan.facts, n) || n in KeysOf(found) {
      PutAllKnown(plan.facts, found, n);
    }
    var keys := Distinct(Strings(plan.chosen.factKeys.items) + KeysOf(found));
    assert LookedUp(o, plan).chosen.factKeys == Listed(keys);
    assert k in KeysOf(found) ==> k in keys && Some(k) in Listed(keys).items;
  }

  /** The lookup of the one field leaves none over, and the field is selected for the answer. */
  lemma OneLookedUp(o: Oracles, plan: Plan, field: (Name, string))
    requires plan.fields == [field.0] && plan.chosen == SecondThought(field.0) && Known(plan.facts, Purpose)
    requires o.resolver.Some? && o.resolver.value(Fields) == [field] && !Blank(field.1)
    ensures var r := LookedUp(o, plan);
            r.fields == [] && Known(r.facts, field.0) && field.0 in SelectedKeys(Some(r.chosen), r.facts)
  {
    hide Usable, PutAll, SelectedKeys, Blank, Distinct, Strings;
    UsableOne(field);
    PutOne(plan.facts, field);
    FoundIsSelected(o, plan, field.0);
    FilterNone([field.0], (k: Name) => !Known(Put(plan.facts, field.0, field.1), k));
  }

  lemma AdmitNothing(p: Pending, supplied: Facts, plan: Plan, grounded: bool)
    requires plan.fields == []
    ensures AdmitAbsences(p, supplied, plan, grounded) == plan
  {
  }

  /** The screening of such a call leaves nothing over, and the field that came back is known and selected. */
  lemma ComebackPasses(p: Pending, supplied: Facts, o: Oracles, first: Choice, identity: (Name, string),
                       field: (Name, string))
    requires ComesBack(o, first, identity, field) && first.missing.Items?
    requires WaitsForDetail(p, supplied, Opened(p, supplied, first), identity.0, field.0)
    ensures var plan := Screening(p, supplied, o, first);
            plan.fields == [] && Known(plan.facts, field.0) && field.0 in SelectedKeys(Some(plan.chosen), plan.facts)
  {
    hide Opened, Deferred, Identified, LookedUp, AdmitAbsences, SelectedKeys, GroundedCurrent, NamedIdentities, Blank;
    var open := Opened(p, supplied, first);
    IsReviewed(p, supplied, o, open, first, identity, field);
    var identified := Identified(p, supplied, o, open);
    OneLookedUp(o, identified, field);
    AdmitNothing(p, supplied, LookedUp(o, identified), GroundedCurrent(p, Deferred(p, supplied, first)));
  }

  lemma FirstCounts(supplied: Facts, o: Oracles, first: Choice, identity: (Name, string), field: (Name, string))
    requires ComesBack(o, first, identity, field) && FactsOk(supplied) && Known(supplied, Purpose)
    requires NamesMissing(Some(first))
    ensures ChoiceCounts(supplied, o, first)
  {
    assert Purpose in supplied.keys;
  }

  // ---------- a notice of absence that contradicts the facts ----------

  /** A question about a purpose and a VPC, asked with a goal and a purpose only. */
  ghost predicate AboutPurposeAndVpc(p: Pending, supplied: Facts) {
    && p.subjects == {Purpose, VpcId} && !p.requiredInformation && p.allowText && p.deferred == None
    && FactsOk(supplied) && supplied.values.Keys == {Goal, Purpose}
  }

  /** The region and an unnamed detail are missing. */
  function RegionMissing(): Choice {
    Choice(Items([Some(Purpose)]), None, Items([Some(Region), Some(Other)]), None)
  }

  lemma RegionOrDetail(f: Facts, k: Name)
    requires f.values.Keys == {Goal, Purpose}
    ensures Reports([Some(Region), Some(Other)], f, k) <==> k == Region || k == Other
  {
    var items := [Some(Region), Some(Other)];
    assert items[0] in items && items[1] in items;
  }

  lemma FilterSorted(keep: Name -> bool)
    requires forall k :: keep(k) <==> k == Region || k == Other
    ensures Filter(SORTED, keep) == [Other, Region]
  {
    hide Filter;
    FilterAround(SORTED, keep, 6);
    FilterBeforeDetail(keep);
    FilterBehindDetail(keep);
  }

  lemma FilterBeforeDetail(keep: Name -> bool)
    requires forall k :: keep(k) <==> k == Region || k == Other
    ensures Filter(SORTED[..6], keep) == []
  {
    hide Filter;
    FilterNone(SORTED[..6], keep);
  }

  lemma FilterBehindDetail(keep: Name -> bool)
    requires forall k :: keep(k) <==> k == Region || k == Other
    ensures Filter(SORTED[7..], keep) == [Region]
  {
    hide Filter;
    FilterOnly(SORTED[7..], keep, 1);
  }

  lemma RegionAndDetail(f: Facts)
    requires f.values.Keys == {Goal, Purpose}
    ensures Considered([Some(Region), Some(Other)], f) == [Other, Region]
  {
    hide Filter, Reports;
    var keep := Reported([Some(Region), Some(Other)], f);
    forall k ensures keep(k) <==> k == Region || k == Other { RegionOrDetail(f, k); }
    AllMissingIsFilter([Some(Region), Some(Other)], f);
    FilterSorted(keep);
  }

  lemma RegionIsDropped(p: Pending, supplied: Facts)
    requires AboutPurposeAndVpc(p, supplied)
    ensures GroundedCurrent(p, Deferred(p, supplied, RegionMissing()))
    ensures Region in FirstAgenda(supplied, RegionMissing())
    ensures WaitsForDetail(p, supplied, Opened(p, supplied, RegionMissing()), VpcId, Region)
  {
    hide Considered, Filter;
    RegionAndDetail(supplied);
    var plan := Plan(supplied, RegionMissing(), [Other, Region], [], {});
    assert (set k | k in plan.fields && k in DeferredIdentities(p, supplied)) == {};
    assert Deferred(p, supplied, RegionMissing()) == plan;
    assert plan.chosen.factKeys.items[0] == Some(Purpose);
    FilterOnly([Other, Region], (k: Name) => Unrelated(p, k), 1);
    FilterOnly([Other, Region], (k: Name) => !Unrelated(p, k), 0);
    FilterOnly([VpcId, ZoneId],
               (k: Name) => k in p.subjects && !Known(supplied, k) && k !in DeferredIdentities(p, supplied), 0);
  }

  lemma RegionIsStale(p: Pending, supplied: Facts, o: Oracles, vpc: string, region: string)
    requires AboutPurposeAndVpc(p, supplied) && ComesBack(o, RegionMissing(), (VpcId, vpc), (Region, region))
    ensures ChoiceCounts(supplied, o, RegionMissing()) && StaleNotice(p, supplied, o, Region)
  {
    hide Opened, Considered, GroundedCurrent, Deferred, Identified, Reviewed, FirstAgenda, NamedIdentities;
    FirstCounts(supplied, o, RegionMissing(), (VpcId, vpc), (Region, region));
    RegionIsDropped(p, supplied);
    IsReviewed(p, supplied, o, Opened(p, supplied, RegionMissing()), RegionMissing(), (VpcId, vpc), (Region, region));
    assert (Region, region) in o.resolver.value(Fields);
    assert HasValue(o.resolver.value(Fields), Region);
  }

  /** An answered call that states the region and says that the region is undecided. */
  method NoticeContradictsFact(p: Pending, given: Facts, counts: Counts, o: Oracles, vpc: string, region: string)
    returns (r: Outcome, facts: Facts)
    requires Askable(p, counts) && AboutPurposeAndVpc(p, given)
    requires ComesBack(o, RegionMissing(), (VpcId, vpc), (Region, region))
    ensures r.Answered? && Known(facts, Region) && Region in r.draft.rendered && Region in r.draft.unspecified
  {
    hide Screening, StaleNotice, Askable, SelectedKeys, Opened, Deferred, GroundedCurrent, FirstAgenda, NamedIdentities;
    RegionIsStale(p, given, o, vpc, region);
    RegionIsDropped(p, given);
    ComebackPasses(p, given, o, RegionMissing(), (VpcId, vpc), (Region, region));
    r, facts := AnswerScreened(p, given, counts, o, RegionMissing());
  }

  // ---------- a deferral that contradicts the facts ----------

  /** A question about a purpose, a VPC that was put off, and a zone, asked with a goal and a purpose only. */
  ghost predicate VpcPutOff(p: Pending, supplied: Facts) {
    && p.subjects == {Purpose, VpcId, ZoneId} && p.allowText && p.deferred == Some({VpcId})
    && FactsOk(supplied) && supplied.values.Keys == {Goal, Purpose}
  }

  /** An unnamed detail is missing. */
  function DetailMissing(): Choice {
    Choice(Items([Some(Purpose)]), None, Items([Some(Other)]), None)
  }

  lemma VpcIsPutOff(p: Pending, supplied: Facts)
    requires VpcPutOff(p, supplied)
    ensures VpcId in Deferred(p, supplied, DetailMissing()).deferred
    ensures WaitsForDetail(p, supplied, Opened(p, supplied, DetailMissing()), ZoneId, VpcId)
  {
    hide Considered, Filter, GroundedCurrent;
    OneReported(supplied, Other);
    var plan := Plan(supplied, DetailMissing(), [Other], [], {});
    assert DeferredIdentities(p, supplied) == {VpcId};
    assert (set k | k in plan.fields && k in DeferredIdentities(p, supplied)) == {};
    FilterOnly([Other], (k: Name) => !Unrelated(p, k), 0);
    FilterOnly([VpcId, ZoneId],
               (k: Name) => k in p.subjects && !Known(supplied, k) && k !in DeferredIdentities(p, supplied), 1);
  }

  lemma DeferralIsStale(p: Pending, supplied: Facts, o: Oracles, zone: string, vpc: string)
    requires VpcPutOff(p, supplied) && ComesBack(o, DetailMissing(), (ZoneId, zone), (VpcId, vpc))
    ensures ChoiceCounts(supplied, o, DetailMissing()) && StaleDeferral(p, supplied, o, VpcId)
  {
    hide Opened, Considered, Deferred, Identified, Reviewed, FirstAgenda, NamedIdentities;
    FirstCounts(supplied, o, DetailMissing(), (ZoneId, zone), (VpcId, vpc));
    VpcIsPutOff(p, supplied);
    IsReviewed(p, supplied, o, Opened(p, supplied, DetailMissing()), DetailMissing(), (ZoneId, zone), (VpcId, vpc));
    assert (VpcId, vpc) in o.resolver.value(Fields);
    assert HasValue(o.resolver.value(Fields), VpcId);
  }

  /** An answered call that states the VPC and says that the VPC comes later. */
  method DeferralContradictsFact(p: Pending, given: Facts, counts: Counts, o: Oracles, zone: string, vpc: string)
    returns (r: Outcome, facts: Facts)
    requires Askable(p, counts) && VpcPutOff(p, given)
    requires ComesBack(o, DetailMissing(), (ZoneId, zone), (VpcId, vpc))
    ensures r.Answered? && Known(facts, VpcId) && VpcId in r.draft.rendered && VpcId in r.draft.deferred
  {
    hide Screening, StaleDeferral, Askable, SelectedKeys, Opened, Deferred, NamedIdentities;
    DeferralIsStale(p, given, o, zone, vpc);
    VpcIsPutOff(p, given);
    ComebackPasses(p, given, o, DetailMissing(), (ZoneId, zone), (VpcId, vpc));
    r, facts := AnswerScreened(p, given, counts, o, DetailMissing());
  }
}
