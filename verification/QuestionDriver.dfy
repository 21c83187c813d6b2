/**
 The question driver (scripts/e2e_question_driver.py, `answer_question`): how the simulated user answers a
 clarification from supplied facts only.

 The language-model helper and the fact resolver are arbitrary: each place that consults one of them may get any
 reply whatsoever. The regular expressions are arbitrary too: their verdicts on the question and on the option
 labels are fields of the pending question.
 */
module QuestionDriver {
  import opened Wrappers

  /**
   The names of facts and of question subjects. The source writes them as strings such as "vpc_id"; `Extra` stands
   for every other string.
   */
  datatype Name =
    | Goal | CloudVendor | Region | Purpose | Workload | Scale | Budget | ResourceScope | Constraints
    | VpcId | ZoneId | Cidr | CidrPrefix | StackName
    | Other | Architecture | SecretParameter | Extra(text: string)

  // ---------- facts ----------

  /** Facts in the order in which they were supplied. */
  datatype Facts = Facts(keys: seq<Name>, values: map<Name, string>)

  predicate Blank(s: string) {
    forall c :: c in s ==> c in {' ', '\t', '\n', '\r'}
  }

  ghost predicate FactsOk(f: Facts) {
    && (forall k :: k in f.keys <==> k in f.values)
    && (forall k :: k in f.values ==> !Blank(f.values[k]))
  }

  predicate Known(f: Facts, k: Name) {
    k in f.values
  }

  function Put(f: Facts, k: Name, v: string): Facts {
    Facts(if k in f.values then f.keys else f.keys + [k], f.values[k := v])
  }

  /** The requested, non-blank part of a resolver's reply. */
  function Usable(supplied: seq<(Name, string)>, requested: seq<Name>): (r: seq<(Name, string)>)
    ensures forall p :: p in r ==> p in supplied && p.0 in requested && !Blank(p.1)
  {
    if supplied == [] then []
    else
      (if supplied[0].0 in requested && !Blank(supplied[0].1) then [supplied[0]] else [])
      + Usable(supplied[1..], requested)
  }

  function PutAll(f: Facts, resolved: seq<(Name, string)>): Facts
    decreases |resolved|
  {
    if resolved == [] then f else PutAll(Put(f, resolved[0].0, resolved[0].1), resolved[1..])
  }

  function KeysOf(resolved: seq<(Name, string)>): seq<Name> {
    seq(|resolved|, i requires 0 <= i < |resolved| => resolved[i].0)
  }

  predicate IsFactField(k: Name) {
    !k.Other? && !k.Architecture? && !k.SecretParameter? && !k.Extra?
  }

  predicate IsReportable(k: Name) {
    IsFactField(k) || k.Other?
  }

  /** The names a missing field is reported under, in sorted order. */
  const SORTED: seq<Name> := [
    Budget, Cidr, CidrPrefix, CloudVendor, Constraints, Goal, Other, Purpose, Region,
    ResourceScope, Scale, StackName, VpcId, Workload, ZoneId]

  /** Fields that nothing but a real fact, or an explicit deferral, can settle. */
  predicate IsIdentity(k: Name) {
    k.CloudVendor? || k.Goal? || k.ResourceScope? || k.StackName? || k.VpcId? || k.ZoneId?
  }

  /** Fields whose absence can be admitted in the answer; each has a label for it. */
  predicate HasLabel(k: Name) {
    k.Region? || k.Purpose? || k.Workload? || k.Scale? || k.Budget? || k.Cidr? || k.CidrPrefix?
      || k.Constraints? || k.Other?
  }

  predicate IsParameter(k: Name) {
    k.VpcId? || k.ZoneId?
  }

  /** Nothing supplied is lost, and nothing but the placeholder "other" can be overwritten. */
  ghost predicate Kept(before: Facts, after: Facts, k: Name) {
    k in before.values ==> k in after.values && (k != Other ==> after.values[k] == before.values[k])
  }

  /** What is new or changed was asked for under a reportable name and is what the resolver replied. */
  ghost predicate Resolved(before: Facts, after: Facts, replies: set<(Name, string)>, k: Name) {
    k in after.values && (k !in before.values || after.values[k] != before.values[k]) ==>
      IsReportable(k) && (k, after.values[k]) in replies
  }

  ghost predicate Enriched(before: Facts, after: Facts, replies: set<(Name, string)>) {
    && FactsOk(after)
    && (forall k {:trigger Kept(before, after, k)} :: Kept(before, after, k))
    && (forall k {:trigger Resolved(before, after, replies, k)} :: Resolved(before, after, replies, k))
  }

  // ---------- replies of the helper ----------

  /** A value that should be a list of strings; `None` elements are not strings. */
  datatype Listing = Absent | NotAList(truthy: bool) | Items(items: seq<Option<Name>>)

  datatype Choice = Choice(factKeys: Listing, optionId: Option<string>, missing: Listing, detail: Option<string>)

  /** The places that consult the helper, each at most once in a call. */
  datatype Site = First | Review | IdentityReview | OptionReview | ParameterReview

  datatype Lookup = Identities | Fields

  datatype Oracles = Oracles(
    helper: Site -> Option<Choice>,
    resolver: Option<Lookup -> seq<(Name, string)>>)

  ghost function Replies(o: Oracles): set<(Name, string)> {
    if o.resolver == None then {}
    else (set p | p in o.resolver.value(Identities)) + (set p | p in o.resolver.value(Fields))
  }

  predicate Chose(o: Oracles, site: Site, id: Option<string>) {
    o.helper(site).Some? && o.helper(site).value.optionId == id
  }

  /** Some reply of the helper names this option id. */
  predicate NamedByHelper(o: Oracles, id: Option<string>) {
    || Chose(o, First, id) || Chose(o, Review, id) || Chose(o, IdentityReview, id)
    || Chose(o, OptionReview, id) || Chose(o, ParameterReview, id)
  }

  /** The same, or no option is wanted, which the driver itself writes as the empty id. */
  predicate ChosenByHelper(o: Oracles, id: Option<string>) {
    id == Some("") || NamedByHelper(o, id)
  }

  /** All elements are strings that name known facts. */
  predicate AllKnown(l: Listing, f: Facts) {
    l.Items? && forall k :: k in l.items ==> k.Some? && Known(f, k.value)
  }

  predicate AllStrings(l: Listing) {
    l.Items? && forall k :: k in l.items ==> k.Some?
  }

  function Strings(items: seq<Option<Name>>): (r: seq<Name>)
    requires forall k :: k in items ==> k.Some?
    ensures forall k :: k in r <==> Some(k) in items
    ensures |r| == |items| && forall i :: 0 <= i < |items| ==> items[i] == Some(r[i])
  {
    if items == [] then []
    else
      assert items[0] in items;
      assert forall k :: k in items <==> k == items[0] || k in items[1..];
      [items[0].value] + Strings(items[1..])
  }

  function Listed(keys: seq<Name>): (l: Listing)
    ensures l.Items? && |l.items| == |keys| && forall i :: 0 <= i < |keys| ==> l.items[i] == Some(keys[i])
    ensures forall k :: k in l.items <==> k.Some? && k.value in keys
  {
    var items := seq(|keys|, i requires 0 <= i < |keys| => Some(keys[i]));
    assert forall k :: k in keys ==> Some(k) in items by {
      forall k | k in keys ensures Some(k) in items {
        var i :| 0 <= i < |keys| && keys[i] == k;
        assert items[i] == Some(k);
      }
    }
    Items(items)
  }

  // ---------- the pending question ----------

  datatype OptionItem = OptionItem(id: Option<string>, caption: string, control: bool)

  datatype Pending = Pending(
    question: string,
    fingerprint: string,
    subjects: set<Name>,          // subject categories found in the question
    requiredInformation: bool,      // the question asks for required parameters or information
    requiredWord: bool,             // the question mentions something required or a resource id
    nameWord: bool,                 // the question mentions a name
    options: seq<OptionItem>,
    allowText: bool,
    oneParameter: bool,
    optionParameters: seq<Name>,  // vpc_id and zone_id, as far as the options mention them
    questionParameters: seq<Name>,
    deferred: Option<set<Name>>)  // fields the user declared as deferred

  predicate PendingOk(p: Pending) {
    && (forall k :: k in p.optionParameters ==> IsParameter(k))
    && (forall k :: k in p.questionParameters ==> IsParameter(k))
  }

  /** The identities whose absence the user has explicitly put off. */
  function DeferredIdentities(p: Pending, f: Facts): set<Name> {
    if p.deferred.Some? && p.allowText then set k | k in p.deferred.value && IsParameter(k) && !Known(f, k) else {}
  }

  function FindOption(options: seq<OptionItem>, id: Option<string>): (r: Option<OptionItem>)
    ensures r.Some? ==> r.value in options && r.value.id == id
    ensures r == None ==> forall o :: o in options ==> o.id != id
    ensures r.Some? ==> exists i :: 0 <= i < |options| && options[i] == r.value
                          && forall j :: 0 <= j < i ==> options[j].id != id
  {
    if options == [] then None
    else if options[0].id == id then Some(options[0])
    else FindOption(options[1..], id)
  }

  // ---------- missing fields ----------

  function NormalName(k: Option<Name>): Name {
    if k.Some? && IsFactField(k.value) then k.value else Other
  }

  /** The reported name of some missing entry is `name`. */
  predicate Reports(items: seq<Option<Name>>, f: Facts, name: Name) {
    exists k :: k in items && !(k.Some? && Known(f, k.value)) && NormalName(k) == name
  }

  function Filter(names: seq<Name>, keep: Name -> bool): (r: seq<Name>)
    ensures forall k :: k in r <==> k in names && keep(k)
    ensures |r| <= |names|
  {
    if names == [] then []
    else
      assert forall k :: k in names <==> k == names[0] || k in names[1..];
      (if keep(names[0]) then [names[0]] else []) + Filter(names[1..], keep)
  }

  /** Every missing field under its reported name, sorted. */
  function AllMissing(items: seq<Option<Name>>, f: Facts): seq<Name> {
    MissingFrom(items, f, 0)
  }

  function MissingFrom(items: seq<Option<Name>>, f: Facts, i: nat): seq<Name>
    requires i <= |SORTED|
    decreases |SORTED| - i
  {
    if i == |SORTED| then []
    else (if Reports(items, f, SORTED[i]) then [SORTED[i]] else []) + MissingFrom(items, f, i + 1)
  }

  lemma {:induction false} MissingFromIsFilter(items: seq<Option<Name>>, f: Facts, i: nat)
    requires i <= |SORTED|
    ensures MissingFrom(items, f, i) == Filter(SORTED[i..], Reported(items, f))
    decreases |SORTED| - i
  {
    hide Reports, Filter;
    FilterStep(SORTED, Reported(items, f), i);
    if i < |SORTED| {
      MissingFromIsFilter(items, f, i + 1);
    }
  }

  lemma FilterStep(names: seq<Name>, keep: Name -> bool, i: nat)
    requires i <= |names|
    ensures Filter(names[i..], keep) ==
            if i == |names| then [] else (if keep(names[i]) then [names[i]] else []) + Filter(names[i + 1..], keep)
  {
    if i < |names| { assert names[i..][1..] == names[i + 1..]; }
  }

  lemma AllMissingIsFilter(items: seq<Option<Name>>, f: Facts)
    ensures AllMissing(items, f) == Filter(SORTED, Reported(items, f))
  {
    hide Reports, Filter;
    MissingFromIsFilter(items, f, 0);
    assert SORTED[0..] == SORTED;
  }

  function Reported(items: seq<Option<Name>>, f: Facts): Name -> bool {
    (name: Name) => Reports(items, f, name)
  }

  /** The first ten of them are looked at. */
  function Considered(items: seq<Option<Name>>, f: Facts): seq<Name> {
    FirstTen(AllMissing(items, f))
  }

  /** A name under which a missing field can be reported when the facts are `f`. */
  predicate Missing(f: Facts, k: Name) {
    IsReportable(k) && (k != Other ==> !Known(f, k))
  }

  function FirstTen(names: seq<Name>): (r: seq<Name>)
    ensures r <= names && |r| <= 10 && (|names| <= 10 ==> r == names)
  {
    if |names| > 10 then names[..10] else names
  }

  lemma FieldsAreReportable(items: seq<Option<Name>>, f: Facts)
    ensures forall k :: k in Considered(items, f) ==> Missing(f, k)
  {
    hide Filter;
    AllMissingIsFilter(items, f);
    assert forall k :: k in Considered(items, f) ==> k in AllMissing(items, f);
  }

  // ---------- choosing ----------

  /** A second opinion replaces the first only if it selects known facts and lists its missing fields properly. */
  predicate Acceptable(c: Option<Choice>, f: Facts) {
    c.Some? && AllKnown(c.value.factKeys, f) && c.value.factKeys.items != [] && AllStrings(c.value.missing)
  }

  /** The choice lists something missing that is no known fact. */
  predicate ClaimsMissing(c: Option<Choice>, f: Facts) {
    c.Some? && c.value.missing.Items? && exists k :: k in c.value.missing.items && !(k.Some? && Known(f, k.value))
  }

  /**
   The choice that counts: a claim that something is missing stands unless an acceptable second opinion replaces it.
   */
  function CountingChoice(f: Facts, o: Oracles): Option<Choice> {
    if ClaimsMissing(o.helper(First), f) && Acceptable(o.helper(Review), f) then o.helper(Review) else o.helper(First)
  }

  /** The helper's choice, reconsidered once if it claims that a fact is missing. */
  method ChooseFacts(f: Facts, o: Oracles) returns (chosen: Option<Choice>, calls: nat)
    ensures chosen == CountingChoice(f, o)
    ensures calls == if ClaimsMissing(o.helper(First), f) then 2 else 1
    ensures chosen == o.helper(First) || (chosen == o.helper(Review) && Acceptable(chosen, f))
  {
    chosen, calls := o.helper(First), 1;
    if chosen.Some? && chosen.value.missing.Items?
       && exists k :: k in chosen.value.missing.items && !(k.Some? && Known(f, k.value)) {
      var reconsidered := o.helper(Review);
      calls := 2;
      if Acceptable(reconsidered, f) {
        chosen := reconsidered;
      }
    }
  }

  // ---------- screening the missing fields ----------

  datatype Plan = Plan(facts: Facts, chosen: Choice, fields: seq<Name>, unspecified: seq<Name>, deferred: set<Name>)

  /** The user declared that the field comes later, and free text lets the answer say so. */
  predicate DeclaredDeferred(p: Pending, k: Name) {
    p.allowText && p.deferred.Some? && k in p.deferred.value && IsParameter(k)
  }

  /** A field that blocks an answer is still listed, or has become a fact, or is explicitly deferred. */
  predicate Settled(p: Pending, plan: Plan, k: Name) {
    k in plan.fields || Known(plan.facts, k) || DeclaredDeferred(p, k)
  }

  ghost predicate PlanOk(p: Pending, supplied: Facts, o: Oracles, plan: Plan, considered: seq<Name>) {
    && FactsOk(supplied)
    && Enriched(supplied, plan.facts, Replies(o))
    && (forall k :: k in plan.fields ==> Missing(plan.facts, k))
    && (forall k :: k in plan.unspecified ==> HasLabel(k))
    && (forall k :: k in plan.deferred ==> DeclaredDeferred(p, k))
    && ChosenByHelper(o, plan.chosen.optionId)
    && (forall k {:trigger Settled(p, plan, k)} :: k in considered && IsIdentity(k) ==> Settled(p, plan, k))
  }

  /** Declared fields are put off: they leave the list, all facts are restated and no option is taken. */
  function Defer(p: Pending, plan: Plan): Plan {
    var identities := DeferredIdentities(p, plan.facts);
    var named := set k | k in plan.fields && k in identities;
    var rest :=
      if named == {} then plan
      else plan.(fields := Filter(plan.fields, (k: Name) => k !in identities),
                 chosen := plan.chosen.(factKeys := Listed(plan.facts.keys), optionId := Some("")));
    rest.(deferred := named + (p.subjects * identities))
  }

  /** Exactly the declared, still unknown identities that are missing or asked for are put off. */
  lemma DeferKeepsPlan(p: Pending, supplied: Facts, o: Oracles, plan: Plan, considered: seq<Name>)
    requires PlanOk(p, supplied, o, plan, considered) && plan.deferred == {}
    ensures var r := Defer(p, plan);
            && PlanOk(p, supplied, o, r, considered) && r.facts == plan.facts && r.unspecified == plan.unspecified
            && r.deferred == DeferredIdentities(p, plan.facts) * ((set k | k in plan.fields) + p.subjects)
            && forall k :: k in r.fields <==> k in plan.fields && k !in DeferredIdentities(p, plan.facts)
  {
    var identities := DeferredIdentities(p, plan.facts);
    var named := set k | k in plan.fields && k in identities;
    assert named == {} ==> forall k :: k in plan.fields ==> k !in identities || k in named;
    SettledCarries(p, plan, Defer(p, plan), considered);
  }

  lemma SettledCarries(p: Pending, plan: Plan, r: Plan, considered: seq<Name>)
    requires forall k {:trigger Settled(p, plan, k)} :: k in considered && IsIdentity(k) ==> Settled(p, plan, k)
    requires forall k :: Known(plan.facts, k) ==> Known(r.facts, k)
    requires forall k :: k in plan.fields && IsIdentity(k) ==>
              k in r.fields || Known(r.facts, k) || DeclaredDeferred(p, k)
    ensures forall k {:trigger Settled(p, r, k)} :: k in considered && IsIdentity(k) ==> Settled(p, r, k)
  {
    forall k | k in considered && IsIdentity(k) ensures Settled(p, r, k) {
      assert Settled(p, plan, k);
    }
  }

  /** The identities the question is about that neither a fact nor a deferral covers. */
  function Unresolved(p: Pending, supplied: Facts, f: Facts): set<Name> {
    set k | k in p.subjects && k in {VpcId, ZoneId, Cidr, CidrPrefix, StackName}
            && !Known(f, k) && k !in DeferredIdentities(p, supplied)
  }

  /** The selected facts are about the question, which asks for nothing mandatory. */
  predicate GroundedCurrent(p: Pending, plan: Plan) {
    && AllKnown(plan.chosen.factKeys, plan.facts) && plan.chosen.factKeys.items != []
    && (exists k :: k in p.subjects && Some(k) in plan.chosen.factKeys.items)
    && !p.requiredInformation && p.allowText
  }

  /** The subject under which a question would ask for a preference. */
  function PreferenceSubject(k: Name): Option<Name> {
    match k
    case Region => Some(Region)
    case Purpose => Some(Purpose)
    case Workload => Some(Purpose)
    case Scale => Some(Scale)
    case Budget => Some(Budget)
    case Cidr => Some(Cidr)
    case CidrPrefix => Some(CidrPrefix)
    case _ => None
  }

  predicate Unrelated(p: Pending, k: Name) {
    PreferenceSubject(k).Some? && PreferenceSubject(k).value !in p.subjects && !(k == CidrPrefix && Cidr in p.subjects)
  }

  /** For a grounded question the preferences it is not about count as undecided instead of missing. */
  function DropUnrelated(p: Pending, plan: Plan): Plan {
    if !GroundedCurrent(p, plan) then plan
    else plan.(unspecified := plan.unspecified + Filter(plan.fields, (k: Name) => Unrelated(p, k)),
               fields := Filter(plan.fields, (k: Name) => !Unrelated(p, k)))
  }

  lemma DropKeepsPlan(p: Pending, supplied: Facts, o: Oracles, plan: Plan, considered: seq<Name>)
    requires PlanOk(p, supplied, o, plan, considered)
    ensures var r := DropUnrelated(p, plan);
            && PlanOk(p, supplied, o, r, considered)
            && r.facts == plan.facts && r.chosen == plan.chosen && r.deferred == plan.deferred
            && (plan.unspecified == [] ==> OnlyUnrelated(p, r.unspecified))
            && (GroundedCurrent(p, plan) ==> forall k :: k in r.fields <==> k in plan.fields && !Unrelated(p, k))
            && (GroundedCurrent(p, plan) ==>
                  forall k :: k in r.unspecified <==> k in plan.unspecified || (k in plan.fields && Unrelated(p, k)))
  {
    SettledCarries(p, plan, DropUnrelated(p, plan), considered);
  }

  // ---------- consulting the resolver ----------

  /** A resolver reply that may be used: requested under a reportable name that is not a supplied fact. */
  ghost predicate Admissible(supplied: Facts, q: (Name, string), replies: set<(Name, string)>) {
    q in replies && !Blank(q.1) && IsReportable(q.0) && (q.0 != Other ==> !Known(supplied, q.0))
  }

  lemma PutEnriches(supplied: Facts, f: Facts, q: (Name, string), replies: set<(Name, string)>)
    requires FactsOk(supplied) && Enriched(supplied, f, replies) && Admissible(supplied, q, replies)
    ensures Enriched(supplied, Put(f, q.0, q.1), replies)
  {
    var after := Put(f, q.0, q.1);
    forall k ensures Kept(supplied, after, k) { assert Kept(supplied, f, k); }
    forall k ensures Resolved(supplied, after, replies, k) { assert Resolved(supplied, f, replies, k); }
  }

  lemma {:induction false} PutAllEnriches(supplied: Facts, f: Facts, resolved: seq<(Name, string)>,
                                          replies: set<(Name, string)>)
    requires FactsOk(supplied) && Enriched(supplied, f, replies)
    requires forall i :: 0 <= i < |resolved| ==> Admissible(supplied, resolved[i], replies)
    ensures Enriched(supplied, PutAll(f, resolved), replies)
    decreases |resolved|
  {
    if resolved != [] {
      PutEnriches(supplied, f, resolved[0], replies);
      PutAllEnriches(supplied, Put(f, resolved[0].0, resolved[0].1), resolved[1..], replies);
    }
  }

  lemma {:induction false} PutAllKnown(f: Facts, resolved: seq<(Name, string)>, k: Name)
    ensures Known(PutAll(f, resolved), k) <==> Known(f, k) || k in KeysOf(resolved)
    decreases |resolved|
  {
    if resolved != [] {
      PutAllKnown(Put(f, resolved[0].0, resolved[0].1), resolved[1..], k);
      assert KeysOf(resolved) == [resolved[0].0] + KeysOf(resolved[1..]);
    }
  }

  /** Asking for absent fields only ever adds facts that were asked for. */
  lemma LookupEnriches(p: Pending, supplied: Facts, o: Oracles, f: Facts, lookup: Lookup, requested: seq<Name>)
    requires FactsOk(supplied) && Enriched(supplied, f, Replies(o)) && o.resolver.Some?
    requires forall k :: k in requested ==> Missing(f, k)
    ensures var resolved := Usable(o.resolver.value(lookup), requested);
            && Enriched(supplied, PutAll(f, resolved), Replies(o))
            && (forall k :: Known(f, k) ==> Known(PutAll(f, resolved), k))
            && (forall k :: k in KeysOf(resolved) ==> Known(PutAll(f, resolved), k))
            && (forall k :: Known(PutAll(f, resolved), k) ==> Known(f, k) || k in requested)
  {
    var resolved := Usable(o.resolver.value(lookup), requested);
    forall i | 0 <= i < |resolved| ensures Admissible(supplied, resolved[i], Replies(o)) {
      assert resolved[i] in resolved;
      assert resolved[i] in o.resolver.value(lookup);
      assert Kept(supplied, f, resolved[i].0);
    }
    PutAllEnriches(supplied, f, resolved, Replies(o));
    forall k ensures Known(PutAll(f, resolved), k) <==> Known(f, k) || k in KeysOf(resolved) {
      PutAllKnown(f, resolved, k);
    }
  }

  /** More facts, and a list of fields without the ones that became known, keep a plan in order. */
  lemma PlanWithFacts(p: Pending, supplied: Facts, o: Oracles, plan: Plan, considered: seq<Name>, r: Plan)
    requires PlanOk(p, supplied, o, plan, considered)
    requires Enriched(supplied, r.facts, Replies(o)) && forall k :: Known(plan.facts, k) ==> Known(r.facts, k)
    requires r.unspecified == plan.unspecified && r.deferred == plan.deferred
              && r.chosen.optionId == plan.chosen.optionId
    requires forall k :: k in r.fields ==> k in plan.fields && Missing(r.facts, k)
    requires forall k :: k in plan.fields && IsIdentity(k) ==> k in r.fields || Known(r.facts, k)
    ensures PlanOk(p, supplied, o, r, considered)
  {
    SettledCarries(p, plan, r, considered);
  }

  /** The identities to look up when only an unnamed detail is missing: those the question names and nothing covers. */
  function NamedIdentities(p: Pending, supplied: Facts, plan: Plan): seq<Name> {
    Filter([VpcId, ZoneId],
           (k: Name) => k in p.subjects && !Known(plan.facts, k) && k !in DeferredIdentities(p, supplied))
  }

  /** `considered` are the first ten missing fields that the choice names, given those facts. */
  ghost predicate IsAgenda(c: Choice, f: Facts, considered: seq<Name>) {
    c.missing.Items? && considered == Considered(c.missing.items, f)
  }

  ghost predicate SameNotices(plan: Plan, r: Plan) {
    r.unspecified == plan.unspecified && r.deferred == plan.deferred
  }

  /** Identities are looked up when only an unnamed detail is missing and the question names some. */
  predicate LooksUpIdentities(p: Pending, supplied: Facts, o: Oracles, plan: Plan) {
    plan.fields == [Other] && o.resolver.Some? && NamedIdentities(p, supplied, plan) != []
  }

  function FoundIdentities(p: Pending, supplied: Facts, o: Oracles, plan: Plan): seq<(Name, string)> {
    if LooksUpIdentities(p, supplied, o, plan)
    then Usable(o.resolver.value(Identities), NamedIdentities(p, supplied, plan)) else []
  }

  /** Something was found, and the helper's new choice in its light is acceptable. */
  predicate Reviewed(p: Pending, supplied: Facts, o: Oracles, plan: Plan) {
    var found := FoundIdentities(p, supplied, o, plan);
    found != [] && Acceptable(o.helper(IdentityReview), PutAll(plan.facts, found))
  }

  /** The plan with the identities that were found and, if it was reviewed, the new choice. */
  function Identified(p: Pending, supplied: Facts, o: Oracles, plan: Plan): Plan {
    var facts := PutAll(plan.facts, FoundIdentities(p, supplied, o, plan));
    if Reviewed(p, supplied, o, plan) then
      var c := o.helper(IdentityReview).value;
      plan.(facts := facts, chosen := c, fields := Considered(c.missing.items, facts))
    else plan.(facts := facts)
  }

  /**
   When only an unnamed detail is missing, identities named in the question are looked up and the helper asked again.
   */
  method LookUpIdentities(p: Pending, supplied: Facts, o: Oracles, plan: Plan, considered: seq<Name>)
    returns (r: Plan, considered': seq<Name>, calls: nat, lookups: nat, reviewed: bool)
    requires PlanOk(p, supplied, o, plan, considered)
    ensures PlanOk(p, supplied, o, r, considered') && SameNotices(plan, r)
    ensures r == Identified(p, supplied, o, plan) && (reviewed <==> Reviewed(p, supplied, o, plan))
    ensures lookups == if LooksUpIdentities(p, supplied, o, plan) then 1 else 0
    ensures calls == if FoundIdentities(p, supplied, o, plan) != [] then 1 else 0
    ensures if reviewed then o.helper(IdentityReview).Some?
              && IsAgenda(o.helper(IdentityReview).value, r.facts, considered')
            else considered' == considered
  {
    hide Considered, Filter, Usable, Enriched, Replies;
    reviewed := false;
    r, considered', calls, lookups := plan, considered, 0, 0;
    if plan.fields != [Other] || o.resolver == None {
      return;
    }
    var identities := NamedIdentities(p, supplied, plan);
    if identities == [] {
      return;
    }
    LookupEnriches(p, supplied, o, plan.facts, Identities, identities);
    var resolved := Usable(o.resolver.value(Identities), identities);
    lookups := 1;
    if resolved == [] {
      return;
    }
    r := plan.(facts := PutAll(plan.facts, resolved));
    PlanWithFacts(p, supplied, o, plan, considered, r);
    var reconsidered := o.helper(IdentityReview);
    calls := 1;
    if Acceptable(reconsidered, r.facts) {
      var fields := Considered(reconsidered.value.missing.items, r.facts);
      ghost var before := r;
      r := r.(chosen := reconsidered.value, fields := fields);
      FieldsAreReportable(reconsidered.value.missing.items, before.facts);
      considered', reviewed := fields, true;
    }
  }

  /** First occurrences only, in order. */
  function Distinct<T(==, !new)>(keys: seq<T>): (r: seq<T>)
    ensures forall k :: k in r <==> k in keys
    ensures keys != [] ==> r != [] && r[0] == keys[0]
    decreases |keys|
  {
    if keys == [] then []
    else
      var init, last := keys[..|keys| - 1], keys[|keys| - 1];
      assert forall k :: k in keys <==> k == last || k in init;
      Distinct(init) + if last in init then [] else [last]
  }

  /** The plan after a lookup of the fields that are still missing. */
  function LookedUp(o: Oracles, plan: Plan): Plan {
    if plan.fields == [] || o.resolver == None then plan
    else
      var resolved := Usable(o.resolver.value(Fields), plan.fields);
      var facts := PutAll(plan.facts, resolved);
      var keys := if AllStrings(plan.chosen.factKeys) then Strings(plan.chosen.factKeys.items) else [];
      plan.(facts := facts,
            chosen := plan.chosen.(factKeys := Listed(Distinct(keys + KeysOf(resolved)))),
            fields := Filter(plan.fields, (k: Name) => !Known(facts, k)))
  }

  /** Fields that are still missing are looked up; what comes back joins the selected facts. */
  lemma LookUpKeepsPlan(p: Pending, supplied: Facts, o: Oracles, plan: Plan, considered: seq<Name>)
    requires PlanOk(p, supplied, o, plan, considered)
    ensures PlanOk(p, supplied, o, LookedUp(o, plan), considered) && SameNotices(plan, LookedUp(o, plan))
    ensures forall k :: k in LookedUp(o, plan).fields ==> k in plan.fields
    ensures plan.fields != [] && o.resolver.Some? ==>
              forall k :: k in LookedUp(o, plan).fields <==> k in plan.fields && !Known(LookedUp(o, plan).facts, k)
    ensures forall k :: Known(LookedUp(o, plan).facts, k) <==>
              Known(plan.facts, k) || (k in plan.fields && o.resolver.Some? && HasValue(o.resolver.value(Fields), k))
  {
    if plan.fields != [] && o.resolver.Some? {
      LookupEnriches(p, supplied, o, plan.facts, Fields, plan.fields);
      PlanWithFacts(p, supplied, o, plan, considered, LookedUp(o, plan));
      var resolved := Usable(o.resolver.value(Fields), plan.fields);
      forall k ensures Known(LookedUp(o, plan).facts, k) <==>
                       Known(plan.facts, k) || (k in plan.fields && HasValue(o.resolver.value(Fields), k))
      {
        PutAllKnown(plan.facts, resolved, k);
        UsableKeys(o.resolver.value(Fields), plan.fields, k);
      }
    }
  }

  /** The reply has a usable value for the name. */
  predicate HasValue(reply: seq<(Name, string)>, k: Name) {
    exists q :: q in reply && q.0 == k && !Blank(q.1)
  }

  lemma HasValueStep(reply: seq<(Name, string)>, k: Name)
    requires reply != []
    ensures HasValue(reply, k) <==> (reply[0].0 == k && !Blank(reply[0].1)) || HasValue(reply[1..], k)
  {
    hide Blank;
    assert forall q :: q in reply <==> q == reply[0] || q in reply[1..];
  }

  lemma {:induction false} UsableKeys(reply: seq<(Name, string)>, requested: seq<Name>, k: Name)
    ensures k in KeysOf(Usable(reply, requested)) <==> k in requested && HasValue(reply, k)
  {
    if reply != [] {
      hide HasValue, Blank;
      UsableKeys(reply[1..], requested, k);
      HasValueStep(reply, k);
      var head, rest := reply[0], Usable(reply[1..], requested);
      var mine := if head.0 in requested && !Blank(head.1) then [head] else [];
      assert KeysOf(mine) == if mine == [] then [] else [head.0];
      assert KeysOf(mine + rest) == KeysOf(mine) + KeysOf(rest);
      assert Usable(reply, requested) == mine + rest;
    }
  }

  // ---------- honest absence ----------

  /** Every identity the question is about is known or explicitly deferred. */
  predicate IdentitiesCovered(p: Pending, f: Facts) {
    forall k :: k in p.subjects && (IsParameter(k) || k.Cidr? || k.CidrPrefix? || k.StackName?) ==>
      Known(f, k) || DeclaredDeferred(p, k)
  }

  /** When the answer may say that a field is undecided. */
  predicate NoticeAllowed(p: Pending, f: Facts, k: Name) {
    match k
    case Other => Known(f, Goal) && !p.requiredWord && SecretParameter !in p.subjects && IdentitiesCovered(p, f)
    case Constraints => SecretParameter !in p.subjects && IdentitiesCovered(p, f)
    case Cidr => Cidr !in p.subjects
    case CidrPrefix => CidrPrefix !in p.subjects && Cidr !in p.subjects
    case _ => true
  }

  ghost predicate NoticesAllowed(p: Pending, f: Facts, unspecified: seq<Name>) {
    forall k :: k in unspecified ==> NoticeAllowed(p, f, k)
  }

  /** Before any lookup only preferences that the question is not about are admitted as undecided. */
  ghost predicate OnlyUnrelated(p: Pending, unspecified: seq<Name>) {
    forall k :: k in unspecified ==> Unrelated(p, k)
  }

  lemma UnresolvedMeansCovered(p: Pending, supplied: Facts, f: Facts)
    requires Unresolved(p, supplied, f) == {}
    ensures IdentitiesCovered(p, f)
  {
    forall k | k in p.subjects && (IsParameter(k) || k.Cidr? || k.CidrPrefix? || k.StackName?)
      ensures Known(f, k) || DeclaredDeferred(p, k)
    {
      assert k in Unresolved(p, supplied, f) <==> !Known(f, k) && k !in DeferredIdentities(p, supplied);
    }
  }

  predicate Vague(detail: Option<string>) {
    detail in {None, Some("unknown"), Some("business_preference")}
  }

  predicate Subset(names: seq<Name>, allowed: set<Name>) {
    forall k :: k in names ==> k in allowed
  }

  /** A real, non-control option answers the question while only preferences are undecided. */
  predicate OptionCovers(p: Pending, supplied: Facts, plan: Plan) {
    && p.allowText
    && AllKnown(plan.chosen.factKeys, plan.facts) && plan.chosen.factKeys.items != []
    && plan.chosen.optionId != None && plan.chosen.optionId != Some("")
    && (var option := FindOption(p.options, plan.chosen.optionId); option.Some? && !option.value.control)
    && Subset(plan.fields, {Region, Purpose, Workload, Scale, Budget, Constraints})
    && (Constraints in plan.fields ==>
          Vague(plan.chosen.detail) && SecretParameter !in p.subjects && Unresolved(p, supplied, plan.facts) == {})
  }

  /** Nothing in the question makes it dishonest to say that a detail has not been decided. */
  predicate MayAdmitAbsence(p: Pending, supplied: Facts, plan: Plan) {
    && p.allowText
    && AllKnown(plan.chosen.factKeys, plan.facts)
    && Known(plan.facts, Goal)
    && !p.requiredWord && SecretParameter !in p.subjects && Unresolved(p, supplied, plan.facts) == {}
  }

  predicate PreferencesOnly(p: Pending, supplied: Facts, plan: Plan) {
    && Subset(plan.fields, {Purpose, Workload, Scale, Budget})
    && Vague(plan.chosen.detail) && MayAdmitAbsence(p, supplied, plan)
  }

  predicate OnlyOther(p: Pending, supplied: Facts, plan: Plan, grounded: bool) {
    && plan.fields == [Other] && plan.chosen.missing == Items([Some(Other)])
    && (Vague(plan.chosen.detail) || (plan.chosen.detail == Some("resource_name") && grounded && !p.nameWord))
    && MayAdmitAbsence(p, supplied, plan)
  }

  /** Undecided fields move from the list of missing ones to the notice of absence. */
  function Admit(plan: Plan): Plan {
    plan.(unspecified := plan.unspecified + plan.fields, fields := [])
  }

  /** All facts are restated and no option is taken. */
  function Restate(plan: Plan): Plan {
    Admit(plan).(chosen := plan.chosen.(factKeys := Listed(plan.facts.keys), optionId := Some("")))
  }

  lemma AdmitKeepsPlan(p: Pending, supplied: Facts, o: Oracles, plan: Plan, considered: seq<Name>)
    requires PlanOk(p, supplied, o, plan, considered)
    requires (forall k :: k in plan.fields ==> HasLabel(k)) && forall k :: k in plan.fields ==> !IsIdentity(k)
    ensures PlanOk(p, supplied, o, Admit(plan), considered) && PlanOk(p, supplied, o, Restate(plan), considered)
  {
    SettledCarries(p, plan, Admit(plan), considered);
    SettledCarries(p, plan, Restate(plan), considered);
  }

  /** The remaining fields are admitted as undecided when one of three conditions allows it. */
  predicate MayAdmit(p: Pending, supplied: Facts, plan: Plan, grounded: bool) {
    OptionCovers(p, supplied, plan) || PreferencesOnly(p, supplied, plan) || OnlyOther(p, supplied, plan, grounded)
  }

  function AdmitAbsences(p: Pending, supplied: Facts, plan: Plan, grounded: bool): Plan {
    if plan.fields != [] && OptionCovers(p, supplied, plan) then Admit(plan)
    else if plan.fields != [] && PreferencesOnly(p, supplied, plan) then Restate(plan)
    else if OnlyOther(p, supplied, plan, grounded) then Restate(plan)
    else plan
  }

  lemma AdmitAbsencesKeepsPlan(p: Pending, supplied: Facts, o: Oracles, plan: Plan, grounded: bool,
                               considered: seq<Name>)
    requires PlanOk(p, supplied, o, plan, considered)
    ensures var r := AdmitAbsences(p, supplied, plan, grounded);
            && PlanOk(p, supplied, o, r, considered) && r.facts == plan.facts && r.deferred == plan.deferred
            && (r.fields == [] <==> plan.fields == [] || MayAdmit(p, supplied, plan, grounded))
            && r.unspecified == plan.unspecified + (if r.fields == [] then plan.fields else [])
            && (OnlyUnrelated(p, plan.unspecified) ==> NoticesAllowed(p, r.facts, r.unspecified))
  {
    if plan.fields != [] && MayAdmit(p, supplied, plan, grounded) {
      AdmitKeepsPlan(p, supplied, o, plan, considered);
      AdmitIsAllowed(p, supplied, plan, grounded);
    }
    assert plan.unspecified + [] == plan.unspecified;
  }

  /** Each of the three ways to admit an absence makes sure that the notice is allowed. */
  lemma AdmitIsAllowed(p: Pending, supplied: Facts, plan: Plan, grounded: bool)
    requires OptionCovers(p, supplied, plan) || PreferencesOnly(p, supplied, plan)
              || OnlyOther(p, supplied, plan, grounded)
    ensures OnlyUnrelated(p, plan.unspecified) ==> NoticesAllowed(p, plan.facts, plan.unspecified + plan.fields)
  {
    if Unresolved(p, supplied, plan.facts) == {} { UnresolvedMeansCovered(p, supplied, plan.facts); }
    if OnlyUnrelated(p, plan.unspecified) {
      forall k | k in plan.unspecified + plan.fields ensures NoticeAllowed(p, plan.facts, k) {
        if k !in plan.unspecified { assert k in plan.fields; }
      }
    }
  }

  // ---------- the whole screening ----------

  function FirstAgenda(supplied: Facts, chosen: Choice): seq<Name>
    requires chosen.missing.Items?
  {
    Considered(chosen.missing.items, supplied)
  }

  function Deferred(p: Pending, supplied: Facts, chosen: Choice): Plan
    requires chosen.missing.Items?
  {
    Defer(p, Plan(supplied, chosen, FirstAgenda(supplied, chosen), [], {}))
  }

  /** The plan before anything is looked up: deferrals taken out, unrelated preferences admitted. */
  function Opened(p: Pending, supplied: Facts, chosen: Choice): Plan
    requires chosen.missing.Items?
  {
    DropUnrelated(p, Deferred(p, supplied, chosen))
  }

  /** The plan after both lookups. */
  function Enquired(p: Pending, supplied: Facts, o: Oracles, chosen: Choice): Plan
    requires chosen.missing.Items?
  {
    LookedUp(o, Identified(p, supplied, o, Opened(p, supplied, chosen)))
  }

  function Screening(p: Pending, supplied: Facts, o: Oracles, chosen: Choice): Plan
    requires chosen.missing.Items?
  {
    AdmitAbsences(p, supplied, Enquired(p, supplied, o, chosen), GroundedCurrent(p, Deferred(p, supplied, chosen)))
  }

  lemma OpenedOk(p: Pending, supplied: Facts, o: Oracles, chosen: Choice)
    requires FactsOk(supplied) && chosen.missing.Items? && ChosenByHelper(o, chosen.optionId)
    ensures var plan := Opened(p, supplied, chosen);
            && PlanOk(p, supplied, o, plan, FirstAgenda(supplied, chosen)) && OnlyUnrelated(p, plan.unspecified)
            && plan.facts == supplied && plan.deferred == Deferred(p, supplied, chosen).deferred
  {
    hide Considered, PlanOk, Defer, DropUnrelated;
    var considered := FirstAgenda(supplied, chosen);
    FieldsAreReportable(chosen.missing.items, supplied);
    InitialPlan(p, supplied, o, chosen, considered);
    DeferKeepsPlan(p, supplied, o, Plan(supplied, chosen, considered, [], {}), considered);
    DropKeepsPlan(p, supplied, o, Deferred(p, supplied, chosen), considered);
  }

  /**
   Decides whether the missing fields named by the helper leave room for an honest answer. An answer is
   refused while any of them is neither a fact, nor deferred by the user, nor an admissible absence.
   The fields that were looked at are those of the last choice consulted, given the facts known at that time.
   */
  method Screen(p: Pending, supplied: Facts, o: Oracles, chosen: Choice)
    returns (ok: bool, plan: Plan, considered: seq<Name>, basis: Facts, reviewed: bool, calls: nat, lookups: nat)
    requires FactsOk(supplied) && chosen.missing.Items? && ChosenByHelper(o, chosen.optionId)
    ensures PlanOk(p, supplied, o, plan, considered) && plan == Screening(p, supplied, o, chosen)
    ensures calls <= 1 && lookups <= 2
    ensures (ok <==> plan.fields == []) && (ok ==> AllSettled(p, plan.facts, considered))
    ensures reviewed <==> Reviewed(p, supplied, o, Opened(p, supplied, chosen))
    ensures Screened(supplied, o, chosen, considered, basis, reviewed)
    ensures basis == if reviewed then Identified(p, supplied, o, Opened(p, supplied, chosen)).facts else supplied
    ensures NoticesAllowed(p, plan.facts, plan.unspecified)
  {
    hide Considered, Defer, DropUnrelated, Identified, LookedUp, AdmitAbsences, Reviewed, NoticesAllowed, AllSettled;
    considered := FirstAgenda(supplied, chosen);
    plan := Deferred(p, supplied, chosen);
    var grounded := GroundedCurrent(p, plan);
    plan := DropUnrelated(p, plan);
    OpenedOk(p, supplied, o, chosen);
    plan, considered, calls, lookups, reviewed := LookUpIdentities(p, supplied, o, plan, considered);
    basis := if reviewed then plan.facts else supplied;
    LookUpKeepsPlan(p, supplied, o, plan, considered);
    lookups := lookups + if plan.fields != [] && o.resolver.Some? then 1 else 0;
    plan := LookedUp(o, plan);
    AdmitAbsencesKeepsPlan(p, supplied, o, plan, grounded, considered);
    plan := AdmitAbsences(p, supplied, plan, grounded);
    ok := plan.fields == [];
    SettledMeans(p, plan, considered);
  }

  lemma InitialPlan(p: Pending, supplied: Facts, o: Oracles, chosen: Choice, fields: seq<Name>)
    requires FactsOk(supplied) && ChosenByHelper(o, chosen.optionId) && forall k :: k in fields ==> Missing(supplied, k)
    ensures PlanOk(p, supplied, o, Plan(supplied, chosen, fields, [], {}), fields)
  {
    var plan := Plan(supplied, chosen, fields, [], {});
    forall k ensures Kept(supplied, supplied, k) { }
    forall k ensures Resolved(supplied, supplied, Replies(o), k) { }
    forall k | k in fields && IsIdentity(k) ensures Settled(p, plan, k) { }
  }

  /** Where the considered fields come from. */
  ghost predicate Screened(supplied: Facts, o: Oracles, chosen: Choice, considered: seq<Name>, basis: Facts,
                           reviewed: bool) {
    if reviewed then
      && o.helper(IdentityReview).Some? && IsAgenda(o.helper(IdentityReview).value, basis, considered)
      && Enriched(supplied, basis, Replies(o))
    else basis == supplied && IsAgenda(chosen, supplied, considered)
  }

  /** Every considered identity is now a known fact, or is one the user declared deferred. */
  ghost predicate AllSettled(p: Pending, f: Facts, considered: seq<Name>) {
    forall k :: k in considered && IsIdentity(k) ==> Known(f, k) || DeclaredDeferred(p, k)
  }

  lemma SettledMeans(p: Pending, plan: Plan, considered: seq<Name>)
    requires forall k {:trigger Settled(p, plan, k)} :: k in considered && IsIdentity(k) ==> Settled(p, plan, k)
    ensures plan.fields == [] ==> AllSettled(p, plan.facts, considered)
  {
    forall k | k in considered && IsIdentity(k) ensures Settled(p, plan, k) { }
  }

  // ---------- which missing fields are looked at ----------

  lemma {:induction false} FilterConcat(a: seq<Name>, b: seq<Name>, keep: Name -> bool)
    ensures Filter(a + b, keep) == Filter(a, keep) + Filter(b, keep)
  {
    if a == [] {
      assert a + b == b;
    } else {
      assert (a + b)[1..] == a[1..] + b;
      FilterConcat(a[1..], b, keep);
    }
  }

  ghost predicate DistinctNames(names: seq<Name>) {
    forall i, j :: 0 <= i < j < |names| ==> names[i] != names[j]
  }

  /** The place of a name in the sorted order. */
  function Place(k: Name): nat {
    match k
    case Budget => 0
    case Cidr => 1
    case CidrPrefix => 2
    case CloudVendor => 3
    case Constraints => 4
    case Goal => 5
    case Other => 6
    case Purpose => 7
    case Region => 8
    case ResourceScope => 9
    case Scale => 10
    case StackName => 11
    case VpcId => 12
    case Workload => 13
    case ZoneId => 14
    case _ => 15
  }

  /** How the source writes the names under which fields are reported. */
  function Spelling(k: Name): string
    requires IsReportable(k)
  {
    match k
    case Goal => "goal"
    case CloudVendor => "cloud_vendor"
    case Region => "region"
    case Purpose => "purpose"
    case Workload => "workload"
    case Scale => "scale"
    case Budget => "budget"
    case ResourceScope => "resource_scope"
    case Constraints => "constraints"
    case VpcId => "vpc_id"
    case ZoneId => "zone_id"
    case Cidr => "cidr"
    case CidrPrefix => "cidr_prefix"
    case StackName => "stack_name"
    case Other => "other"
  }

  /** The strings agree up to place `n`, where the first one ends or has the smaller character. */
  ghost predicate SmallerAt(a: string, b: string, n: nat) {
    n <= |a| && n < |b| && a[..n] == b[..n] && (n < |a| ==> a[n] < b[n])
  }

  ghost predicate Smaller(a: string, b: string) {
    exists n: nat :: SmallerAt(a, b, n)
  }

  lemma SmallerChains(a: string, b: string, c: string)
    requires Smaller(a, b) && Smaller(b, c)
    ensures Smaller(a, c)
  {
    var i: nat :| SmallerAt(a, b, i);
    var j: nat :| SmallerAt(b, c, j);
    var n := if i < j then i else j;
    assert a[..n] == a[..i][..n] && b[..n] == b[..i][..n] && b[..n] == b[..j][..n] && c[..n] == c[..j][..n];
    assert i < j ==> c[..j][i] == c[i] && b[..j][i] == b[i];
    assert j < i ==> a[..i][j] == a[j] && b[..i][j] == b[j];
    assert SmallerAt(a, c, n);
  }

  lemma SpelledInOrder(i: nat)
    requires i < 14
    ensures Smaller(Spelling(SORTED[i]), Spelling(SORTED[i + 1]))
  {
    var n := if i == 1 then 4 else if i == 2 || i == 3 || i == 10 then 1 else if i == 8 then 2 else 0;
    assert SmallerAt(Spelling(SORTED[i]), Spelling(SORTED[i + 1]), n);
  }

  /** The order of the names is the alphabetical order of their spellings. */
  lemma {:induction false} SortedIsAlphabetical(i: nat, j: nat)
    requires i < j < |SORTED|
    ensures Smaller(Spelling(SORTED[i]), Spelling(SORTED[j]))
  {
    hide Spelling, Smaller;
    SpelledInOrder(j - 1);
    if i < j - 1 {
      SortedIsAlphabetical(i, j - 1);
      SmallerChains(Spelling(SORTED[i]), Spelling(SORTED[j - 1]), Spelling(SORTED[j]));
    }
  }

  lemma SortedIsDistinct()
    ensures DistinctNames(SORTED)
  {
    hide Place;
    SortedPlaces();
  }

  lemma {:induction false} FilterAround(names: seq<Name>, keep: Name -> bool, i: nat)
    requires i < |names|
    ensures Filter(names, keep)
            == Filter(names[..i], keep) + (if keep(names[i]) then [names[i]] else []) + Filter(names[i + 1..], keep)
  {
    var behind := names[i..];
    assert behind[0] == names[i] && behind[1..] == names[i + 1..];
    FilterSplit(names, keep, i);
  }

  lemma {:induction false} FilterSplit(names: seq<Name>, keep: Name -> bool, i: nat)
    requires i <= |names|
    ensures Filter(names, keep) == Filter(names[..i], keep) + Filter(names[i..], keep)
  {
    FilterConcat(names[..i], names[i..], keep);
    assert names == names[..i] + names[i..];
  }

  /** In a filtered list an element stands behind the kept elements that precede it. */
  lemma {:induction false} FirstTenOfFilter(names: seq<Name>, keep: Name -> bool, i: nat)
    requires DistinctNames(names) && i < |names|
    ensures names[i] in FirstTen(Filter(names, keep)) <==> keep(names[i]) && |Filter(names[..i], keep)| < 10
  {
    var k := names[i];
    FilterAround(names, keep, i);
    assert k !in names[..i] && k !in names[i + 1..];
    FirstTenMember(Filter(names[..i], keep), if keep(k) then [k] else [], Filter(names[i + 1..], keep), k);
  }

  lemma FirstTenMember(before: seq<Name>, here: seq<Name>, after: seq<Name>, k: Name)
    requires k !in before && k !in after && (here == [k] || here == [])
    ensures k in FirstTen(before + here + after) <==> here == [k] && |before| < 10
  {
    var all := before + here + after;
    if k in FirstTen(all) {
      var j :| 0 <= j < |FirstTen(all)| && FirstTen(all)[j] == k;
      assert all[j] == k;
      assert j == |before|;
    }
    if here == [k] && |before| < 10 {
      assert all[|before|] == k;
      assert FirstTen(all)[|before|] == k;
    }
  }

  /** A missing field is looked at exactly when fewer than ten missing fields sort before it. */
  lemma ConsideredIff(items: seq<Option<Name>>, f: Facts, i: nat)
    requires i < |SORTED|
    ensures SORTED[i] in Considered(items, f) <==>
            Reports(items, f, SORTED[i]) && |Filter(SORTED[..i], Reported(items, f))| < 10
  {
    SortedIsDistinct();
    AllMissingIsFilter(items, f);
    FirstTenOfFilter(SORTED, Reported(items, f), i);
  }

  /** With at most ten missing fields none is passed over. */
  lemma UpToTenAllConsidered(items: seq<Option<Name>>, f: Facts, k: Name)
    requires IsReportable(k)
    ensures |AllMissing(items, f)| <= 10 ==> (k in Considered(items, f) <==> Reports(items, f, k))
  {
    hide Filter;
    AllMissingIsFilter(items, f);
    var all := AllMissing(items, f);
    assert k in all <==> Reported(items, f)(k);
  }

  lemma {:induction false} FilterAll(names: seq<Name>, keep: Name -> bool)
    requires forall i :: 0 <= i < |names| ==> keep(names[i])
    ensures Filter(names, keep) == names
  {
    if names != [] { FilterAll(names[1..], keep); }
  }

  // ---------- the answer ----------

  /** What a free-text answer consists of. */
  datatype Draft = Draft(rendered: seq<Name>, option: Option<OptionItem>, unspecified: seq<Name>, deferred: seq<Name>)

  datatype Reason = NoQuestion | OverBudget | MissingFacts | NoFacts | NoParameter | NoOption

  datatype Outcome =
    | Answered(draft: Draft, category: Name)
    | Selected(option: OptionItem, keys: seq<Name>)
    | Refused(reason: Reason)

  ghost predicate DraftOk(p: Pending, f: Facts, d: Draft) {
    && (forall k :: k in d.rendered ==> Known(f, k))
    && (Known(f, Goal) ==> d.rendered != [] && d.rendered[0] == Goal)
    && (d.option.Some? ==> d.option.value in p.options && !d.option.value.control)
    && (forall k :: k in d.unspecified ==> HasLabel(k))
    && (forall k :: k in d.deferred ==> DeclaredDeferred(p, k))
  }

  /** The category of an answer: the first of VPC, zone and network block that it renders, or else the goal. */
  ghost predicate CategoryOf(rendered: seq<Name>, category: Name) {
    && (category == VpcId <==> VpcId in rendered)
    && (category == ZoneId <==> ZoneId in rendered && VpcId !in rendered)
    && (category == Cidr <==> Cidr in rendered && VpcId !in rendered && ZoneId !in rendered)
    && category in {VpcId, ZoneId, Cidr, Goal}
  }

  /**
   The answer is grounded: every lookup succeeds and every choice is a real, non-control option with known facts behind
   it.
   */
  ghost predicate Grounded(p: Pending, f: Facts, r: Outcome) {
    match r
    case Answered(d, category) => p.allowText && DraftOk(p, f, d) && CategoryOf(d.rendered, category)
    case Selected(option, keys) =>
      !p.allowText && option in p.options && !option.control && keys != [] && forall k :: k in keys ==> Known(f, k)
    case Refused(_) => true
  }

  /** The keys without the other parameter; the requested one comes last if it was not selected. Refused if unknown. */
  ghost function Singled(f: Facts, keys: seq<Name>, parameter: Name): Option<seq<Name>> {
    if parameter !in f.values then None
    else Some(Filter(keys, (k: Name) => k == parameter || (k != VpcId && k != ZoneId))
              + if parameter in keys then [] else [parameter])
  }

  /** The review misses nothing and, among known facts, selects this parameter once and no other. */
  ghost predicate PointsTo(c: Option<Choice>, f: Facts, parameter: Name) {
    && c.Some? && c.value.factKeys.Items?
    && (c.value.missing.Absent? || c.value.missing == NotAList(false) || c.value.missing == Items([]))
    && (forall k :: k in c.value.factKeys.items ==> k.Some? && k.value in f.values)
    && exists i :: 0 <= i < |c.value.factKeys.items| && c.value.factKeys.items[i] == Some(parameter)
         && forall j :: 0 <= j < |c.value.factKeys.items| && j != i ==>
              c.value.factKeys.items[j] !in {Some(VpcId), Some(ZoneId)}
  }

  /** More than one of the keys is a parameter. */
  ghost predicate SeveralParameters(keys: seq<Name>) {
    exists i, j :: 0 <= i < j < |keys| && keys[i] in {VpcId, ZoneId} && keys[j] in {VpcId, ZoneId}
  }

  /**
   What remains when one parameter is to be answered at a time: the options decide if they mention one; otherwise, with
   several selected, the question text and then the helper.
   */
  ghost function Narrowing(p: Pending, f: Facts, o: Oracles, keys: seq<Name>): Option<seq<Name>> {
    if |p.optionParameters| == 1 then Singled(f, keys, p.optionParameters[0])
    else if !SeveralParameters(keys) then Some(keys)
    else if |p.questionParameters| == 1 then Singled(f, keys, p.questionParameters[0])
    else if p.questionParameters == [] then Some(Filter(keys, (k: Name) => k != VpcId && k != ZoneId))
    else if PointsTo(o.helper(ParameterReview), f, VpcId) then Singled(f, keys, VpcId)
    else if PointsTo(o.helper(ParameterReview), f, ZoneId) then Singled(f, keys, ZoneId)
    else None
  }

  /** Drops the other parameter, and adds the requested one if it was not selected. */
  function OnlyParameter(keys: seq<Name>, parameter: Name): (r: seq<Name>)
    requires IsParameter(parameter)
    ensures forall k :: k in r <==> k == parameter || (k in keys && !IsParameter(k))
    ensures forall f: Facts :: Known(f, parameter) ==> Singled(f, keys, parameter) == Some(r)
  {
    var kept := Filter(keys, (k: Name) => !IsParameter(k) || k == parameter);
    FilterAlike(keys, (k: Name) => !IsParameter(k) || k == parameter,
                (k: Name) => k == parameter || (k != VpcId && k != ZoneId));
    assert kept + [] == kept;
    if parameter in kept then kept else kept + [parameter]
  }

  /** Only the currently requested parameter is kept; without a clear request the helper is asked which one it is. */
  method NarrowParameters(p: Pending, f: Facts, o: Oracles, keys: seq<Name>)
    returns (ok: bool, r: seq<Name>, calls: nat)
    requires PendingOk(p) && forall k :: k in keys ==> Known(f, k)
    ensures calls <= 1
    ensures Narrowing(p, f, o, keys) == if ok then Some(r) else None
  {
    hide Filter, OneParameter, OnlyParameter, Singled, SeveralParameters, PointsTo, Known, IsParameter;
    ok, r, calls := true, keys, 0;
    var parameters := Filter(keys, IsParameter);
    SeveralIff(keys);
    SingledIff(f, keys);
    var requested: Option<Name> := if |p.optionParameters| == 1 then Some(p.optionParameters[0]) else None;
    if requested == None && |parameters| > 1 {
      if |p.questionParameters| == 1 {
        requested := Some(p.questionParameters[0]);
      } else if p.questionParameters == [] {
        NeitherParameter(keys);
        return true, Filter(keys, (k: Name) => !IsParameter(k)), calls;
      } else {
        calls := 1;
        requested := OneParameter(f, o.helper(ParameterReview));
        OneParameterIff(f, o.helper(ParameterReview));
        ParameterIs();
        if requested == None {
          return false, r, calls;
        }
      }
    }
    if requested.Some? {
      if !Known(f, requested.value) {
        return false, r, calls;
      }
      return true, OnlyParameter(keys, requested.value), calls;
    }
  }

  lemma {:induction false} FilterAlike(names: seq<Name>, a: Name -> bool, b: Name -> bool)
    requires forall k :: a(k) <==> b(k)
    ensures Filter(names, a) == Filter(names, b)
  {
    if names != [] { FilterAlike(names[1..], a, b); }
  }

  lemma NeitherParameter(keys: seq<Name>)
    ensures Filter(keys, (k: Name) => !IsParameter(k)) == Filter(keys, (k: Name) => k != VpcId && k != ZoneId)
  {
    FilterAlike(keys, (k: Name) => !IsParameter(k), (k: Name) => k != VpcId && k != ZoneId);
  }

  lemma SingledIff(f: Facts, keys: seq<Name>)
    ensures forall k :: Singled(f, keys, k).Some? <==> Known(f, k)
  {
  }

  /** Two different places of the list hold kept elements exactly when two elements are kept. */
  lemma FilterSeveral(names: seq<Name>, keep: Name -> bool)
    ensures |Filter(names, keep)| > 1 <==> exists i, j :: 0 <= i < j < |names| && keep(names[i]) && keep(names[j])
  {
    hide Filter;
    if |Filter(names, keep)| > 1 {
      var i, j := TwoKept(names, keep);
      assert keep(names[i]) && keep(names[j]);
    }
    if i, j :| 0 <= i < j < |names| && keep(names[i]) && keep(names[j]) {
      var rest := names[i + 1..];
      assert rest[j - i - 1] == names[j] && names[j] in Filter(rest, keep);
      FilterAround(names, keep, i);
    }
  }

  lemma {:induction false} TwoKept(names: seq<Name>, keep: Name -> bool) returns (i: nat, j: nat)
    requires |Filter(names, keep)| > 1
    ensures i < j < |names| && keep(names[i]) && keep(names[j])
  {
    if keep(names[0]) {
      var rest := names[1..];
      var k := Filter(rest, keep)[0];
      assert k in Filter(rest, keep);
      j :| 0 <= j < |rest| && rest[j] == k;
      i, j := 0, j + 1;
    } else {
      i, j := TwoKept(names[1..], keep);
      i, j := i + 1, j + 1;
    }
  }

  lemma SeveralIff(keys: seq<Name>)
    ensures SeveralParameters(keys) <==> |Filter(keys, IsParameter)| > 1
  {
    hide Filter;
    FilterSeveral(keys, IsParameter);
  }

  /** What remains is known and holds at most one of the two parameters. */
  lemma NarrowingMeans(p: Pending, f: Facts, o: Oracles, keys: seq<Name>)
    requires PendingOk(p) && forall k :: k in keys ==> Known(f, k)
    ensures Narrowing(p, f, o, keys).Some? ==>
              var r := Narrowing(p, f, o, keys).value;
              !(VpcId in r && ZoneId in r) && forall k :: k in r ==> Known(f, k)
  {
    hide Filter, PointsTo, SeveralParameters, Singled;
    BothAreSeveral(keys);
    forall k | IsParameter(k)
      ensures Singled(f, keys, k).Some? ==>
                var r := Singled(f, keys, k).value;
                !(VpcId in r && ZoneId in r) && forall n :: n in r ==> Known(f, n)
    {
      SingledMeans(f, keys, k);
    }
  }

  lemma SingledMeans(f: Facts, keys: seq<Name>, parameter: Name)
    requires IsParameter(parameter) && forall k :: k in keys ==> Known(f, k)
    ensures Singled(f, keys, parameter).Some? ==>
              var r := Singled(f, keys, parameter).value;
              !(VpcId in r && ZoneId in r) && forall k :: k in r ==> Known(f, k)
  {
    hide Singled, OnlyParameter;
    SingledIff(f, keys);
    var r := OnlyParameter(keys, parameter);
  }

  lemma BothAreSeveral(keys: seq<Name>)
    ensures VpcId in keys && ZoneId in keys ==> SeveralParameters(keys)
  {
    if VpcId in keys && ZoneId in keys {
      var i :| 0 <= i < |keys| && keys[i] == VpcId;
      var j :| 0 <= j < |keys| && keys[j] == ZoneId;
      assert keys[if i < j then i else j] in {VpcId, ZoneId} && keys[if i < j then j else i] in {VpcId, ZoneId};
    }
  }

  lemma {:induction false} FilterSingle(names: seq<Name>, keep: Name -> bool, k: Name)
    ensures Filter(names, keep) == [k] <==>
            exists i :: 0 <= i < |names| && names[i] == k && keep(k)
                        && forall j :: 0 <= j < |names| && j != i ==> !keep(names[j])
  {
    hide Filter;
    if Filter(names, keep) == [k] {
      assert k in Filter(names, keep);
      var i :| 0 <= i < |names| && names[i] == k;
      FilterSeveral(names, keep);
      forall j | 0 <= j < |names| && j != i ensures !keep(names[j]) {
        var a, b := if i < j then i else j, if i < j then j else i;
        assert 0 <= a < b < |names| && !(keep(names[a]) && keep(names[b]));
      }
    }
    if i :| 0 <= i < |names| && names[i] == k && keep(k) && forall j :: 0 <= j < |names| && j != i ==> !keep(names[j]) {
      FilterAround(names, keep, i);
      FilterNone(names[..i], keep);
      FilterNone(names[i + 1..], keep);
    }
  }

  lemma {:induction false} FilterNone(names: seq<Name>, keep: Name -> bool)
    requires forall i :: 0 <= i < |names| ==> !keep(names[i])
    ensures Filter(names, keep) == []
  {
    if names != [] { FilterNone(names[1..], keep); }
  }

  lemma OneParameterIff(f: Facts, c: Option<Choice>)
    ensures forall k :: OneParameter(f, c) == Some(k) <==> IsParameter(k) && PointsTo(c, f, k)
  {
    hide PointsTo, OneParameter;
    forall k ensures OneParameter(f, c) == Some(k) <==> IsParameter(k) && PointsTo(c, f, k) {
      if c.Some? && AllKnown(c.value.factKeys, f) && !Truthy(c.value.missing) {
        OneParameterIs(f, c, k);
        OnlyAtIff(Strings(c.value.factKeys.items), k);
        if IsParameter(k) { PointsToIs(f, c, k); }
      } else {
        NoParameterNamed(f, c, k);
      }
    }
  }

  lemma ParameterIs()
    ensures forall k :: IsParameter(k) <==> k == VpcId || k == ZoneId
  {
  }

  lemma OnlyAtIff(names: seq<Name>, k: Name)
    ensures Filter(names, IsParameter) == [k] <==> IsParameter(k) && exists i :: OnlyAt(names, i, k)
  {
    hide Filter;
    FilterSingle(names, IsParameter, k);
    if IsParameter(k) && exists i :: OnlyAt(names, i, k) {
      var i :| OnlyAt(names, i, k);
      assert names[i] == k;
    }
    if i :| 0 <= i < |names| && names[i] == k && forall j :: 0 <= j < |names| && j != i ==> !IsParameter(names[j]) {
      assert OnlyAt(names, i, k);
    }
  }

  lemma OneParameterIs(f: Facts, c: Option<Choice>, k: Name)
    requires c.Some? && AllKnown(c.value.factKeys, f) && !Truthy(c.value.missing)
    ensures OneParameter(f, c) == Some(k) <==> Filter(Strings(c.value.factKeys.items), IsParameter) == [k]
  {
    hide Filter, Strings, Known;
  }

  /** The only parameter of the list, at place `i`. */
  ghost predicate OnlyAt(names: seq<Name>, i: int, k: Name) {
    0 <= i < |names| && names[i] == k && forall j :: 0 <= j < |names| && j != i ==> !IsParameter(names[j])
  }

  lemma PointsToIs(f: Facts, c: Option<Choice>, k: Name)
    requires c.Some? && AllKnown(c.value.factKeys, f) && !Truthy(c.value.missing) && IsParameter(k)
    ensures PointsTo(c, f, k) <==> exists i :: OnlyAt(Strings(c.value.factKeys.items), i, k)
  {
    hide Strings;
    var items := c.value.factKeys.items;
    var names := Strings(items);
    assert c.value.missing.Absent? || c.value.missing == NotAList(false) || c.value.missing == Items([]);
    forall i ensures OnlyAt(names, i, k) <==>
                     0 <= i < |items| && items[i] == Some(k)
                     && forall j :: 0 <= j < |items| && j != i ==> items[j] !in {Some(VpcId), Some(ZoneId)}
    {
      OnlyAtIs(items, names, i, k);
    }
  }

  lemma OnlyAtIs(items: seq<Option<Name>>, names: seq<Name>, i: int, k: Name)
    requires |items| == |names| && forall j :: 0 <= j < |items| ==> items[j] == Some(names[j])
    ensures OnlyAt(names, i, k) <==>
            0 <= i < |items| && items[i] == Some(k)
            && forall j :: 0 <= j < |items| && j != i ==> items[j] !in {Some(VpcId), Some(ZoneId)}
  {
    if 0 <= i < |items| && items[i] == Some(k)
       && forall j :: 0 <= j < |items| && j != i ==> items[j] !in {Some(VpcId), Some(ZoneId)} {
      forall j | 0 <= j < |names| && j != i ensures !IsParameter(names[j]) { assert items[j] == Some(names[j]); }
    }
  }

  lemma NoParameterNamed(f: Facts, c: Option<Choice>, k: Name)
    requires !(c.Some? && AllKnown(c.value.factKeys, f) && !Truthy(c.value.missing))
    ensures OneParameter(f, c) == None && !PointsTo(c, f, k)
  {
  }

  /** The single parameter among the reviewed keys, provided the review reports nothing missing. */
  function OneParameter(f: Facts, reviewed: Option<Choice>): (r: Option<Name>)
    ensures r.Some? ==> IsParameter(r.value)
  {
    if reviewed.Some? && AllKnown(reviewed.value.factKeys, f) && !Truthy(reviewed.value.missing) then
      var identities := Filter(Strings(reviewed.value.factKeys.items), IsParameter);
      if |identities| == 1 then (assert identities[0] in identities; Some(identities[0])) else None
    else None
  }

  predicate Truthy(l: Listing) {
    match l
    case Absent => false
    case NotAList(truthy) => truthy
    case Items(items) => items != []
  }

  /** A second opinion on an option, used only when free text is not allowed. */
  method ReviewOption(p: Pending, f: Facts, o: Oracles)
    returns (accepted: bool, option: Option<OptionItem>, keys: seq<Name>)
    ensures accepted <==> PicksFacts(o.helper(OptionReview), f)
                          && (o.helper(OptionReview).value.missing.Absent?
                              || NamesKnown(o.helper(OptionReview).value.missing, f))
                          && FindOption(p.options, o.helper(OptionReview).value.optionId).Some?
    ensures accepted ==> option == FindOption(p.options, o.helper(OptionReview).value.optionId)
                         && keys == Strings(o.helper(OptionReview).value.factKeys.items) && keys != []
    ensures accepted ==> ChosenByHelper(o, option.value.id)
  {
    var reviewed := o.helper(OptionReview);
    if reviewed == None {
      return false, None, [];
    }
    var c := reviewed.value;
    option := FindOption(p.options, c.optionId);
    accepted := AllKnown(c.factKeys, f) && c.factKeys.items != []
                && (c.missing.Absent? || AllKnown(c.missing, f)) && option.Some?;
    keys := if accepted then Strings(c.factKeys.items) else [];
  }

  predicate Valid(chosen: Option<Choice>, f: Facts) {
    chosen.Some? && AllKnown(chosen.value.factKeys, f) && chosen.value.factKeys.items != []
  }

  /** The selected facts, or all of them when the choice is unusable. */
  function SelectedKeys(chosen: Option<Choice>, f: Facts): seq<Name> {
    if Valid(chosen, f) then Strings(chosen.value.factKeys.items) else f.keys
  }

  /** The choice selects at least one fact, and known facts only. */
  ghost predicate PicksFacts(c: Option<Choice>, f: Facts) {
    && c.Some? && c.value.factKeys.Items? && c.value.factKeys.items != []
    && forall k :: k in c.value.factKeys.items ==> k.Some? && k.value in f.values
  }

  /** The facts that a choice selects, in its order; without a usable selection all facts, in theirs. */
  ghost function Selection(c: Option<Choice>, f: Facts): seq<Name> {
    if PicksFacts(c, f) then Strings(c.value.factKeys.items) else f.keys
  }

  /** The choice selects known facts and a real, non-control option. */
  ghost predicate Backs(p: Pending, f: Facts, c: Option<Choice>) {
    PicksFacts(c, f) && (var option := FindOption(p.options, c.value.optionId); option.Some? && !option.value.control)
  }

  function Category(keys: seq<Name>): Name {
    if VpcId in keys then VpcId else if ZoneId in keys then ZoneId else if Cidr in keys then Cidr else Goal
  }

  /** In `source`, `a` occurs before any `b`. */
  ghost predicate Precedes<T(!new)>(source: seq<T>, a: T, b: T) {
    exists i :: 0 <= i < |source| && source[i] == a && forall j :: 0 <= j < |source| && source[j] == b ==> i < j
  }

  /** The elements of `source`, each once, in the order in which they first occur. */
  ghost predicate OnceInOrder<T(!new)>(r: seq<T>, source: seq<T>) {
    && (forall k :: k in r <==> k in source)
    && forall i, j :: 0 <= i < j < |r| ==> r[i] != r[j] && Precedes(source, r[i], r[j])
  }

  lemma {:induction false} DistinctInOrder<T(!new)>(keys: seq<T>)
    ensures OnceInOrder(Distinct(keys), keys)
  {
    if keys != [] {
      var init, last := keys[..|keys| - 1], keys[|keys| - 1];
      DistinctInOrder(init);
      var before, r := Distinct(init), Distinct(keys);
      forall i, j | 0 <= i < j < |r| ensures r[i] != r[j] && Precedes(keys, r[i], r[j]) {
        PrecedesInLonger(init, last, r[i], r[j], j < |before|);
      }
    }
  }

  lemma PrecedesInLonger<T(!new)>(init: seq<T>, last: T, a: T, b: T, inside: bool)
    requires if inside then Precedes(init, a, b) else b == last && a in init && b !in init
    requires b in init + [last] && (inside ==> b in init)
    ensures Precedes(init + [last], a, b) && a != b
  {
    var i: nat;
    if inside {
      i :| 0 <= i < |init| && init[i] == a && forall j :: 0 <= j < |init| && init[j] == b ==> i < j;
    } else {
      i :| 0 <= i < |init| && init[i] == a;
    }
    assert (init + [last])[i] == a;
  }

  /**
   The answer in free text: the goal and the selected facts, the selected option if it is real and no control and the
   parameters are not asked one by one, and the notices.
   */
  ghost predicate Rendered(p: Pending, b: Basis, keys: seq<Name>, r: Outcome) {
    && r.Answered? && CategoryOf(r.draft.rendered, r.category)
    && OnceInOrder(r.draft.rendered, (if Goal in b.facts.values then [Goal] else []) + keys)
    && r.draft.option == (if !p.oneParameter && Backs(p, b.facts, b.chosen)
                          then FindOption(p.options, b.chosen.value.optionId) else None)
    && r.draft.unspecified == b.unspecified
    && r.draft.deferred == (if VpcId in b.deferred then [VpcId] else []) + if ZoneId in b.deferred then [ZoneId] else []
  }

  ghost predicate TextReply(p: Pending, b: Basis, o: Oracles, r: Outcome) {
    var keys := Selection(b.chosen, b.facts);
    if keys == [] then r == Refused(NoFacts)
    else if !p.oneParameter then Rendered(p, b, keys, r)
    else if Narrowing(p, b.facts, o, keys) == None then r == Refused(NoParameter)
    else Rendered(p, b, Narrowing(p, b.facts, o, keys).value, r)
  }

  /** The answer by an option, without free text: the choice, or a review that reports nothing unknown, must back it. */
  ghost predicate OptionReply(p: Pending, b: Basis, o: Oracles, r: Outcome) {
    var review := o.helper(OptionReview);
    if Backs(p, b.facts, b.chosen) then
      r == Selected(FindOption(p.options, b.chosen.value.optionId).value, Strings(b.chosen.value.factKeys.items))
    else if Backs(p, b.facts, review)
            && (review.value.missing.Absent? || NamesKnown(review.value.missing, b.facts)) then
      r == Selected(FindOption(p.options, review.value.optionId).value, Strings(review.value.factKeys.items))
    else r == Refused(NoOption)
  }

  ghost predicate NamesKnown(l: Listing, f: Facts) {
    l.Items? && forall k :: k in l.items ==> k.Some? && k.value in f.values
  }

  lemma SelectionIs(chosen: Option<Choice>, f: Facts)
    ensures SelectedKeys(chosen, f) == Selection(chosen, f) && (Valid(chosen, f) <==> PicksFacts(chosen, f))
  {
  }

  lemma SelectedAreKnown(chosen: Option<Choice>, f: Facts)
    requires FactsOk(f)
    ensures forall k :: k in SelectedKeys(chosen, f) ==> Known(f, k)
  {
  }

  method ReplyInText(p: Pending, f: Facts, o: Oracles, chosen: Option<Choice>, unspecified: seq<Name>,
                     deferred: set<Name>)
    returns (r: Outcome, calls: nat)
    requires FactsOk(f) && PendingOk(p) && p.allowText
    requires forall k :: k in unspecified ==> HasLabel(k)
    requires forall k :: k in deferred ==> DeclaredDeferred(p, k)
    ensures Grounded(p, f, r) && !r.Selected? && calls <= 1
    ensures r.Answered? ==> r.draft.unspecified == unspecified && forall k :: k in r.draft.deferred <==> k in deferred
    ensures r.Answered? && deferred == {} ==> r.draft.deferred == []
    ensures r.Refused? ==> r.reason in {NoFacts, NoParameter}
    ensures TextReply(p, Basis(f, chosen, unspecified, deferred), o, r)
    ensures r.Answered? && r.draft.option.Some? ==> chosen.Some? && r.draft.option.value.id == chosen.value.optionId
    ensures r.Answered? && p.oneParameter ==>
              r.draft.option == None && !(VpcId in r.draft.rendered && ZoneId in r.draft.rendered)
  {
    hide Strings, Distinct, FindOption, Blank, DraftOk, HasLabel, DeclaredDeferred, Backs, Narrowing, Filter,
      OnceInOrder, SelectedKeys, Selection;
    calls := 0;
    SelectionIs(chosen, f);
    SelectedAreKnown(chosen, f);
    var keys := SelectedKeys(chosen, f);
    if keys == [] {
      return Refused(NoFacts), calls;
    }
    if p.oneParameter {
      var ok;
      NarrowingMeans(p, f, o, keys);
      ok, keys, calls := NarrowParameters(p, f, o, keys);
      if !ok {
        return Refused(NoParameter), calls;
      }
    }
    var draft := Compose(p, f, chosen, keys, unspecified, deferred);
    r := Answered(draft, Category(keys));
  }

  /** Puts an answer together from the keys that are to be rendered. */
  method Compose(p: Pending, f: Facts, chosen: Option<Choice>, keys: seq<Name>, unspecified: seq<Name>,
                 deferred: set<Name>)
    returns (d: Draft)
    requires forall k :: k in keys ==> Known(f, k)
    requires forall k :: k in unspecified ==> HasLabel(k)
    requires forall k :: k in deferred ==> DeclaredDeferred(p, k)
    ensures DraftOk(p, f, d)
    ensures forall k :: k in d.rendered <==> (k == Goal && Known(f, Goal)) || k in keys
    ensures OnceInOrder(d.rendered, (if Known(f, Goal) then [Goal] else []) + keys)
    ensures d.unspecified == unspecified && (forall k :: k in d.deferred <==> k in deferred)
    ensures d.deferred == (if VpcId in deferred then [VpcId] else []) + if ZoneId in deferred then [ZoneId] else []
    ensures d.option == if !p.oneParameter && Backs(p, f, chosen)
                        then FindOption(p.options, chosen.value.optionId) else None
    ensures d.option.Some? ==> chosen.Some? && d.option.value.id == chosen.value.optionId
  {
    hide HasLabel, OnceInOrder, Backs, Distinct, FindOption, Filter;
    var all := (if Known(f, Goal) then [Goal] else []) + keys;
    var rendered := Distinct(all);
    DistinctInOrder(all);
    var option := MentionedOption(p, f, chosen);
    FilterTwo(VpcId, ZoneId, (k: Name) => k in deferred);
    assert forall k :: k in deferred ==> DeclaredDeferred(p, k) && IsParameter(k);
    d := Draft(rendered, option, unspecified, Filter([VpcId, ZoneId], (k: Name) => k in deferred));
  }

  /** The option that an answer in free text mentions. */
  method MentionedOption(p: Pending, f: Facts, chosen: Option<Choice>) returns (option: Option<OptionItem>)
    ensures option == if !p.oneParameter && Backs(p, f, chosen)
                      then FindOption(p.options, chosen.value.optionId) else None
    ensures option.Some? ==> option.value in p.options && !option.value.control
                             && chosen.Some? && option.value.id == chosen.value.optionId
  {
    hide FindOption;
    option := if Valid(chosen, f) && !p.oneParameter then FindOption(p.options, chosen.value.optionId) else None;
    if option.Some? && option.value.control {
      option := None;
    }
  }

  lemma FilterTwo(a: Name, b: Name, keep: Name -> bool)
    ensures Filter([a, b], keep) == (if keep(a) then [a] else []) + if keep(b) then [b] else []
  {
    assert [a, b][1..] == [b] && [b][1..] == [];
  }

  method ReplyByOption(p: Pending, f: Facts, o: Oracles, chosen: Option<Choice>) returns (r: Outcome, calls: nat)
    requires !p.allowText && (chosen.Some? ==> ChosenByHelper(o, chosen.value.optionId))
    ensures Grounded(p, f, r) && !r.Answered? && calls <= 1
    ensures r.Selected? ==> ChosenByHelper(o, r.option.id)
    ensures r.Refused? ==> r.reason == NoOption
    ensures (calls == 0 <==> Backs(p, f, chosen)) && OptionReply(p, Basis(f, chosen, [], {}), o, r)
  {
    calls := 0;
    var keys := if Valid(chosen, f) then Strings(chosen.value.factKeys.items) else [];
    var option := FindOption(p.options, if chosen.Some? then chosen.value.optionId else None);
    if option == None || keys == [] || option.value.control {
      var accepted, reviewedOption, reviewedKeys := ReviewOption(p, f, o);
      calls := 1;
      if accepted {
        option, keys := reviewedOption, reviewedKeys;
      }
    }
    if option == None || keys == [] || option.value.control {
      return Refused(NoOption), calls;
    }
    r := Selected(option.value, keys);
  }

  // ---------- budget ----------

  const MAX_QUESTIONS: nat := 12
  const MAX_REPEATS: nat := 3

  type Counts = map<string, nat>

  ghost function Total(counts: Counts): nat {
    if counts == map[] then 0 else
      var k :| k in counts;
      counts[k] + Total(counts - {k})
  }

  lemma {:induction false} TotalWithout(counts: Counts, k: string)
    requires k in counts
    ensures Total(counts) == counts[k] + Total(counts - {k})
    decreases |counts|
  {
    var j :| j in counts && Total(counts) == counts[j] + Total(counts - {j});
    if j != k {
      TotalWithout(counts - {j}, k);
      TotalWithout(counts - {k}, j);
      assert counts - {j} - {k} == counts - {k} - {j};
    }
  }

  function Bumped(counts: Counts, fingerprint: string): Counts {
    counts[fingerprint := 1 + if fingerprint in counts then counts[fingerprint] else 0]
  }

  lemma TotalBumped(counts: Counts, fingerprint: string)
    ensures Total(Bumped(counts, fingerprint)) == Total(counts) + 1
  {
    var after := Bumped(counts, fingerprint);
    TotalWithout(after, fingerprint);
    if fingerprint in counts {
      TotalWithout(counts, fingerprint);
      assert after - {fingerprint} == counts - {fingerprint};
    } else {
      assert after - {fingerprint} == counts;
    }
  }

  /** The sum of all counts. */
  method Sum(counts: Counts) returns (n: nat)
    ensures n == Total(counts)
  {
    n := 0;
    var rest := counts;
    while rest != map[]
      invariant n + Total(rest) == Total(counts)
      decreases |rest|
    {
      var k :| k in rest;
      TotalWithout(rest, k);
      n := n + rest[k];
      rest := rest - {k};
    }
  }

  /** The call may be answered: neither the total nor the repeats of this question are used up. */
  ghost predicate WithinBudget(counts: Counts, fingerprint: string) {
    Total(counts) <= 12 && fingerprint in counts && counts[fingerprint] <= 3
  }

  // ---------- the whole call ----------

  /** What was consulted: the last choice that counted, the facts known then, and the fields looked at. */
  datatype Trace = Trace(choice: Option<Choice>, basis: Facts, considered: seq<Name>, reviewed: bool, calls: nat,
    lookups: nat)

  predicate NamesMissing(c: Option<Choice>) {
    c.Some? && c.value.missing.Items? && c.value.missing.items != []
  }

  ghost predicate TraceOk(supplied: Facts, o: Oracles, t: Trace) {
    && t.calls <= 4 && t.lookups <= 2
    && Enriched(supplied, t.basis, Replies(o))
    && t.considered == if NamesMissing(t.choice) then Considered(t.choice.value.missing.items, t.basis) else []
  }

  function DropBlank(f: Facts): Facts {
    Facts(Filter(f.keys, (k: Name) => k in f.values && !Blank(f.values[k])),
          map k | k in f.values && !Blank(f.values[k]) :: f.values[k])
  }

  lemma DropBlankOk(f: Facts)
    requires forall k :: k in f.keys <==> k in f.values
    ensures FactsOk(DropBlank(f))
  {
  }

  lemma EnrichedSelf(f: Facts, replies: set<(Name, string)>)
    requires FactsOk(f)
    ensures Enriched(f, f, replies)
  {
    forall k ensures Kept(f, f, k) { }
    forall k ensures Resolved(f, f, replies, k) { }
  }

  /** What an answer is made from: the facts, the choice that counts in the end, and the notices. */
  datatype Basis = Basis(facts: Facts, chosen: Option<Choice>, unspecified: seq<Name>, deferred: set<Name>)

  function Prepared(p: Pending, supplied: Facts, o: Oracles): Basis {
    var c := CountingChoice(supplied, o);
    if !NamesMissing(c) then Basis(supplied, c, [], {})
    else
      var plan := Screening(p, supplied, o, c.value);
      Basis(plan.facts, Some(plan.chosen), plan.unspecified, plan.deferred)
  }

  /** Fields stay missing after both lookups, and none of the three conditions admits their absence. */
  predicate Unanswerable(p: Pending, supplied: Facts, o: Oracles) {
    var c := CountingChoice(supplied, o);
    NamesMissing(c) &&
    (var plan := Enquired(p, supplied, o, c.value);
     plan.fields != [] && !MayAdmit(p, supplied, plan, GroundedCurrent(p, Deferred(p, supplied, c.value))))
  }

  predicate FinallyReviewed(p: Pending, supplied: Facts, o: Oracles) {
    var c := CountingChoice(supplied, o);
    NamesMissing(c) && Reviewed(p, supplied, o, Opened(p, supplied, c.value))
  }

  /** The last choice that was consulted for missing fields. */
  function LastConsulted(p: Pending, supplied: Facts, o: Oracles): Option<Choice> {
    if FinallyReviewed(p, supplied, o) then o.helper(IdentityReview) else CountingChoice(supplied, o)
  }

  /** The facts that were known when it was consulted. */
  function LastBasis(p: Pending, supplied: Facts, o: Oracles): Facts {
    if FinallyReviewed(p, supplied, o)
    then Identified(p, supplied, o, Opened(p, supplied, CountingChoice(supplied, o).value)).facts else supplied
  }

  /** The trace is about the last list of missing fields, and the facts known then. */
  ghost predicate TraceIsLast(p: Pending, supplied: Facts, o: Oracles, t: Trace) {
    t.choice == LastConsulted(p, supplied, o) && t.basis == LastBasis(p, supplied, o)
  }

  lemma UnanswerableIff(p: Pending, supplied: Facts, o: Oracles)
    ensures Unanswerable(p, supplied, o) <==>
            NamesMissing(CountingChoice(supplied, o))
            && Screening(p, supplied, o, CountingChoice(supplied, o).value).fields != []
  {
    hide Enquired, OptionCovers, PreferencesOnly, GroundedCurrent, Deferred, NamesMissing, CountingChoice;
  }

  /** Chooses facts and, if the choice names missing fields, screens them. */
  method Prepare(p: Pending, supplied: Facts, o: Oracles)
    returns (ok: bool, chosen: Option<Choice>, facts: Facts, unspecified: seq<Name>, deferred: set<Name>, t: Trace)
    requires FactsOk(supplied)
    ensures Basis(facts, chosen, unspecified, deferred) == Prepared(p, supplied, o)
    ensures ok <==> !Unanswerable(p, supplied, o)
    ensures Enriched(supplied, facts, Replies(o)) && TraceOk(supplied, o, t) && t.calls <= 3
    ensures TraceIsLast(p, supplied, o, t)
    ensures forall k :: k in unspecified ==> HasLabel(k)
    ensures forall k :: k in deferred ==> DeclaredDeferred(p, k)
    ensures ok ==> AllSettled(p, facts, t.considered)
    ensures NoticesAllowed(p, facts, unspecified)
    ensures chosen.Some? ==> ChosenByHelper(o, chosen.value.optionId)
  {
    hide Considered, Enriched, Replies, Known, Acceptable, HasLabel, DeclaredDeferred, NoticeAllowed, Screening,
      Unanswerable, Reviewed, Opened, Identified;
    EnrichedSelf(supplied, Replies(o));
    UnanswerableIff(p, supplied, o);
    var calls;
    chosen, calls := ChooseFacts(supplied, o);
    if !NamesMissing(chosen) {
      return true, chosen, supplied, [], {}, Trace(chosen, supplied, [], false, calls, 0);
    }
    var plan, considered, basis, reviewed, more, lookups;
    ok, plan, considered, basis, reviewed, more, lookups := Screen(p, supplied, o, chosen.value);
    var last := if reviewed then o.helper(IdentityReview) else chosen;
    t := Trace(last, basis, considered, reviewed, calls + more, lookups);
    ScreenTraceOk(supplied, o, chosen, t);
    chosen, facts, unspecified, deferred := Some(plan.chosen), plan.facts, plan.unspecified, plan.deferred;
  }

  // ---------- when a notice contradicts the facts ----------

  /**
   The field was dropped as unrelated, the identity review lists it again, and then it is looked up with success: the
   answer states it and says that it is undecided.
   */
  predicate StaleNotice(p: Pending, supplied: Facts, o: Oracles, k: Name) {
    var c := CountingChoice(supplied, o);
    NamesMissing(c) && StaleAfter(p, supplied, o, c.value, k)
  }

  predicate StaleAfter(p: Pending, supplied: Facts, o: Oracles, chosen: Choice, k: Name)
    requires chosen.missing.Items?
  {
    hide *;
    var plan := Opened(p, supplied, chosen);
    && GroundedCurrent(p, Deferred(p, supplied, chosen)) && Unrelated(p, k) && k in FirstAgenda(supplied, chosen)
    && Reviewed(p, supplied, o, plan) && k in Identified(p, supplied, o, plan).fields
    && o.resolver.Some? && HasValue(o.resolver.value(Fields), k)
  }

  lemma OpenedNotices(p: Pending, supplied: Facts, o: Oracles, chosen: Choice, k: Name)
    requires FactsOk(supplied) && chosen.missing.Items? && ChosenByHelper(o, chosen.optionId)
    ensures k in Opened(p, supplied, chosen).unspecified <==>
            GroundedCurrent(p, Deferred(p, supplied, chosen)) && Unrelated(p, k) && k in FirstAgenda(supplied, chosen)
    ensures k in Opened(p, supplied, chosen).unspecified ==>
              k !in Opened(p, supplied, chosen).fields && !Known(supplied, k) && !IsParameter(k)
  {
    hide Considered, Defer, DropUnrelated, GroundedCurrent;
    var considered := FirstAgenda(supplied, chosen);
    FieldsAreReportable(chosen.missing.items, supplied);
    InitialPlan(p, supplied, o, chosen, considered);
    DeferKeepsPlan(p, supplied, o, Plan(supplied, chosen, considered, [], {}), considered);
    DropKeepsPlan(p, supplied, o, Deferred(p, supplied, chosen), considered);
    DropNothing(p, Deferred(p, supplied, chosen));
  }

  lemma DropNothing(p: Pending, plan: Plan)
    ensures !GroundedCurrent(p, plan) ==> DropUnrelated(p, plan) == plan
  {
  }

  lemma IdentifiedOk(p: Pending, supplied: Facts, o: Oracles, plan: Plan, considered: seq<Name>)
    requires PlanOk(p, supplied, o, plan, considered)
    ensures var r := Identified(p, supplied, o, plan);
            && PlanOk(p, supplied, o, r, if Reviewed(p, supplied, o, plan) then r.fields else considered)
            && SameNotices(plan, r)
            && (!Reviewed(p, supplied, o, plan) ==> r.fields == plan.fields)
            && (forall k :: Known(plan.facts, k) ==> Known(r.facts, k))
            && (forall k :: Known(r.facts, k) ==> Known(plan.facts, k) || k in NamedIdentities(p, supplied, plan))
  {
    hide Considered, Filter, Usable, Enriched, Replies;
    if FoundIdentities(p, supplied, o, plan) != [] {
      var identities := NamedIdentities(p, supplied, plan);
      LookupEnriches(p, supplied, o, plan.facts, Identities, identities);
      var found := plan.(facts := PutAll(plan.facts, FoundIdentities(p, supplied, o, plan)));
      PlanWithFacts(p, supplied, o, plan, considered, found);
      if Reviewed(p, supplied, o, plan) {
        FieldsAreReportable(o.helper(IdentityReview).value.missing.items, found.facts);
      }
    }
  }

  /** What is known in the end, and what becomes of the notices after the plan was opened. */
  lemma ScreeningParts(p: Pending, supplied: Facts, o: Oracles, chosen: Choice, k: Name)
    requires FactsOk(supplied) && chosen.missing.Items? && ChosenByHelper(o, chosen.optionId)
    ensures var plan, open := Screening(p, supplied, o, chosen), Opened(p, supplied, chosen);
            var identified := Identified(p, supplied, o, open);
            && (Known(plan.facts, k) <==>
                  Known(identified.facts, k)
                  || (k in identified.fields && o.resolver.Some? && HasValue(o.resolver.value(Fields), k)))
            && (Known(supplied, k) ==> Known(identified.facts, k))
            && (Known(identified.facts, k) ==> Known(supplied, k) || k in NamedIdentities(p, supplied, open))
            && (!Reviewed(p, supplied, o, open) ==> identified.fields == open.fields)
            && (k in identified.fields ==> Missing(identified.facts, k))
            && plan.deferred == Deferred(p, supplied, chosen).deferred
            && (k in open.unspecified ==> k in plan.unspecified)
            && (k in plan.unspecified ==> k in open.unspecified || k == Other || !Known(plan.facts, k))
  {
    hide Considered, Opened, Deferred, FirstAgenda, GroundedCurrent, Identified, Reviewed, LookedUp, AdmitAbsences,
      HasValue, Enriched, MayAdmit, NamedIdentities, Missing;
    var considered, open := FirstAgenda(supplied, chosen), Opened(p, supplied, chosen);
    OpenedOk(p, supplied, o, chosen);
    IdentifiedOk(p, supplied, o, open, considered);
    var identified := Identified(p, supplied, o, open);
    var agenda := if Reviewed(p, supplied, o, open) then identified.fields else considered;
    LookUpKeepsPlan(p, supplied, o, identified, agenda);
    var enquired := LookedUp(o, identified);
    if k != Other { FieldsAreUnknown(o, identified, k); }
    AdmitAbsencesKeepsPlan(p, supplied, o, enquired, GroundedCurrent(p, Deferred(p, supplied, chosen)), agenda);
  }

  lemma StaleAfterIff(p: Pending, supplied: Facts, o: Oracles, chosen: Choice, k: Name)
    requires FactsOk(supplied) && chosen.missing.Items? && ChosenByHelper(o, chosen.optionId) && k != Other
    ensures var plan := Screening(p, supplied, o, chosen);
            k in plan.unspecified && Known(plan.facts, k) <==> StaleAfter(p, supplied, o, chosen, k)
  {
    hide Considered, Opened, Deferred, FirstAgenda, GroundedCurrent, Identified, Reviewed, Screening, HasValue,
      Unrelated;
    OpenedNotices(p, supplied, o, chosen, k);
    ScreeningParts(p, supplied, o, chosen, k);
  }

  lemma FieldsAreUnknown(o: Oracles, plan: Plan, k: Name)
    requires (forall n :: n in plan.fields ==> Missing(plan.facts, n)) && k != Other
    ensures k in LookedUp(o, plan).fields ==> !Known(LookedUp(o, plan).facts, k)
  {
  }

  /** Exactly the stale fields are reported as undecided although they are known, besides the placeholder. */
  lemma NoticeIsStaleIff(p: Pending, supplied: Facts, o: Oracles, k: Name)
    requires FactsOk(supplied) && k != Other
    ensures var b := Prepared(p, supplied, o);
            k in b.unspecified && Known(b.facts, k) <==> StaleNotice(p, supplied, o, k)
  {
    hide Screening, StaleAfter, Acceptable, ClaimsMissing;
    var c := CountingChoice(supplied, o);
    if NamesMissing(c) {
      StaleAfterIff(p, supplied, o, c.value, k);
    }
  }

  /**
   The identity was put off, the identity review lists it as missing, and then it is looked up with success: the
   answer knows it and says that it comes later.
   */
  predicate StaleDeferral(p: Pending, supplied: Facts, o: Oracles, k: Name) {
    var c := CountingChoice(supplied, o);
    NamesMissing(c) && StaleDeferralAfter(p, supplied, o, c.value, k)
  }

  predicate StaleDeferralAfter(p: Pending, supplied: Facts, o: Oracles, chosen: Choice, k: Name)
    requires chosen.missing.Items?
  {
    hide *;
    var plan := Opened(p, supplied, chosen);
    && k in Deferred(p, supplied, chosen).deferred
    && Reviewed(p, supplied, o, plan) && k in Identified(p, supplied, o, plan).fields
    && o.resolver.Some? && HasValue(o.resolver.value(Fields), k)
  }

  lemma DeferralIsStaleAfterIff(p: Pending, supplied: Facts, o: Oracles, chosen: Choice, k: Name)
    requires FactsOk(supplied) && chosen.missing.Items? && ChosenByHelper(o, chosen.optionId)
    ensures var plan := Screening(p, supplied, o, chosen);
            k in plan.deferred && Known(plan.facts, k) <==> StaleDeferralAfter(p, supplied, o, chosen, k)
  {
    hide Considered, Opened, Deferred, FirstAgenda, Identified, Reviewed, Screening, HasValue;
    ScreeningParts(p, supplied, o, chosen, k);
    DeferredIsNotAsked(p, supplied, o, chosen, k);
  }

  /** What was put off is neither on the opened list nor looked up as an identity. */
  lemma DeferredIsNotAsked(p: Pending, supplied: Facts, o: Oracles, chosen: Choice, k: Name)
    requires FactsOk(supplied) && chosen.missing.Items? && ChosenByHelper(o, chosen.optionId)
    ensures var open := Opened(p, supplied, chosen);
            k in Deferred(p, supplied, chosen).deferred ==>
              !Known(supplied, k) && k !in open.fields && k !in NamedIdentities(p, supplied, open)
  {
    hide Considered, Defer, DropUnrelated, GroundedCurrent;
    var considered := FirstAgenda(supplied, chosen);
    FieldsAreReportable(chosen.missing.items, supplied);
    InitialPlan(p, supplied, o, chosen, considered);
    DeferKeepsPlan(p, supplied, o, Plan(supplied, chosen, considered, [], {}), considered);
    DropKeepsPlan(p, supplied, o, Deferred(p, supplied, chosen), considered);
    DropNothing(p, Deferred(p, supplied, chosen));
  }

  /** Exactly the stale deferrals are announced for later although the identity is known. */
  lemma DeferralIsStaleIff(p: Pending, supplied: Facts, o: Oracles, k: Name)
    requires FactsOk(supplied)
    ensures var b := Prepared(p, supplied, o);
            k in b.deferred && Known(b.facts, k) <==> StaleDeferral(p, supplied, o, k)
  {
    hide Screening, StaleDeferralAfter, Acceptable, ClaimsMissing;
    var c := CountingChoice(supplied, o);
    if NamesMissing(c) {
      DeferralIsStaleAfterIff(p, supplied, o, c.value, k);
    }
  }

  // ---------- no supplied fact is overwritten ----------

  predicate ValidItems(items: seq<Option<Name>>) {
    forall k :: k in items ==> k.Some? && IsReportable(k.value)
  }

  /** Replies that pass the helper's own validation name missing fields by their proper names only. */
  ghost predicate ValidReplies(o: Oracles) {
    forall site :: o.helper(site).Some? && o.helper(site).value.missing.Items? ==>
      ValidItems(o.helper(site).value.missing.items)
  }

  /** Every fact is still there, unchanged. */
  ghost predicate AllKept(before: Facts, after: Facts) {
    forall k :: Known(before, k) ==> Known(after, k) && after.values[k] == before.values[k]
  }

  lemma ValidMissingIsUnknown(items: seq<Option<Name>>, f: Facts)
    requires ValidItems(items)
    ensures forall k :: k in Considered(items, f) ==> !Known(f, k)
  {
    hide Filter;
    AllMissingIsFilter(items, f);
    assert forall k :: k in Considered(items, f) ==> k in AllMissing(items, f);
  }

  lemma {:induction false} PutAllKeeps(f: Facts, resolved: seq<(Name, string)>, k: Name)
    requires Known(f, k) && k !in KeysOf(resolved)
    ensures Known(PutAll(f, resolved), k) && PutAll(f, resolved).values[k] == f.values[k]
    decreases |resolved|
  {
    if resolved != [] {
      assert KeysOf(resolved) == [resolved[0].0] + KeysOf(resolved[1..]);
      PutAllKeeps(Put(f, resolved[0].0, resolved[0].1), resolved[1..], k);
    }
  }

  lemma LookUpKeepsFact(o: Oracles, plan: Plan, k: Name)
    requires Known(plan.facts, k) && k !in plan.fields
    ensures Known(LookedUp(o, plan).facts, k) && LookedUp(o, plan).facts.values[k] == plan.facts.values[k]
  {
    if plan.fields != [] && o.resolver.Some? {
      UsableKeys(o.resolver.value(Fields), plan.fields, k);
      PutAllKeeps(plan.facts, Usable(o.resolver.value(Fields), plan.fields), k);
    }
  }

  lemma IdentifiedKeepsFact(p: Pending, supplied: Facts, o: Oracles, plan: Plan, k: Name)
    requires Known(plan.facts, k)
    ensures var r := Identified(p, supplied, o, plan); Known(r.facts, k) && r.facts.values[k] == plan.facts.values[k]
  {
    hide Considered, Filter;
    UsableKeys(if o.resolver.Some? then o.resolver.value(Identities) else [], NamedIdentities(p, supplied, plan), k);
    PutAllKeeps(plan.facts, FoundIdentities(p, supplied, o, plan), k);
  }

  lemma ScreeningKeepsFact(p: Pending, supplied: Facts, o: Oracles, chosen: Choice, k: Name)
    requires FactsOk(supplied) && chosen.missing.Items? && ChosenByHelper(o, chosen.optionId) && Known(supplied, k)
    requires ValidReplies(o) && ValidItems(chosen.missing.items)
    ensures var plan := Screening(p, supplied, o, chosen);
            Known(plan.facts, k) && plan.facts.values[k] == supplied.values[k]
  {
    hide Considered, Opened, Deferred, GroundedCurrent, LookedUp, AdmitAbsences, Enriched, MayAdmit;
    var open := Opened(p, supplied, chosen);
    OpenedOk(p, supplied, o, chosen);
    OpenedIsUnknown(p, supplied, o, chosen);
    IdentifiedKeepsFact(p, supplied, o, open, k);
    var identified := Identified(p, supplied, o, open);
    if Reviewed(p, supplied, o, open) {
      ValidMissingIsUnknown(o.helper(IdentityReview).value.missing.items, identified.facts);
    }
    LookUpKeepsFact(o, identified, k);
    AdmitKeepsFacts(p, supplied, LookedUp(o, identified), GroundedCurrent(p, Deferred(p, supplied, chosen)));
  }

  lemma AdmitKeepsFacts(p: Pending, supplied: Facts, plan: Plan, grounded: bool)
    ensures AdmitAbsences(p, supplied, plan, grounded).facts == plan.facts
  {
  }

  lemma OpenedIsUnknown(p: Pending, supplied: Facts, o: Oracles, chosen: Choice)
    requires FactsOk(supplied) && chosen.missing.Items? && ChosenByHelper(o, chosen.optionId)
    ensures forall k :: k in Opened(p, supplied, chosen).fields ==> k in FirstAgenda(supplied, chosen)
    ensures ValidItems(chosen.missing.items) ==>
              forall k :: k in Opened(p, supplied, chosen).fields ==> !Known(supplied, k)
  {
    hide Considered, Defer, DropUnrelated, GroundedCurrent;
    var considered := FirstAgenda(supplied, chosen);
    FieldsAreReportable(chosen.missing.items, supplied);
    InitialPlan(p, supplied, o, chosen, considered);
    DeferKeepsPlan(p, supplied, o, Plan(supplied, chosen, considered, [], {}), considered);
    DropKeepsPlan(p, supplied, o, Deferred(p, supplied, chosen), considered);
    DropNothing(p, Deferred(p, supplied, chosen));
    if ValidItems(chosen.missing.items) { ValidMissingIsUnknown(chosen.missing.items, supplied); }
  }

  /** With valid replies no supplied fact is ever overwritten or lost. */
  lemma SuppliedIsKept(p: Pending, supplied: Facts, o: Oracles)
    requires FactsOk(supplied)
    ensures ValidReplies(o) ==> AllKept(supplied, Prepared(p, supplied, o).facts)
  {
    hide Screening, Acceptable, ClaimsMissing, FactsOk;
    var c := CountingChoice(supplied, o);
    if ValidReplies(o) && NamesMissing(c) {
      forall k | Known(supplied, k)
        ensures Known(Prepared(p, supplied, o).facts, k)
                && Prepared(p, supplied, o).facts.values[k] == supplied.values[k]
      {
        ScreeningKeepsFact(p, supplied, o, c.value, k);
      }
    }
  }

  // ---------- fields that are passed over ----------

  /** The last list reports the field, but not among its first ten. */
  ghost predicate PassedOver(t: Trace, k: Name) {
    && k != Other && NamesMissing(t.choice)
    && Reports(t.choice.value.missing.items, t.basis, k) && k !in t.considered
  }

  lemma {:induction false} FilterDistinct(names: seq<Name>, keep: Name -> bool)
    requires DistinctNames(names)
    ensures DistinctNames(Filter(names, keep))
  {
    if names != [] { FilterDistinct(names[1..], keep); }
  }

  lemma ReportedIsSorted(items: seq<Option<Name>>, f: Facts, k: Name) returns (i: nat)
    requires Reports(items, f, k)
    ensures i < |SORTED| && SORTED[i] == k
  {
    assert IsReportable(k);
    i := Place(k);
  }

  /** When a reported field is not looked at, ten others are, and the zone is not among them. */
  lemma TenWhenPassedOver(items: seq<Option<Name>>, f: Facts, k: Name)
    requires Reports(items, f, k) && k !in Considered(items, f)
    ensures |Considered(items, f)| == 10 && DistinctNames(Considered(items, f)) && ZoneId !in Considered(items, f)
  {
    hide Considered, Reports, Filter;
    var i := ReportedIsSorted(items, f, k);
    ConsideredIff(items, f, i);
    ConsideredIff(items, f, 14);
    assert SORTED[14] == ZoneId;
    FilterOfLonger(SORTED, Reported(items, f), i, 14);
    FilterOfLonger(SORTED, Reported(items, f), i, |SORTED|);
    assert SORTED[..|SORTED|] == SORTED;
    ConsideredIsCut(items, f);
  }

  lemma ConsideredIsCut(items: seq<Option<Name>>, f: Facts)
    ensures DistinctNames(Considered(items, f))
    ensures |Filter(SORTED, Reported(items, f))| >= 10 ==> |Considered(items, f)| == 10
  {
    hide Filter, Reports;
    AllMissingIsFilter(items, f);
    SortedIsDistinct();
    FilterDistinct(SORTED, Reported(items, f));
  }

  lemma FilterOfLonger(names: seq<Name>, keep: Name -> bool, i: nat, j: nat)
    requires i <= j <= |names|
    ensures |Filter(names[..i], keep)| <= |Filter(names[..j], keep)|
  {
    hide Filter;
    assert names[..j] == names[..i] + names[i..j];
    FilterConcat(names[..i], names[i..j], keep);
  }

  /** Fields that can leave the list before anything is looked up, and the placeholder. */
  const SOFT: set<Name> := {Region, Purpose, Workload, Scale, Budget, Cidr, CidrPrefix, VpcId, Other}

  lemma {:induction false} ElementsOf(names: seq<Name>)
    requires DistinctNames(names)
    ensures |set k | k in names| == |names|
  {
    if names != [] {
      var rest := names[1..];
      ElementsOf(rest);
      assert (set k | k in names) == (set k | k in rest) + {names[0]};
    }
  }

  /** Ten names without the zone cannot all be soft. */
  lemma SomeFirm(names: seq<Name>) returns (k: Name)
    requires DistinctNames(names) && |names| == 10 && ZoneId !in names
    ensures k in names && k !in SOFT && k != ZoneId
  {
    ElementsOf(names);
    var all := set k | k in names;
    if all <= SOFT { SubsetSize(all, SOFT); }
    k :| k in all && k !in SOFT;
  }

  lemma {:induction false} SubsetSize(a: set<Name>, b: set<Name>)
    requires a <= b
    ensures |a| <= |b|
  {
    if a != {} {
      var k :| k in a;
      SubsetSize(a - {k}, b - {k});
    }
  }

  lemma NothingIdentified(p: Pending, supplied: Facts, o: Oracles, plan: Plan)
    requires !LooksUpIdentities(p, supplied, o, plan)
    ensures Identified(p, supplied, o, plan) == plan && !Reviewed(p, supplied, o, plan)
  {
  }

  /** When a reported field is not looked at, the opened list is too long for a lookup of identities. */
  lemma LongListIsNotIdentified(p: Pending, supplied: Facts, o: Oracles, chosen: Choice, k: Name)
    requires FactsOk(supplied) && chosen.missing.Items? && ChosenByHelper(o, chosen.optionId)
    requires Reports(chosen.missing.items, supplied, k) && k !in FirstAgenda(supplied, chosen)
    ensures !LooksUpIdentities(p, supplied, o, Opened(p, supplied, chosen))
  {
    hide Considered, Defer, DropUnrelated, GroundedCurrent, Reports;
    var considered := FirstAgenda(supplied, chosen);
    TenWhenPassedOver(chosen.missing.items, supplied, k);
    var n := SomeFirm(considered);
    FieldsAreReportable(chosen.missing.items, supplied);
    InitialPlan(p, supplied, o, chosen, considered);
    DeferKeepsPlan(p, supplied, o, Plan(supplied, chosen, considered, [], {}), considered);
    DropKeepsPlan(p, supplied, o, Deferred(p, supplied, chosen), considered);
    DropNothing(p, Deferred(p, supplied, chosen));
    assert n in Opened(p, supplied, chosen).fields && n != Other;
  }

  lemma PassedOverAfter(p: Pending, supplied: Facts, o: Oracles, chosen: Choice, k: Name)
    requires FactsOk(supplied) && chosen.missing.Items? && ChosenByHelper(o, chosen.optionId) && k != Other
    requires !Reviewed(p, supplied, o, Opened(p, supplied, chosen))
    requires Reports(chosen.missing.items, supplied, k) && k !in FirstAgenda(supplied, chosen)
    ensures !Known(Screening(p, supplied, o, chosen).facts, k)
  {
    hide Considered, Opened, Deferred, Identified, Reviewed, Screening, HasValue, LooksUpIdentities, FirstAgenda;
    OpenedIsUnknown(p, supplied, o, chosen);
    OpenedOk(p, supplied, o, chosen);
    LongListIsNotIdentified(p, supplied, o, chosen, k);
    NothingIdentified(p, supplied, o, Opened(p, supplied, chosen));
    ScreeningParts(p, supplied, o, chosen, k);
    ReportedIsMissing(chosen.missing.items, supplied, k);
  }

  lemma ReportedIsMissing(items: seq<Option<Name>>, f: Facts, k: Name)
    requires Reports(items, f, k)
    ensures Missing(f, k)
  {
  }

  lemma PassedOverInReview(p: Pending, supplied: Facts, o: Oracles, chosen: Choice, k: Name)
    requires FactsOk(supplied) && chosen.missing.Items? && ChosenByHelper(o, chosen.optionId) && k != Other
    requires Reviewed(p, supplied, o, Opened(p, supplied, chosen))
    ensures var identified := Identified(p, supplied, o, Opened(p, supplied, chosen));
            var items := o.helper(IdentityReview).value.missing.items;
            Reports(items, identified.facts, k) && k !in Considered(items, identified.facts) ==>
              !Known(Screening(p, supplied, o, chosen).facts, k)
  {
    hide Considered, Opened, Deferred, Screening, HasValue, LooksUpIdentities, FoundIdentities;
    ScreeningParts(p, supplied, o, chosen, k);
    var identified := Identified(p, supplied, o, Opened(p, supplied, chosen));
    if Reports(o.helper(IdentityReview).value.missing.items, identified.facts, k) {
      ReportedIsMissing(o.helper(IdentityReview).value.missing.items, identified.facts, k);
    }
  }

  /** A field that the last list reports but that was not looked at stays unknown. */
  lemma PassedOverStaysUnknown(p: Pending, supplied: Facts, o: Oracles, t: Trace, k: Name)
    requires FactsOk(supplied) && TraceOk(supplied, o, t) && TraceIsLast(p, supplied, o, t)
    ensures PassedOver(t, k) ==> !Known(Prepared(p, supplied, o).facts, k)
  {
    hide Considered, Opened, Identified, Reviewed, Screening, Acceptable, ClaimsMissing, Reports, Enriched;
    var c := CountingChoice(supplied, o);
    if PassedOver(t, k) {
      if FinallyReviewed(p, supplied, o) {
        PassedOverInReview(p, supplied, o, c.value, k);
      } else {
        PassedOverAfter(p, supplied, o, c.value, k);
      }
    }
  }

  // ---------- the decision, spelled out ----------

  // What follows says what each step of a call does in terms of the question, the facts and the replies alone.

  ghost predicate Ordered(names: seq<Name>) {
    forall i, j :: 0 <= i < j < |names| ==> Place(names[i]) < Place(names[j])
  }

  /** The choice selects known facts only and lists its missing fields as strings. */
  ghost predicate Convincing(c: Option<Choice>, f: Facts) {
    PicksFacts(c, f) && c.value.missing.Items? && forall k :: k in c.value.missing.items ==> k.Some?
  }

  /**
   The choice that counts: a claim that something unknown is missing stands unless a convincing review replaces it.
   */
  ghost predicate Prevails(f: Facts, o: Oracles, c: Option<Choice>) {
    var first := o.helper(First);
    var doubtful := first.Some? && first.value.missing.Items?
                    && exists k :: k in first.value.missing.items && (k.None? || k.value !in f.values);
    c == if doubtful && Convincing(o.helper(Review), f) then o.helper(Review) else first
  }

  /** An unknown entry of a list of missing fields is reported as the field it names, or else as "other". */
  ghost predicate ReportedAs(item: Option<Name>, f: Facts, k: Name) {
    && (item.None? || item.value !in f.values)
    && k == if item.Some? && item.value in {Goal, CloudVendor, Region, Purpose, Workload, Scale, Budget, ResourceScope,
                                            Constraints, VpcId, ZoneId, Cidr, CidrPrefix, StackName}
            then item.value else Other
  }

  /** The missing fields that are looked at: each once, in order, and only the first ten. */
  ghost predicate AgendaOf(items: seq<Option<Name>>, f: Facts, agenda: seq<Name>) {
    && |agenda| <= 10 && Ordered(agenda)
    && (forall k :: k in agenda ==> exists item :: item in items && ReportedAs(item, f, k))
    && (forall item, k :: item in items && ReportedAs(item, f, k) ==> k in agenda || Behind(agenda, k))
  }

  /** Ten fields come before this one. */
  ghost predicate Behind(agenda: seq<Name>, k: Name) {
    |agenda| == 10 && forall n :: n in agenda ==> Place(n) < Place(k)
  }

  /** The user declared that this unknown identity comes later, and free text lets the answer say so. */
  ghost predicate PutOff(p: Pending, f: Facts, k: Name) {
    p.allowText && p.deferred.Some? && k in p.deferred.value && (k == VpcId || k == ZoneId) && k !in f.values
  }

  /** What was put off leaves the list; if anything does, all facts are restated and no option is taken. */
  ghost predicate Defers(p: Pending, f: Facts, c: Choice, agenda: seq<Name>, plan: Plan) {
    && plan.facts == f && plan.unspecified == [] && Ordered(plan.fields)
    && (forall k :: k in plan.fields <==> k in agenda && !PutOff(p, f, k))
    && (forall k :: k in plan.deferred <==> PutOff(p, f, k) && (k in agenda || k in p.subjects))
    && plan.chosen == if exists k :: k in agenda && PutOff(p, f, k)
                      then c.(factKeys := Listed(f.keys), optionId := Some("")) else c
  }

  /** The selected facts are known and about the question, which is not about required information. */
  ghost predicate InQuestion(p: Pending, plan: Plan) {
    && p.allowText && !p.requiredInformation && PicksFacts(Some(plan.chosen), plan.facts)
    && exists k :: k in p.subjects && Some(k) in plan.chosen.factKeys.items
  }

  /** A preference that the question does not ask for. */
  ghost predicate Beside(p: Pending, k: Name) {
    || (k in {Region, Purpose, Scale, Budget, Cidr} && k !in p.subjects)
    || (k == Workload && Purpose !in p.subjects)
    || (k == CidrPrefix && CidrPrefix !in p.subjects && Cidr !in p.subjects)
  }

  /** Preferences beside the question become undecided. */
  ghost predicate Opens(p: Pending, before: Plan, plan: Plan) {
    && plan == before.(fields := plan.fields, unspecified := plan.unspecified)
    && Ordered(plan.fields) && Ordered(plan.unspecified)
    && (forall k :: k in plan.fields <==> k in before.fields && !(InQuestion(p, before) && Beside(p, k)))
    && (forall k :: k in plan.unspecified <==> k in before.fields && InQuestion(p, before) && Beside(p, k))
  }

  /** The reply has a value for the name that is more than white space. */
  ghost predicate Offers(reply: seq<(Name, string)>, k: Name, v: string) {
    (k, v) in reply && exists c :: c in v && c !in {' ', '\t', '\n', '\r'}
  }

  ghost predicate Offered(reply: seq<(Name, string)>, k: Name) {
    exists v :: Offers(reply, k, v)
  }

  /** The offered values for these names are added to the facts. */
  ghost predicate Adds(before: Facts, after: Facts, reply: seq<(Name, string)>, names: set<Name>) {
    && before.keys <= after.keys
    && (forall k :: k in after.values <==> k in before.values || (k in names && Offered(reply, k)))
    && (forall k :: k in names && Offered(reply, k) ==> k in after.values && Offers(reply, k, after.values[k]))
    && (forall k :: k in before.values && !(k in names && Offered(reply, k)) ==>
          k in after.values && after.values[k] == before.values[k])
  }

  /** The identities to look up: if only "other" is missing, those that the question names and nothing covers. */
  ghost function Wanted(p: Pending, plan: Plan): set<Name> {
    if plan.fields == [Other]
    then set k | k in {VpcId, ZoneId} && k in p.subjects && k !in plan.facts.values && !PutOff(p, plan.facts, k)
    else {}
  }

  ghost function ReplyTo(o: Oracles, lookup: Lookup): seq<(Name, string)> {
    if o.resolver.Some? then o.resolver.value(lookup) else []
  }

  /** What is found joins the facts, and then a convincing review replaces the choice and its list. */
  ghost predicate Identifies(p: Pending, o: Oracles, before: Plan, plan: Plan) {
    && plan == before.(facts := plan.facts, chosen := plan.chosen, fields := plan.fields)
    && Adds(before.facts, plan.facts, ReplyTo(o, Identities), Wanted(p, before))
    && if (exists k :: k in Wanted(p, before) && Offered(ReplyTo(o, Identities), k))
          && Convincing(o.helper(IdentityReview), plan.facts)
       then plan.chosen == o.helper(IdentityReview).value
            && AgendaOf(plan.chosen.missing.items, plan.facts, plan.fields)
       else plan.chosen == before.chosen && plan.fields == before.fields
  }

  /** The fields still missing are looked up; what is found joins the facts and the selection. */
  ghost predicate Enquires(o: Oracles, before: Plan, plan: Plan) {
    if before.fields == [] || o.resolver == None then plan == before
    else
      && plan == before.(facts := plan.facts, chosen := plan.chosen, fields := plan.fields)
      && plan.chosen == before.chosen.(factKeys := plan.chosen.factKeys) && plan.chosen.factKeys.Items?
      && Adds(before.facts, plan.facts, ReplyTo(o, Fields), set k | k in before.fields)
      && Ordered(plan.fields) && (forall k :: k in plan.fields <==> k in before.fields && k !in plan.facts.values)
      && forall item :: item in plan.chosen.factKeys.items <==>
           || (item.Some? && item.value in before.fields && Offered(ReplyTo(o, Fields), item.value))
           || (before.chosen.factKeys.Items? && item in before.chosen.factKeys.items
               && forall other :: other in before.chosen.factKeys.items ==> other.Some?)
  }

  /** Some identity that the question names is neither known nor put off. */
  ghost predicate IdentityOpen(p: Pending, supplied: Facts, f: Facts) {
    exists k :: k in p.subjects && k in {VpcId, ZoneId, Cidr, CidrPrefix, StackName} && k !in f.values
                && !PutOff(p, supplied, k)
  }

  /** A real, non-control option answers the question while only preferences and constraints are missing. */
  ghost predicate ByOption(p: Pending, supplied: Facts, plan: Plan) {
    && p.allowText && Backs(p, plan.facts, Some(plan.chosen)) && plan.chosen.optionId !in {None, Some("")}
    && (forall k :: k in plan.fields ==> k in {Region, Purpose, Workload, Scale, Budget, Constraints})
    && (Constraints in plan.fields ==>
          && plan.chosen.detail in {None, Some("unknown"), Some("business_preference")}
          && SecretParameter !in p.subjects && !IdentityOpen(p, supplied, plan.facts))
  }

  /** The question demands nothing, and the goal is known. */
  ghost predicate NothingDemanded(p: Pending, supplied: Facts, plan: Plan) {
    && p.allowText && NamesKnown(plan.chosen.factKeys, plan.facts) && Goal in plan.facts.values
    && !p.requiredWord && SecretParameter !in p.subjects && !IdentityOpen(p, supplied, plan.facts)
  }

  ghost predicate ByPreference(p: Pending, supplied: Facts, plan: Plan) {
    && (forall k :: k in plan.fields ==> k in {Purpose, Workload, Scale, Budget})
    && plan.chosen.detail in {None, Some("unknown"), Some("business_preference")}
    && NothingDemanded(p, supplied, plan)
  }

  ghost predicate ByPlaceholder(p: Pending, supplied: Facts, plan: Plan, inQuestion: bool) {
    && plan.fields == [Other] && plan.chosen.missing == Items([Some(Other)])
    && (plan.chosen.detail in {None, Some("unknown"), Some("business_preference")}
        || (plan.chosen.detail == Some("resource_name") && inQuestion && !p.nameWord))
    && NothingDemanded(p, supplied, plan)
  }

  /** The plans on the way: after deferrals, unrelated preferences, the lookup of identities and that of fields. */
  datatype Stations = Stations(agenda: seq<Name>, deferred: Plan, open: Plan, identified: Plan, enquired: Plan)

  ghost predicate Passes(p: Pending, f: Facts, o: Oracles, c: Choice, s: Stations)
    requires c.missing.Items?
  {
    && AgendaOf(c.missing.items, f, s.agenda) && Defers(p, f, c, s.agenda, s.deferred)
    && Opens(p, s.deferred, s.open) && Identifies(p, o, s.open, s.identified)
    && Enquires(o, s.identified, s.enquired)
  }

  /** Fields stay missing, and nothing lets the answer say that they are undecided. */
  ghost predicate Stuck(p: Pending, f: Facts, s: Stations) {
    && s.enquired.fields != [] && !ByOption(p, f, s.enquired) && !ByPreference(p, f, s.enquired)
    && !ByPlaceholder(p, f, s.enquired, InQuestion(p, s.deferred))
  }

  /** What the answer is made from: what stays missing is undecided, and without an option all facts are restated. */
  ghost function Settlement(p: Pending, f: Facts, s: Stations): Basis {
    var plan := s.enquired;
    var restated := plan.chosen.(factKeys := Listed(plan.facts.keys), optionId := Some(""));
    Basis(plan.facts, Some(if plan.fields == [] || ByOption(p, f, plan) then plan.chosen else restated),
          plan.unspecified + plan.fields, plan.deferred)
  }

  ghost predicate Replied(p: Pending, b: Basis, o: Oracles, r: Outcome) {
    if p.allowText then TextReply(p, b, o, r) else OptionReply(p, b, o, r)
  }

  /** The whole decision, given the choice that counts and the plans on the way. */
  ghost predicate Decided(p: Pending, f: Facts, o: Oracles, c: Option<Choice>, s: Stations, facts: Facts, r: Outcome) {
    && Prevails(f, o, c)
    && if c.Some? && c.value.missing.Items? && c.value.missing.items != [] then
         && Passes(p, f, o, c.value, s) && facts == s.enquired.facts
         && if Stuck(p, f, s) then r == Refused(MissingFacts) else Replied(p, Settlement(p, f, s), o, r)
       else facts == f && Replied(p, Basis(f, c, [], {}), o, r)
  }

  lemma CountingPrevails(f: Facts, o: Oracles)
    ensures Prevails(f, o, CountingChoice(f, o))
  {
    AcceptableIff(o.helper(Review), f);
  }

  lemma AcceptableIff(c: Option<Choice>, f: Facts)
    ensures Acceptable(c, f) <==> Convincing(c, f)
  {
  }

  lemma {:induction false} FilterOrdered(names: seq<Name>, keep: Name -> bool)
    requires Ordered(names)
    ensures Ordered(Filter(names, keep))
  {
    if names != [] {
      hide Ordered, Place;
      OrderedTail(names);
      FilterOrdered(names[1..], keep);
      OrderedCons(names[0], Filter(names[1..], keep));
      assert [] + Filter(names[1..], keep) == Filter(names[1..], keep);
    }
  }

  lemma OrderedTail(names: seq<Name>)
    requires Ordered(names) && names != []
    ensures Ordered(names[1..]) && forall k :: k in names[1..] ==> Place(names[0]) < Place(k)
  {
    hide Place;
    forall k | k in names[1..] ensures Place(names[0]) < Place(k) {
      var i :| 0 <= i < |names[1..]| && names[1..][i] == k;
      assert names[i + 1] == k;
    }
  }

  lemma OrderedCons(head: Name, rest: seq<Name>)
    requires Ordered(rest) && forall k :: k in rest ==> Place(head) < Place(k)
    ensures Ordered([head] + rest)
  {
    hide Place;
  }

  lemma SortedIsOrdered()
    ensures Ordered(SORTED)
  {
    hide Place;
    SortedPlaces();
  }

  lemma SortedPlaces()
    ensures forall i :: 0 <= i < |SORTED| ==> Place(SORTED[i]) == i
  {
  }

  lemma ReportsIff(items: seq<Option<Name>>, f: Facts, k: Name)
    ensures Reports(items, f, k) <==> exists item :: item in items && ReportedAs(item, f, k)
  {
    forall item ensures ReportedAs(item, f, k) <==> !(item.Some? && Known(f, item.value)) && NormalName(item) == k { }
  }

  lemma MissingIff(items: seq<Option<Name>>, f: Facts, k: Name)
    ensures k in AllMissing(items, f) <==> exists item :: item in items && ReportedAs(item, f, k)
  {
    hide Filter, Reports, ReportedAs, AllMissing;
    AllMissingIsFilter(items, f);
    ReportsIff(items, f, k);
    if Reports(items, f, k) { var i := ReportedIsSorted(items, f, k); }
  }

  lemma MissingIsOrdered(items: seq<Option<Name>>, f: Facts)
    ensures Ordered(AllMissing(items, f))
  {
    hide Filter, Reports, AllMissing, Ordered;
    AllMissingIsFilter(items, f);
    SortedIsOrdered();
    FilterOrdered(SORTED, Reported(items, f));
  }

  lemma ConsideredIsAgenda(items: seq<Option<Name>>, f: Facts)
    ensures AgendaOf(items, f, Considered(items, f))
  {
    hide ReportedAs, Place, AllMissing;
    var all, agenda := AllMissing(items, f), Considered(items, f);
    MissingIsOrdered(items, f);
    forall k | k in agenda ensures exists item :: item in items && ReportedAs(item, f, k) {
      assert k in all;
      MissingIff(items, f, k);
    }
    forall item, k | item in items && ReportedAs(item, f, k) ensures k in agenda || Behind(agenda, k) {
      MissingIff(items, f, k);
      CutOff(all, k);
    }
  }

  lemma CutOff(all: seq<Name>, k: Name)
    requires Ordered(all) && k in all
    ensures k in FirstTen(all) || Behind(FirstTen(all), k)
  {
    var i :| 0 <= i < |all| && all[i] == k;
    if i < |FirstTen(all)| { assert FirstTen(all)[i] == k; }
  }

  lemma DeferSpelledOut(p: Pending, f: Facts, c: Choice, agenda: seq<Name>)
    requires Ordered(agenda)
    ensures Defers(p, f, c, agenda, Defer(p, Plan(f, c, agenda, [], {})))
  {
    hide Filter, Place;
    var identities := DeferredIdentities(p, f);
    assert forall k :: k in identities <==> PutOff(p, f, k);
    FilterOrdered(agenda, (k: Name) => k !in identities);
    var named := set k | k in agenda && k in identities;
    assert named != {} <==> exists k :: k in agenda && PutOff(p, f, k) by {
      if named != {} { var k :| k in named; }
      if k :| k in agenda && PutOff(p, f, k) { assert k in named; }
    }
  }

  lemma GroundedIff(p: Pending, plan: Plan)
    ensures GroundedCurrent(p, plan) <==> InQuestion(p, plan)
  {
  }

  lemma UnrelatedIff(p: Pending, k: Name)
    ensures Unrelated(p, k) <==> Beside(p, k)
  {
  }

  lemma OpenSpelledOut(p: Pending, plan: Plan)
    requires plan.unspecified == [] && Ordered(plan.fields)
    ensures Opens(p, plan, DropUnrelated(p, plan))
  {
    hide Filter, Place, GroundedCurrent, InQuestion, Unrelated, Beside;
    GroundedIff(p, plan);
    forall k ensures Unrelated(p, k) <==> Beside(p, k) { UnrelatedIff(p, k); }
    FilterOrdered(plan.fields, (k: Name) => Unrelated(p, k));
    FilterOrdered(plan.fields, (k: Name) => !Unrelated(p, k));
  }

  lemma HasValueIff(reply: seq<(Name, string)>, k: Name)
    ensures HasValue(reply, k) <==> Offered(reply, k)
  {
    if HasValue(reply, k) {
      var q :| q in reply && q.0 == k && !Blank(q.1);
      assert Offers(reply, k, q.1);
    }
    if Offered(reply, k) {
      var v :| Offers(reply, k, v);
      assert (k, v) in reply && !Blank(v);
    }
  }

  lemma {:induction false} PutAllPrefix(f: Facts, resolved: seq<(Name, string)>)
    ensures f.keys <= PutAll(f, resolved).keys
    decreases |resolved|
  {
    if resolved != [] { PutAllPrefix(Put(f, resolved[0].0, resolved[0].1), resolved[1..]); }
  }

  lemma {:induction false} PutAllFrom(f: Facts, resolved: seq<(Name, string)>, k: Name)
    requires k in KeysOf(resolved)
    ensures k in PutAll(f, resolved).values && (k, PutAll(f, resolved).values[k]) in resolved
    decreases |resolved|
  {
    var head, rest := resolved[0], resolved[1..];
    assert KeysOf(resolved) == [head.0] + KeysOf(rest);
    if k in KeysOf(rest) {
      PutAllFrom(Put(f, head.0, head.1), rest, k);
    } else {
      PutAllKeeps(Put(f, head.0, head.1), rest, k);
    }
  }

  lemma AddsUsable(f: Facts, reply: seq<(Name, string)>, requested: seq<Name>, names: set<Name>)
    requires forall k :: k in names <==> k in requested
    ensures Adds(f, PutAll(f, Usable(reply, requested)), reply, names)
  {
    hide Usable, PutAll, HasValue, Offered;
    var found := Usable(reply, requested);
    var after := PutAll(f, found);
    PutAllPrefix(f, found);
    forall k
      ensures k in after.values <==> k in f.values || (k in names && Offered(reply, k))
      ensures k in names && Offered(reply, k) ==> k in after.values && Offers(reply, k, after.values[k])
      ensures k in f.values && !(k in names && Offered(reply, k)) ==>
                k in after.values && after.values[k] == f.values[k]
    {
      HasValueIff(reply, k);
      UsableKeys(reply, requested, k);
      PutAllKnown(f, found, k);
      if k in KeysOf(found) {
        PutAllFrom(f, found, k);
        var q := (k, after.values[k]);
        assert q in reply && !Blank(q.1);
      } else if k in f.values {
        PutAllKeeps(f, found, k);
      }
    }
  }

  lemma NamedIsWanted(p: Pending, plan: Plan)
    requires plan.fields == [Other]
    ensures forall k :: k in NamedIdentities(p, plan.facts, plan) <==> k in Wanted(p, plan)
  {
    hide Filter;
    assert forall k :: k in DeferredIdentities(p, plan.facts) <==> PutOff(p, plan.facts, k);
  }

  lemma {:induction false} UsableOfNothing(reply: seq<(Name, string)>, requested: seq<Name>)
    requires reply == [] || requested == []
    ensures Usable(reply, requested) == []
  {
    if reply != [] { UsableOfNothing(reply[1..], requested); }
  }

  lemma FoundIff(reply: seq<(Name, string)>, requested: seq<Name>)
    ensures Usable(reply, requested) != [] <==> exists k :: k in requested && Offered(reply, k)
  {
    hide Usable, HasValue, Offered;
    var found := Usable(reply, requested);
    if found != [] {
      var k := KeysOf(found)[0];
      assert k in KeysOf(found);
      UsableKeys(reply, requested, k);
      HasValueIff(reply, k);
    }
    if k :| k in requested && Offered(reply, k) {
      UsableKeys(reply, requested, k);
      HasValueIff(reply, k);
    }
  }

  lemma FoundSpelledOut(p: Pending, o: Oracles, plan: Plan)
    ensures Adds(plan.facts, PutAll(plan.facts, FoundIdentities(p, plan.facts, o, plan)), ReplyTo(o, Identities),
                 Wanted(p, plan))
    ensures FoundIdentities(p, plan.facts, o, plan) != [] <==>
            exists k :: k in Wanted(p, plan) && Offered(ReplyTo(o, Identities), k)
  {
    hide Usable, PutAll, Offered, Adds, NamedIdentities;
    var reply := ReplyTo(o, Identities);
    var requested := if plan.fields == [Other] then NamedIdentities(p, plan.facts, plan) else [];
    if plan.fields == [Other] { NamedIsWanted(p, plan); }
    if reply == [] || requested == [] { UsableOfNothing(reply, requested); }
    assert FoundIdentities(p, plan.facts, o, plan) == Usable(reply, requested);
    AddsUsable(plan.facts, reply, requested, Wanted(p, plan));
    FoundIff(reply, requested);
  }

  lemma IdentifySpelledOut(p: Pending, o: Oracles, plan: Plan)
    ensures Identifies(p, o, plan, Identified(p, plan.facts, o, plan))
  {
    hide FoundIdentities, PutAll, Offered, Adds, Wanted, Considered, AgendaOf, Convincing;
    FoundSpelledOut(p, o, plan);
    var facts := PutAll(plan.facts, FoundIdentities(p, plan.facts, o, plan));
    AcceptableIff(o.helper(IdentityReview), facts);
    if Reviewed(p, plan.facts, o, plan) {
      ConsideredIsAgenda(o.helper(IdentityReview).value.missing.items, facts);
    }
  }

  lemma EnquireSpelledOut(o: Oracles, plan: Plan)
    requires Ordered(plan.fields)
    ensures Enquires(o, plan, LookedUp(o, plan))
  {
    hide Usable, PutAll, Offered, Adds, Filter, Place, Distinct;
    if plan.fields != [] && o.resolver.Some? {
      var reply := o.resolver.value(Fields);
      var found := Usable(reply, plan.fields);
      AddsUsable(plan.facts, reply, plan.fields, set k | k in plan.fields);
      var facts := PutAll(plan.facts, found);
      FilterOrdered(plan.fields, (k: Name) => !Known(facts, k));
      forall k ensures k in KeysOf(found) <==> k in plan.fields && Offered(reply, k) {
        UsableKeys(reply, plan.fields, k);
        HasValueIff(reply, k);
      }
      SelectedAfterLookup(plan.chosen.factKeys, KeysOf(found));
    }
  }

  lemma SelectedAfterLookup(l: Listing, found: seq<Name>)
    ensures var keys := if AllStrings(l) then Strings(l.items) else [];
            forall item :: item in Listed(Distinct(keys + found)).items <==>
              || (item.Some? && item.value in found)
              || (l.Items? && item in l.items && forall other :: other in l.items ==> other.Some?)
  {
    hide Distinct, Listed, Strings;
    var keys := if AllStrings(l) then Strings(l.items) else [];
    assert forall k :: k in Distinct(keys + found) <==> k in keys || k in found;
  }

  lemma OpenIdentityIff(p: Pending, supplied: Facts, f: Facts)
    ensures Unresolved(p, supplied, f) != {} <==> IdentityOpen(p, supplied, f)
  {
    assert forall k :: k in DeferredIdentities(p, supplied) <==> PutOff(p, supplied, k);
    if Unresolved(p, supplied, f) != {} { var k :| k in Unresolved(p, supplied, f); }
    if k :| k in p.subjects && k in {VpcId, ZoneId, Cidr, CidrPrefix, StackName} && k !in f.values
            && !PutOff(p, supplied, k) {
      assert k in Unresolved(p, supplied, f);
    }
  }

  lemma OptionCoversIff(p: Pending, supplied: Facts, plan: Plan)
    ensures OptionCovers(p, supplied, plan) <==> ByOption(p, supplied, plan)
  {
    hide FindOption, Unresolved, IdentityOpen;
    OpenIdentityIff(p, supplied, plan.facts);
  }

  lemma MayAdmitAbsenceIff(p: Pending, supplied: Facts, plan: Plan)
    ensures MayAdmitAbsence(p, supplied, plan) <==> NothingDemanded(p, supplied, plan)
  {
    hide Unresolved, IdentityOpen;
    OpenIdentityIff(p, supplied, plan.facts);
  }

  /** The three ways to admit an absence. */
  lemma MayAdmitIff(p: Pending, supplied: Facts, plan: Plan, grounded: bool)
    ensures OptionCovers(p, supplied, plan) <==> ByOption(p, supplied, plan)
    ensures PreferencesOnly(p, supplied, plan) <==> ByPreference(p, supplied, plan)
    ensures OnlyOther(p, supplied, plan, grounded) <==> ByPlaceholder(p, supplied, plan, grounded)
  {
    hide MayAdmitAbsence, NothingDemanded, OptionCovers, ByOption;
    OptionCoversIff(p, supplied, plan);
    MayAdmitAbsenceIff(p, supplied, plan);
  }

  ghost function StationsOf(p: Pending, f: Facts, o: Oracles, c: Choice): Stations
    requires c.missing.Items?
  {
    Stations(FirstAgenda(f, c), Deferred(p, f, c), Opened(p, f, c),
             Identified(p, f, o, Opened(p, f, c)), Enquired(p, f, o, c))
  }

  lemma DefersMeans(p: Pending, f: Facts, c: Choice, agenda: seq<Name>, plan: Plan)
    requires Defers(p, f, c, agenda, plan)
    ensures plan.facts == f && plan.unspecified == [] && Ordered(plan.fields)
  {
  }

  lemma OpensMeans(p: Pending, before: Plan, plan: Plan)
    requires Opens(p, before, plan)
    ensures plan.facts == before.facts && Ordered(plan.fields)
  {
  }

  lemma IdentifiesMeans(p: Pending, o: Oracles, before: Plan, plan: Plan)
    requires Identifies(p, o, before, plan) && Ordered(before.fields)
    ensures Ordered(plan.fields)
  {
  }

  lemma AgendaMeans(items: seq<Option<Name>>, f: Facts, agenda: seq<Name>)
    requires AgendaOf(items, f, agenda)
    ensures Ordered(agenda)
  {
  }

  lemma StationsPass(p: Pending, f: Facts, o: Oracles, c: Choice)
    requires c.missing.Items?
    ensures Passes(p, f, o, c, StationsOf(p, f, o, c))
  {
    hide AgendaOf, Defers, Opens, Identifies, Enquires, Considered, Defer, DropUnrelated, Identified, LookedUp, Ordered;
    var agenda := FirstAgenda(f, c);
    var deferred, open := Deferred(p, f, c), Opened(p, f, c);
    var identified := Identified(p, f, o, open);
    ConsideredIsAgenda(c.missing.items, f);
    AgendaMeans(c.missing.items, f, agenda);
    DeferSpelledOut(p, f, c, agenda);
    DefersMeans(p, f, c, agenda, deferred);
    OpenSpelledOut(p, deferred);
    OpensMeans(p, deferred, open);
    IdentifySpelledOut(p, o, open);
    IdentifiesMeans(p, o, open, identified);
    EnquireSpelledOut(o, identified);
  }

  lemma StuckIff(p: Pending, f: Facts, o: Oracles, c: Choice)
    requires CountingChoice(f, o) == Some(c) && NamesMissing(Some(c))
    ensures var s := StationsOf(p, f, o, c);
            && (Stuck(p, f, s) <==> Unanswerable(p, f, o))
            && Prepared(p, f, o).facts == s.enquired.facts
            && (!Stuck(p, f, s) ==> Prepared(p, f, o) == Settlement(p, f, s))
  {
    hide CountingChoice, Enquired, Deferred, OptionCovers, PreferencesOnly, OnlyOther, ByOption, ByPreference,
      ByPlaceholder, GroundedCurrent, InQuestion, Listed;
    var plan, deferred := Enquired(p, f, o, c), Deferred(p, f, c);
    GroundedIff(p, deferred);
    MayAdmitIff(p, f, plan, GroundedCurrent(p, deferred));
    if OnlyOther(p, f, plan, GroundedCurrent(p, deferred)) { OnlyOtherMeans(p, f, plan, GroundedCurrent(p, deferred)); }
    assert plan.unspecified + [] == plan.unspecified;
  }

  lemma OnlyOtherMeans(p: Pending, f: Facts, plan: Plan, grounded: bool)
    requires OnlyOther(p, f, plan, grounded)
    ensures plan.fields != []
  {
  }

  /** However the helper and the resolver reply, the decision is the one spelled out above. */
  lemma DecisionIsSpelledOut(p: Pending, f: Facts, o: Oracles, r: Outcome)
    requires if Unanswerable(p, f, o) then r == Refused(MissingFacts) else Replied(p, Prepared(p, f, o), o, r)
    ensures exists c, s :: Decided(p, f, o, c, s, Prepared(p, f, o).facts, r)
  {
    hide CountingChoice, Prevails, Replied, Passes, Stuck, StationsOf, Settlement, Unanswerable, Screening;
    var c := CountingChoice(f, o);
    CountingPrevails(f, o);
    if NamesMissing(c) {
      hide Prepared;
      StationsPass(p, f, o, c.value);
      StuckIff(p, f, o, c.value);
      assert Decided(p, f, o, c, StationsOf(p, f, o, c.value), Prepared(p, f, o).facts, r);
    } else {
      var plan := Plan(f, Choice(Absent, None, Absent, None), [], [], {});
      NotUnanswerable(p, f, o);
      assert Decided(p, f, o, c, Stations([], plan, plan, plan, plan), Prepared(p, f, o).facts, r);
    }
  }

  lemma NotUnanswerable(p: Pending, f: Facts, o: Oracles)
    ensures Unanswerable(p, f, o) ==> NamesMissing(CountingChoice(f, o))
  {
  }

  /** The option that an outcome mentions or selects. */
  function OptionTaken(r: Outcome): Option<OptionItem> {
    match r
    case Answered(d, _) => d.option
    case Selected(option, _) => Some(option)
    case Refused(_) => None
  }

  /** The decision once a call is within budget, from the non-blank facts. */
  method Decide(p: Pending, supplied: Facts, o: Oracles) returns (r: Outcome, facts: Facts, t: Trace)
    requires PendingOk(p) && FactsOk(supplied)
    ensures Enriched(supplied, facts, Replies(o)) && TraceOk(supplied, o, t) && TraceIsLast(p, supplied, o, t)
    ensures Grounded(p, facts, r)
    ensures facts == Prepared(p, supplied, o).facts
    ensures !r.Refused? ==> AllSettled(p, facts, t.considered)
    ensures r.Answered? ==>
              && r.draft.unspecified == Prepared(p, supplied, o).unspecified
              && (forall k :: k in r.draft.deferred <==> k in Prepared(p, supplied, o).deferred)
              && NoticesAllowed(p, facts, r.draft.unspecified)
    ensures OptionTaken(r).Some? ==> ChosenByHelper(o, OptionTaken(r).value.id)
    ensures r == Refused(MissingFacts) <==> Unanswerable(p, supplied, o)
    ensures r.Refused? ==> r.reason in {MissingFacts, NoFacts, NoParameter, NoOption}
    ensures !Unanswerable(p, supplied, o) ==> Replied(p, Prepared(p, supplied, o), o, r)
    ensures exists c, s :: Decided(p, supplied, o, c, s, facts, r)
  {
    hide Considered, Kept, Resolved, Replies, AllSettled, NoticesAllowed, DraftOk, HasLabel, Prepared, Unanswerable,
      LastConsulted, LastBasis, TextReply, OptionReply, Decided;
    var ok, chosen, unspecified, deferred, last;
    ok, chosen, facts, unspecified, deferred, t := Prepare(p, supplied, o);
    if !ok {
      DecisionIsSpelledOut(p, supplied, o, Refused(MissingFacts));
      return Refused(MissingFacts), facts, t;
    }
    if p.allowText {
      r, last := ReplyInText(p, facts, o, chosen, unspecified, deferred);
    } else {
      r, last := ReplyByOption(p, facts, o, chosen);
      OptionReplyOnly(p, facts, o, chosen, unspecified, deferred, r);
    }
    DecisionIsSpelledOut(p, supplied, o, r);
    t := t.(calls := t.calls + last);
  }

  /**
   Only the purpose, workload, scale or budget stay missing: the call is refused exactly when no option covers them
   and the question demands something, the goal is unknown, or the choice does not leave it at known facts and a
   vague detail.
   */
  lemma PreferencesRefusedIff(p: Pending, f: Facts, o: Oracles, c: Option<Choice>, s: Stations, facts: Facts,
                              r: Outcome)
    requires Decided(p, f, o, c, s, facts, r)
    requires c.Some? && c.value.missing.Items? && c.value.missing.items != []
    requires s.enquired.fields != [] && forall k :: k in s.enquired.fields ==> k in {Purpose, Workload, Scale, Budget}
    ensures r == Refused(MissingFacts) <==>
            && !ByOption(p, f, s.enquired)
            && (|| p.requiredWord || SecretParameter in p.subjects || !p.allowText || Goal !in facts.values
                || (exists k :: k in p.subjects && k in {VpcId, ZoneId, Cidr, CidrPrefix, StackName}
                                && k !in facts.values && !PutOff(p, f, k))
                || s.enquired.chosen.detail !in {None, Some("unknown"), Some("business_preference")}
                || !NamesKnown(s.enquired.chosen.factKeys, facts))
  {
    hide Passes, Prevails, ByOption, Settlement;
    assert s.enquired.fields[0] in s.enquired.fields;
    RepliedIsNotMissing(p, Settlement(p, f, s), o, r);
  }

  lemma RepliedIsNotMissing(p: Pending, b: Basis, o: Oracles, r: Outcome)
    ensures Replied(p, b, o, r) ==> r != Refused(MissingFacts)
  {
    hide Narrowing, Selection, Backs;
  }

  lemma OptionReplyOnly(p: Pending, f: Facts, o: Oracles, c: Option<Choice>, unspecified: seq<Name>,
                        deferred: set<Name>, r: Outcome)
    requires OptionReply(p, Basis(f, c, [], {}), o, r)
    ensures OptionReply(p, Basis(f, c, unspecified, deferred), o, r)
  {
  }

  lemma ScreenTraceOk(supplied: Facts, o: Oracles, chosen: Option<Choice>, t: Trace)
    requires NamesMissing(chosen) && (chosen == o.helper(First) || chosen == o.helper(Review))
    requires t.choice == (if t.reviewed then o.helper(IdentityReview) else chosen) && t.calls <= 4 && t.lookups <= 2
    requires Enriched(supplied, t.basis, Replies(o))
    ensures Screened(supplied, o, chosen.value, t.considered, t.basis, t.reviewed) ==> TraceOk(supplied, o, t)
  {
    hide Considered, Enriched, Replies;
    NothingMissing(t.basis);
  }

  lemma NothingMissing(f: Facts)
    ensures Considered([], f) == []
  {
    hide Filter;
    AllMissingIsFilter([], f);
    FilterNothing(SORTED, Reported([], f));
  }

  lemma {:induction false} FilterNothing(names: seq<Name>, keep: Name -> bool)
    requires forall k :: !keep(k)
    ensures Filter(names, keep) == []
  {
    if names != [] { FilterNothing(names[1..], keep); }
  }

  /**
   One call: counted, refused when over budget, and otherwise answered from facts only, whatever the helper and
   the resolver reply.
   */
  method AnswerQuestion(p: Pending, given: Facts, counts: Counts, o: Oracles)
    returns (r: Outcome, facts: Facts, counts': Counts, t: Trace)
    requires PendingOk(p) && forall k :: k in given.keys <==> k in given.values
    ensures counts' == if Blank(p.question) then counts else Bumped(counts, p.fingerprint)
    ensures r == Refused(NoQuestion) <==> forall c :: c in p.question ==> c in {' ', '\t', '\n', '\r'}
    ensures forall k :: k in DropBlank(given).values <==>
              k in given.values && exists c :: c in given.values[k] && c !in {' ', '\t', '\n', '\r'}
    ensures !Blank(p.question) ==> (r == Refused(OverBudget) <==> !WithinBudget(counts', p.fingerprint))
    ensures !r.Refused? ==> WithinBudget(counts', p.fingerprint)
    ensures !Blank(p.question) && WithinBudget(counts', p.fingerprint) ==>
              && (exists c, s :: Decided(p, DropBlank(given), o, c, s, facts, r))
              && (r == Refused(MissingFacts) <==> Unanswerable(p, DropBlank(given), o))
              && (r != Refused(MissingFacts) ==> Replied(p, Prepared(p, DropBlank(given), o), o, r))
              && facts == Prepared(p, DropBlank(given), o).facts
    ensures Enriched(DropBlank(given), facts, Replies(o)) && t.calls <= 4 && t.lookups <= 2
    ensures Grounded(p, facts, r)
    ensures ValidReplies(o) ==> AllKept(DropBlank(given), facts)
    ensures !r.Refused? ==>
              && TraceOk(DropBlank(given), o, t) && TraceIsLast(p, DropBlank(given), o, t)
              && AllSettled(p, facts, t.considered)
              && forall k :: PassedOver(t, k) ==> !Known(facts, k)
    ensures r.Answered? ==> forall k :: k != Other ==>
              (k in r.draft.unspecified && Known(facts, k) <==> StaleNotice(p, DropBlank(given), o, k))
    ensures r.Answered? ==> forall k ::
              k in r.draft.deferred && Known(facts, k) <==> StaleDeferral(p, DropBlank(given), o, k)
    ensures r.Answered? ==> NoticesAllowed(p, facts, r.draft.unspecified)
    ensures OptionTaken(r).Some? && OptionTaken(r).value.id != Some("") ==> NamedByHelper(o, OptionTaken(r).value.id)
  {
    hide Prepared, Unanswerable, StaleNotice, StaleDeferral, Enriched, DraftOk, AllSettled, Decided, Replied,
      NoticesAllowed, NamedByHelper, FactsOk, Considered, TraceIsLast, PassedOver, ValidReplies;
    var supplied := DropBlank(given);
    DropBlankOk(given);
    EnrichedSelf(supplied, Replies(o));
    facts, counts', t := supplied, counts, Trace(None, supplied, [], false, 0, 0);
    if Blank(p.question) {
      return Refused(NoQuestion), facts, counts', t;
    }
    counts' := Bumped(counts, p.fingerprint);
    var total := Sum(counts');
    if total > MAX_QUESTIONS || counts'[p.fingerprint] > MAX_REPEATS {
      return Refused(OverBudget), facts, counts', t;
    }
    r, facts, t := Decide(p, supplied, o);
    forall k | k != Other
      ensures k in Prepared(p, supplied, o).unspecified && Known(Prepared(p, supplied, o).facts, k)
              <==> StaleNotice(p, supplied, o, k)
    {
      NoticeIsStaleIff(p, supplied, o, k);
    }
    forall k
      ensures k in Prepared(p, supplied, o).deferred && Known(Prepared(p, supplied, o).facts, k)
              <==> StaleDeferral(p, supplied, o, k)
      ensures PassedOver(t, k) ==> !Known(facts, k)
    {
      DeferralIsStaleIff(p, supplied, o, k);
      PassedOverStaysUnknown(p, supplied, o, t, k);
    }
    SuppliedIsKept(p, supplied, o);
  }

  // ---------- a whole session ----------

  datatype Call = Call(pending: Pending, facts: Facts, oracles: Oracles)

  /** How many of the calls about this question were answered. */
  ghost function AnswersTo(calls: seq<Call>, outcomes: seq<Outcome>, fingerprint: string): nat
    requires |calls| == |outcomes|
    decreases |calls|
  {
    if calls == [] then 0
    else
      var n := |calls| - 1;
      AnswersTo(calls[..n], outcomes[..n], fingerprint)
      + if !outcomes[n].Refused? && calls[n].pending.fingerprint == fingerprint then 1 else 0
  }

  ghost function Answers(outcomes: seq<Outcome>): nat {
    if outcomes == [] then 0
    else Answers(outcomes[..|outcomes| - 1]) + if outcomes[|outcomes| - 1].Refused? then 0 else 1
  }

  function CountOf(counts: Counts, fingerprint: string): nat {
    if fingerprint in counts then counts[fingerprint] else 0
  }

  ghost predicate Bounded(calls: seq<Call>, outcomes: seq<Outcome>, counts: Counts) {
    && |calls| == |outcomes|
    && Answers(outcomes) <= 12 && Answers(outcomes) <= Total(counts)
    && forall f {:trigger AnswersTo(calls, outcomes, f)} ::
         AnswersTo(calls, outcomes, f) <= 3 && AnswersTo(calls, outcomes, f) <= CountOf(counts, f)
  }

  lemma BoundedNext(calls: seq<Call>, outcomes: seq<Outcome>, counts: Counts, call: Call, r: Outcome, counts': Counts)
    requires Bounded(calls, outcomes, counts)
    requires counts' == if Blank(call.pending.question) then counts else Bumped(counts, call.pending.fingerprint)
    requires !r.Refused? ==> !Blank(call.pending.question) && WithinBudget(counts', call.pending.fingerprint)
    ensures Bounded(calls + [call], outcomes + [r], counts')
  {
    var calls', outcomes' := calls + [call], outcomes + [r];
    assert calls'[..|calls|] == calls && outcomes'[..|outcomes|] == outcomes;
    TotalBumped(counts, call.pending.fingerprint);
    forall f
      ensures AnswersTo(calls', outcomes', f) <= 3 && AnswersTo(calls', outcomes', f) <= CountOf(counts', f)
    {
      assert AnswersTo(calls, outcomes, f) <= CountOf(counts, f);
    }
  }

  /** Over any run of calls at most twelve questions are answered, and none more than three times. */
  method Session(calls: seq<Call>) returns (outcomes: seq<Outcome>)
    requires forall c :: c in calls ==> PendingOk(c.pending) && forall k :: k in c.facts.keys <==> k in c.facts.values
    ensures |outcomes| == |calls|
    ensures Answers(outcomes) <= 12
    ensures forall f {:trigger AnswersTo(calls, outcomes, f)} :: AnswersTo(calls, outcomes, f) <= 3
  {
    hide Grounded, Decided, Replied, Prepared, Unanswerable, Enriched, AllKept, TraceOk, TraceIsLast, AllSettled,
      NoticesAllowed, StaleNotice, StaleDeferral, PassedOver, WithinBudget, DropBlank, Replies, OptionTaken;
    outcomes := [];
    var counts: Counts := map[];
    for n := 0 to |calls|
      invariant Bounded(calls[..n], outcomes, counts)
    {
      var call := calls[n];
      assert call in calls;
      var r, facts, counts', t := AnswerQuestion(call.pending, call.facts, counts, call.oracles);
      assert calls[..n + 1] == calls[..n] + [call];
      BoundedNext(calls[..n], outcomes, counts, call, r, counts');
      outcomes, counts := outcomes + [r], counts';
    }
    assert calls[..|calls|] == calls;
  }

  // ---------- the text of an answer ----------

  function Label(k: Name): string
    requires HasLabel(k)
  {
    match k
    case Region => "地域"
    case Purpose => "用途"
    case Workload => "工作负载"
    case Scale => "规模"
    case Budget => "预算"
    case Cidr => "网段"
    case CidrPrefix => "网段前缀"
    case Constraints => "其他限制"
    case Other => "其他补充信息"
  }

  function ParameterLabel(k: Name): string
    requires IsParameter(k)
  {
    if k == VpcId then "VpcId" else "ZoneId"
  }

  function Joined(texts: seq<string>): string {
    if texts == [] then "" else if |texts| == 1 then texts[0] else texts[0] + "、" + Joined(texts[1..])
  }

  function OptionNotice(o: OptionItem): string {
    "当前问题选择：" + (if o.caption != "" then o.caption else if o.id.Some? then o.id.value else "None")
  }

  function AbsenceNotice(unspecified: seq<Name>): string
    requires forall k :: k in unspecified ==> HasLabel(k)
  {
    "尚未指定的补充细节：" + Joined(seq(|unspecified|, i requires 0 <= i < |unspecified| => Label(unspecified[i])))
    + "。不得虚构这些细节的具体值，保持已有目标和约束。"
  }

  function DeferralNotice(deferred: seq<Name>): string
    requires forall k :: k in deferred ==> IsParameter(k)
  {
    "当前尚未提供" + Joined(seq(|deferred|, i requires 0 <= i < |deferred| => ParameterLabel(deferred[i])))
    + "；按已有要求，留到实现阶段逐项询问后再提供，不能查询或默认选择。"
  }

  function FactTexts(f: Facts, rendered: seq<Name>): seq<string>
    requires forall k :: k in rendered ==> Known(f, k)
  {
    seq(|rendered|, i requires 0 <= i < |rendered| => assert Known(f, rendered[i]); f.values[rendered[i]])
  }

  /** The distinct clauses of the answer, in order. */
  function Clauses(p: Pending, f: Facts, d: Draft): seq<string>
    requires forall k :: k in d.rendered ==> Known(f, k)
    requires forall k :: k in d.unspecified ==> HasLabel(k)
    requires forall k :: k in d.deferred ==> DeclaredDeferred(p, k)
  {
    assert forall k :: k in d.deferred ==> DeclaredDeferred(p, k) && IsParameter(k);
    Distinct(FactTexts(f, d.rendered)
             + (if d.option.Some? then [OptionNotice(d.option.value)] else [])
             + (if d.unspecified != [] then [AbsenceNotice(d.unspecified)] else [])
             + (if d.deferred != [] then [DeferralNotice(d.deferred)] else []))
  }

  /** A clause is a known fact, the one chosen option, or one of the two fixed notices. */
  ghost predicate GroundedClause(p: Pending, f: Facts, d: Draft, x: string)
    requires DraftOk(p, f, d)
  {
    || (exists k :: k in d.rendered && Known(f, k) && x == f.values[k])
    || (d.option.Some? && x == OptionNotice(d.option.value))
    || (d.unspecified != [] && x == AbsenceNotice(d.unspecified))
    || (d.deferred != [] && DeferralApplies(p, d) && x == DeferralNotice(d.deferred))
  }

  ghost predicate DeferralApplies(p: Pending, d: Draft) {
    forall k :: k in d.deferred ==> DeclaredDeferred(p, k) && IsParameter(k)
  }

  /** A grounded answer opens with the unchanged goal. */
  lemma GoalComesFirst(p: Pending, f: Facts, d: Draft)
    requires DraftOk(p, f, d) && Known(f, Goal)
    ensures Clauses(p, f, d) != [] && Clauses(p, f, d)[0] == f.values[Goal]
  {
    var texts := FactTexts(f, d.rendered);
    assert texts[0] == f.values[Goal];
  }

  /** Every clause of a grounded answer is a known fact, the one chosen option, or one of the two fixed notices. */
  lemma ClausesAreGrounded(p: Pending, f: Facts, d: Draft)
    requires DraftOk(p, f, d)
    ensures forall x :: x in Clauses(p, f, d) ==> GroundedClause(p, f, d, x)
  {
    forall x | x in Clauses(p, f, d) ensures GroundedClause(p, f, d, x) {
      InFour(FactTexts(f, d.rendered),
             if d.option.Some? then [OptionNotice(d.option.value)] else [],
             if d.unspecified != [] then [AbsenceNotice(d.unspecified)] else [],
             if d.deferred != [] then [DeferralNotice(d.deferred)] else [], x);
      if x in FactTexts(f, d.rendered) { FactTextIsFact(f, d.rendered, x); }
    }
  }

  /** The answer says everything it is made of, each clause once: facts, option, what is undecided, what comes later. */
  lemma ClausesAreAll(p: Pending, f: Facts, d: Draft)
    requires DraftOk(p, f, d)
    ensures DeferralApplies(p, d)
    ensures OnceInOrder(Clauses(p, f, d), FactTexts(f, d.rendered)
              + (if d.option.Some? then [OptionNotice(d.option.value)] else [])
              + (if d.unspecified != [] then [AbsenceNotice(d.unspecified)] else [])
              + (if d.deferred != [] then [DeferralNotice(d.deferred)] else []))
  {
    hide OnceInOrder, Distinct;
    DistinctInOrder(FactTexts(f, d.rendered)
                    + (if d.option.Some? then [OptionNotice(d.option.value)] else [])
                    + (if d.unspecified != [] then [AbsenceNotice(d.unspecified)] else [])
                    + (if d.deferred != [] then [DeferralNotice(d.deferred)] else []));
  }

  /** Different undecided fields are called by different names. */
  lemma LabelsDiffer(j: Name, k: Name)
    requires HasLabel(j) && HasLabel(k) && Label(j) == Label(k)
    ensures j == k
  {
    var length := |Label(j)|;
    if length > 2 { assert Label(j)[2] == Label(k)[2]; }
  }

  lemma InFour(a: seq<string>, b: seq<string>, c: seq<string>, d: seq<string>, x: string)
    requires x in a + b + c + d
    ensures x in a || x in b || x in c || x in d
  {
  }

  lemma FactTextIsFact(f: Facts, rendered: seq<Name>, x: string)
    requires (forall k :: k in rendered ==> Known(f, k)) && x in FactTexts(f, rendered)
    ensures exists k :: k in rendered && Known(f, k) && x == f.values[k]
  {
    var i :| 0 <= i < |rendered| && FactTexts(f, rendered)[i] == x;
    assert rendered[i] in rendered && Known(f, rendered[i]);
  }
}
