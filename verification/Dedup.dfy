/**
 Deduplication of received pipeline events (scripts/a2a/debugger.py, `dedupeRawSseEvents`, `appendRawEvent`,
 `resetPipelineEventDedup`). The online path filters one arriving value against the keys seen so far; the
 offline pass filters a restored list of rows. Keys are a pure function of the envelope.
 */
module Dedup {

  /**
   A payload. An object either is an envelope itself or wraps a list of envelope objects; an array stands for
   the envelopes of its items. An envelope without event id and sequence has the empty key.
   */
  datatype Value =
    | Object(id: nat, key: string, isEnvelope: bool, wrapped: seq<Value>)
    | Array(items: seq<Value>)

  datatype Row = Row(at: string, value: Value)

  function Key(v: Value): string {
    if v.Object? then v.key else ""
  }

  function Extract(v: Value): seq<Value> {
    match v
    case Object(_, _, isEnvelope, wrapped) => if isEnvelope then [v] else wrapped
    case Array(items) => ExtractAll(items)
  }

  function ExtractAll(items: seq<Value>): seq<Value> {
    if items == [] then [] else Extract(items[0]) + ExtractAll(items[1..])
  }

  function Envelopes(row: Row): seq<Value> {
    Extract(row.value)
  }

  /** The envelopes that carry no key or a key outside `seen`, in order. */
  function Unseen(envelopes: seq<Value>, seen: set<string>): seq<Value> {
    if envelopes == [] then []
    else
      (if Key(envelopes[0]) == "" || Key(envelopes[0]) !in seen then [envelopes[0]] else [])
      + Unseen(envelopes[1..], seen)
  }

  function Keys(envelopes: seq<Value>): set<string> {
    set i | 0 <= i < |envelopes| && Key(envelopes[i]) != "" :: Key(envelopes[i])
  }

  function Collapse(envelopes: seq<Value>): Value {
    if |envelopes| == 1 then envelopes[0] else Array(envelopes)
  }

  // ---------- reference: keep what no earlier row carries ----------

  ghost function KeysOfRows(rows: seq<Row>): set<string> {
    if rows == [] then {} else KeysOfRows(rows[..|rows| - 1]) + Keys(Envelopes(rows[|rows| - 1]))
  }

  /** What remains of the last row: its envelopes whose key occurs in no earlier row. */
  ghost function Novel(rows: seq<Row>): seq<Value>
    requires rows != []
  {
    Unseen(Envelopes(rows[|rows| - 1]), KeysOfRows(rows[..|rows| - 1]))
  }

  /** What is stored of a row when `seen` is known. */
  ghost function Stored(row: Row, seen: set<string>): seq<Row> {
    var unseen := Unseen(Envelopes(row), seen);
    if Envelopes(row) == [] || unseen == Envelopes(row) then [row]
    else if unseen == [] then []
    else [row.(value := Collapse(unseen))]
  }

  ghost function KeptLast(rows: seq<Row>): seq<Row>
    requires rows != []
  {
    Stored(rows[|rows| - 1], KeysOfRows(rows[..|rows| - 1]))
  }

  ghost function Kept(rows: seq<Row>): seq<Row> {
    if rows == [] then [] else Kept(rows[..|rows| - 1]) + KeptLast(rows)
  }

  // ---------- filtering ----------

  lemma {:induction false} UnseenProperties(envelopes: seq<Value>, seen: set<string>)
    ensures forall e :: e in Unseen(envelopes, seen) <==> e in envelopes && (Key(e) == "" || Key(e) !in seen)
    ensures |Unseen(envelopes, seen)| <= |envelopes|
    ensures |Unseen(envelopes, seen)| == |envelopes| <==> Unseen(envelopes, seen) == envelopes
  {
    if envelopes != [] {
      UnseenProperties(envelopes[1..], seen);
      assert envelopes == [envelopes[0]] + envelopes[1..];
    }
  }

  /** Filtering goes through the envelopes in order, each on its own. */
  lemma {:induction false} UnseenInOrder(a: seq<Value>, b: seq<Value>, seen: set<string>)
    ensures Unseen(a + b, seen) == Unseen(a, seen) + Unseen(b, seen)
    ensures |a| == 1 ==> Unseen(a, seen) == if Key(a[0]) != "" && Key(a[0]) in seen then [] else a
  {
    if a == [] {
      assert a + b == b;
    } else {
      assert (a + b)[1..] == a[1..] + b;
      UnseenInOrder(a[1..], b, seen);
      assert |a| == 1 ==> a == [a[0]] && a[1..] == [];
    }
  }

  /** A payload list is gone through in order; an envelope is its own, a wrapper yields what it wraps. */
  lemma {:induction false} ExtractInOrder(a: seq<Value>, b: seq<Value>)
    ensures Extract(Array(a + b)) == Extract(Array(a)) + Extract(Array(b))
  {
    if a == [] {
      assert a + b == b;
    } else {
      assert (a + b)[1..] == a[1..] + b;
      ExtractInOrder(a[1..], b);
    }
  }

  lemma KeysMembership(envelopes: seq<Value>, k: string)
    ensures k in Keys(envelopes) <==> k != "" && exists e :: e in envelopes && Key(e) == k
  {
    if e :| e in envelopes && Key(e) == k && k != "" {
      var i :| 0 <= i < |envelopes| && envelopes[i] == e;
    }
  }

  /** The remembered keys grow by exactly the keys of the row, kept or dropped. */
  lemma SeenGrows(envelopes: seq<Value>, seen: set<string>)
    ensures seen + Keys(Unseen(envelopes, seen)) == seen + Keys(envelopes)
    ensures Keys(Unseen(envelopes, seen)) == Keys(envelopes) - seen
  {
    UnseenProperties(envelopes, seen);
    forall k ensures k in Keys(Unseen(envelopes, seen)) <==> k in Keys(envelopes) - seen {
      KeysMembership(envelopes, k);
      KeysMembership(Unseen(envelopes, seen), k);
      if e :| e in envelopes && Key(e) == k && k != "" && k !in seen {
        assert e in Unseen(envelopes, seen);
      }
    }
  }

  // ---------- the two implementations ----------

  /** The online path: one value arrives at time `at`. */
  method AppendRawEvent(at: string, value: Value, seen: set<string>, stored: seq<Row>)
    returns (seen': set<string>, stored': seq<Row>)
    ensures seen' == seen + Keys(Extract(value))
    ensures stored' == stored + Stored(Row(at, value), seen)
  {
    var envelopes := Extract(value);
    var storedValue := value;
    seen' := seen;
    if |envelopes| > 0 {
      var unseen := Unseen(envelopes, seen);
      UnseenProperties(envelopes, seen);
      SeenGrows(envelopes, seen);
      if |unseen| == 0 {
        assert Keys(unseen) == {};
        return seen', stored;
      }
      seen' := RememberKeys(seen, unseen);
      if |unseen| != |envelopes| {
        storedValue := Collapse(unseen);
      }
    }
    assert envelopes == [] ==> Keys(envelopes) == {};
    stored' := stored + [Row(at, storedValue)];
  }

  method RememberKeys(seen: set<string>, unseen: seq<Value>) returns (seen': set<string>)
    ensures seen' == seen + Keys(unseen)
  {
    seen' := seen;
    for k := 0 to |unseen|
      invariant seen' == seen + Keys(unseen[..k])
    {
      forall key
        ensures key in Keys(unseen[..k + 1]) <==> key in Keys(unseen[..k]) || (key == Key(unseen[k]) && key != "")
      {
        KeysMembership(unseen[..k + 1], key);
        KeysMembership(unseen[..k], key);
        assert unseen[..k + 1] == unseen[..k] + [unseen[k]];
      }
      if Key(unseen[k]) != "" {
        seen' := seen' + {Key(unseen[k])};
      }
    }
    assert unseen[..|unseen|] == unseen;
  }

  /** Feeding values one by one stores what the reference keeps and remembers every key that arrived. */
  method Online(rows: seq<Row>) returns (seen: set<string>, stored: seq<Row>)
    ensures seen == KeysOfRows(rows) && stored == Kept(rows)
  {
    seen, stored := {}, [];
    for k := 0 to |rows|
      invariant seen == KeysOfRows(rows[..k]) && stored == Kept(rows[..k])
    {
      assert rows[..k + 1][..k] == rows[..k];
      seen, stored := AppendRawEvent(rows[k].at, rows[k].value, seen, stored);
    }
    assert rows[..|rows|] == rows;
  }

  /** The offline pass over a whole list of rows. */
  method DedupeRawSseEvents(rows: seq<Row>) returns (result: seq<Row>)
    ensures result == Kept(rows)
  {
    result := [];
    var seen: set<string> := {};
    for k := 0 to |rows|
      invariant seen == KeysOfRows(rows[..k]) && result == Kept(rows[..k])
    {
      assert rows[..k + 1][..k] == rows[..k];
      var row := rows[k];
      var envelopes := Envelopes(row);
      if |envelopes| > 0 {
        var unseen := Unseen(envelopes, seen);
        UnseenProperties(envelopes, seen);
        SeenGrows(envelopes, seen);
        if |unseen| > 0 {
          seen := RememberKeys(seen, unseen);
          result := result + [if |unseen| == |envelopes| then row else row.(value := Collapse(unseen))];
        } else {
          assert Keys(unseen) == {};
        }
      } else {
        assert Keys(envelopes) == {};
        result := result + [row];
      }
    }
    assert rows[..|rows|] == rows;
  }

  // ---------- what the kept rows carry ----------

  predicate IsEnvelope(v: Value) {
    v.Object? && v.isEnvelope
  }

  /** The last row is stored whole, or what remains of it are envelopes by themselves. */
  ghost predicate CarriesNovel(rows: seq<Row>)
    requires rows != []
  {
    Novel(rows) == Envelopes(rows[|rows| - 1]) || forall e :: e in Novel(rows) ==> IsEnvelope(e)
  }

  /** Whatever remains of a reduced row is an envelope by itself; a row that is stored whole may hold anything. */
  ghost predicate Restorable(rows: seq<Row>) {
    forall n :: 0 < n <= |rows| ==> CarriesNovel(rows[..n])
  }

  lemma RestorableParts(rows: seq<Row>)
    requires Restorable(rows) && rows != []
    ensures Restorable(rows[..|rows| - 1]) && CarriesNovel(rows)
  {
    var init := rows[..|rows| - 1];
    assert rows[..|rows|] == rows;
    forall n | 0 < n <= |init| ensures CarriesNovel(init[..n]) { assert init[..n] == rows[..n]; }
  }

  // ---------- extracting what was extracted ----------

  ghost function Size(v: Value): nat {
    match v
    case Object(_, _, _, wrapped) => 1 + SizeAll(wrapped)
    case Array(items) => 1 + SizeAll(items)
  }

  ghost function SizeAll(items: seq<Value>): nat {
    if items == [] then 0 else Size(items[0]) + SizeAll(items[1..])
  }

  lemma {:induction false} MemberIsSmaller(items: seq<Value>, v: Value)
    requires v in items
    ensures Size(v) <= SizeAll(items)
  {
    if v != items[0] { MemberIsSmaller(items[1..], v); }
  }

  /** Anything but an envelope yields smaller values only. */
  lemma {:induction false} ExtractShrinks(v: Value, e: Value)
    requires e in Extract(v)
    ensures IsEnvelope(v) ==> e == v
    ensures !IsEnvelope(v) ==> Size(e) < Size(v)
    decreases v, 0
  {
    match v
    case Object(_, _, isEnvelope, wrapped) => if !isEnvelope { MemberIsSmaller(wrapped, e); }
    case Array(items) => ExtractAllShrinks(items, e);
  }

  lemma {:induction false} ExtractAllShrinks(items: seq<Value>, e: Value)
    requires e in ExtractAll(items)
    ensures Size(e) <= SizeAll(items)
    decreases items, 1
  {
    if e in Extract(items[0]) {
      ExtractShrinks(items[0], e);
    } else {
      ExtractAllShrinks(items[1..], e);
    }
  }

  lemma {:induction false} ExtractedFrom(items: seq<Value>, e: Value) returns (v: Value)
    requires e in ExtractAll(items)
    ensures v in items && e in Extract(v)
  {
    if e in Extract(items[0]) {
      v := items[0];
    } else {
      v := ExtractedFrom(items[1..], e);
    }
  }

  /** A list that is extracted from itself holds envelopes only: its largest other value could come from nowhere. */
  lemma {:induction false} SelfExtractedAreEnvelopes(items: seq<Value>, bound: nat)
    requires forall e :: e in items ==> e in ExtractAll(items)
    requires forall e :: e in items ==> IsEnvelope(e) || Size(e) <= bound
    ensures forall e :: e in items ==> IsEnvelope(e)
  {
    if bound > 0 {
      forall e | e in items ensures IsEnvelope(e) || Size(e) <= bound - 1 {
        var v := ExtractedFrom(items, e);
        ExtractShrinks(v, e);
      }
      SelfExtractedAreEnvelopes(items, bound - 1);
    }
  }

  lemma AllFromThemselves(items: seq<Value>)
    requires forall e :: e in items ==> e in ExtractAll(items)
    ensures forall e :: e in items ==> IsEnvelope(e)
  {
    forall e | e in items ensures Size(e) <= SizeAll(items) { MemberIsSmaller(items, e); }
    SelfExtractedAreEnvelopes(items, SizeAll(items));
  }

  lemma OneExtracted(e: Value)
    ensures ExtractAll([e]) == Extract(e)
  {
    assert [e][1..] == [];
  }

  /** A collapsed list is extracted again exactly when all its values are envelopes by themselves. */
  lemma CollapseIsExtractedIff(envelopes: seq<Value>)
    ensures Extract(Collapse(envelopes)) == envelopes <==> forall e :: e in envelopes ==> IsEnvelope(e)
  {
    if |envelopes| == 1 {
      OneExtracted(envelopes[0]);
      assert envelopes == [envelopes[0]];
    }
    assert Extract(Collapse(envelopes)) == ExtractAll(envelopes);
    if ExtractAll(envelopes) == envelopes { AllFromThemselves(envelopes); }
    if forall e :: e in envelopes ==> IsEnvelope(e) { ExtractAllOfEnvelopes(envelopes); }
  }

  lemma {:induction false} ExtractAllOfEnvelopes(envelopes: seq<Value>)
    requires forall e :: e in envelopes ==> IsEnvelope(e)
    ensures ExtractAll(envelopes) == envelopes
  {
    if envelopes != [] {
      assert IsEnvelope(envelopes[0]);
      ExtractAllOfEnvelopes(envelopes[1..]);
      assert envelopes == [envelopes[0]] + envelopes[1..];
    }
  }

  /**
   What is stored of a row carries its novel envelopes exactly when nothing was filtered, or when everything that
   remains is an envelope by itself.
   */
  lemma StoredCarriesIff(rows: seq<Row>)
    requires rows != []
    ensures |KeptLast(rows)| <= 1
    ensures KeptLast(rows) == [] ==> Novel(rows) == []
    ensures |KeptLast(rows)| == 1 ==> (Envelopes(KeptLast(rows)[0]) == Novel(rows) <==> CarriesNovel(rows))
  {
    CollapseIsExtractedIff(Novel(rows));
  }

  lemma {:induction false} KeptKeys(rows: seq<Row>)
    requires Restorable(rows)
    ensures KeysOfRows(Kept(rows)) == KeysOfRows(rows)
  {
    if rows != [] {
      RestorableParts(rows);
      var init := rows[..|rows| - 1];
      KeptKeys(init);
      StoredCarriesIff(rows);
      SeenGrows(Envelopes(rows[|rows| - 1]), KeysOfRows(init));
      assert Keys([]) == {};
      if KeptLast(rows) == [] {
        assert Kept(rows) == Kept(init);
      } else {
        assert Kept(rows)[..|Kept(rows)| - 1] == Kept(init);
      }
    }
  }

  lemma {:induction false} RowKeysAreCounted(rows: seq<Row>, i: nat)
    requires i < |rows|
    ensures Keys(Envelopes(rows[i])) <= KeysOfRows(rows)
  {
    if i < |rows| - 1 {
      RowKeysAreCounted(rows[..|rows| - 1], i);
    }
  }

  /** No key occurs in two rows. */
  ghost predicate NoSharedKey(rows: seq<Row>) {
    forall i, j :: 0 <= i < j < |rows| ==> Keys(Envelopes(rows[i])) !! Keys(Envelopes(rows[j]))
  }

  lemma {:induction false} CountedInSomeRow(rows: seq<Row>, k: string) returns (i: nat)
    requires k in KeysOfRows(rows)
    ensures i < |rows| && k in Keys(Envelopes(rows[i]))
  {
    if k in Keys(Envelopes(rows[|rows| - 1])) {
      i := |rows| - 1;
    } else {
      i := CountedInSomeRow(rows[..|rows| - 1], k);
    }
  }

  lemma {:induction false} NoSharedKeyStep(rows: seq<Row>)
    requires rows != []
    ensures var init := rows[..|rows| - 1];
            NoSharedKey(rows) <==> NoSharedKey(init) && Keys(Envelopes(rows[|rows| - 1])) !! KeysOfRows(init)
  {
    hide Extract, Keys;
    var init, last := rows[..|rows| - 1], rows[|rows| - 1];
    if NoSharedKey(rows) {
      forall k | k in KeysOfRows(init) ensures k !in Keys(Envelopes(last)) {
        var i := CountedInSomeRow(init, k);
      }
    }
    forall i | 0 <= i < |init| ensures Keys(Envelopes(rows[i])) <= KeysOfRows(init) { RowKeysAreCounted(init, i); }
  }

  /** No key occurs in two kept rows when what remains of reduced rows are envelopes by themselves. */
  lemma {:induction false} NoKeyInTwoRows(rows: seq<Row>)
    ensures Restorable(rows) ==> NoSharedKey(Kept(rows))
  {
    if rows != [] && Restorable(rows) {
      var init := rows[..|rows| - 1];
      RestorableParts(rows);
      NoKeyInTwoRows(init);
      StoredCarriesIff(rows);
      if KeptLast(rows) == [] {
        assert Kept(rows) == Kept(init);
      } else {
        assert Kept(rows)[..|Kept(rows)| - 1] == Kept(init);
        KeptKeys(init);
        SeenGrows(Envelopes(rows[|rows| - 1]), KeysOfRows(init));
        NoSharedKeyStep(Kept(rows));
      }
    }
  }

  lemma {:induction false} UnseenAll(envelopes: seq<Value>, seen: set<string>)
    ensures Unseen(envelopes, seen) == envelopes <==> Keys(envelopes) !! seen
  {
    UnseenProperties(envelopes, seen);
    SeenGrows(envelopes, seen);
    if Keys(envelopes) !! seen { UnseenKeepsAll(envelopes, seen); }
  }

  lemma {:induction false} UnseenKeepsAll(envelopes: seq<Value>, seen: set<string>)
    requires Keys(envelopes) !! seen
    ensures Unseen(envelopes, seen) == envelopes
  {
    if envelopes != [] {
      KeyIsCounted(envelopes, 0);
      forall i | 0 <= i < |envelopes[1..]| && Key(envelopes[1..][i]) != "" ensures Key(envelopes[1..][i]) !in seen {
        KeyIsCounted(envelopes, i + 1);
      }
      UnseenKeepsAll(envelopes[1..], seen);
    }
  }

  /** A row is stored as it is exactly when it carries no known key. */
  lemma StoredWholeIff(row: Row, seen: set<string>)
    ensures Stored(row, seen) == [row] <==> Keys(Envelopes(row)) !! seen
  {
    var envelopes := Envelopes(row);
    var unseen := Unseen(envelopes, seen);
    UnseenAll(envelopes, seen);
    UnseenProperties(envelopes, seen);
    if unseen != [] && row.value == Collapse(unseen) {
      if |unseen| == 1 {
        OneExtracted(unseen[0]);
        assert unseen == [unseen[0]];
      }
      AllFromThemselves(unseen);
      ExtractAllOfEnvelopes(unseen);
    }
    assert envelopes == [] ==> Keys(envelopes) == {};
  }

  lemma {:induction false} KeptIsNotLonger(rows: seq<Row>)
    ensures |Kept(rows)| <= |rows|
  {
    if rows != [] { KeptIsNotLonger(rows[..|rows| - 1]); }
  }

  /** A pass leaves a list as it is exactly when no key occurs in two of its rows. */
  lemma {:induction false} KeptIsSameIff(rows: seq<Row>)
    ensures Kept(rows) == rows <==> NoSharedKey(rows)
  {
    hide Stored, NoSharedKey, KeysOfRows, Extract;
    if rows == [] {
      NothingShared();
    } else {
      var init, last := rows[..|rows| - 1], rows[|rows| - 1];
      KeptIsSameIff(init);
      KeptIsNotLonger(init);
      NoSharedKeyStep(rows);
      StoredWholeIff(last, KeysOfRows(init));
      StoredAtMostOne(last, KeysOfRows(init));
      assert rows == init + [last];
      if Kept(rows) == rows {
        assert |Kept(init)| == |init| && Kept(init) == rows[..|init|];
        assert KeptLast(rows) == [last];
      }
    }
  }

  lemma NothingShared()
    ensures NoSharedKey([])
  {
  }

  lemma StoredAtMostOne(row: Row, seen: set<string>)
    ensures |Stored(row, seen)| <= 1
  {
  }

  /**
   A second pass changes nothing exactly when no key occurs in two kept rows; in particular when what remains of
   reduced rows are envelopes by themselves.
   */
  lemma KeptIsIdempotent(rows: seq<Row>)
    ensures Kept(Kept(rows)) == Kept(rows) <==> NoSharedKey(Kept(rows))
    ensures Restorable(rows) ==> Kept(Kept(rows)) == Kept(rows)
  {
    KeptIsSameIff(Kept(rows));
    NoKeyInTwoRows(rows);
  }

  // ---------- survivors ----------

  /** Every surviving envelope, in order of arrival. */
  ghost function Survivors(rows: seq<Row>): seq<Value> {
    if rows == [] then [] else Survivors(rows[..|rows| - 1]) + Novel(rows)
  }

  ghost function AllEnvelopes(rows: seq<Row>): seq<Value> {
    if rows == [] then [] else AllEnvelopes(rows[..|rows| - 1]) + Envelopes(rows[|rows| - 1])
  }

  lemma {:induction false} KeptCarriesSurvivors(rows: seq<Row>)
    requires Restorable(rows)
    ensures AllEnvelopes(Kept(rows)) == Survivors(rows)
  {
    if rows != [] {
      RestorableParts(rows);
      KeptCarriesSurvivors(rows[..|rows| - 1]);
      CarriedStep(rows);
    }
  }

  lemma CarriedByLast(rows: seq<Row>)
    requires rows != []
    ensures AllEnvelopes(Kept(rows)) ==
            AllEnvelopes(Kept(rows[..|rows| - 1])) + if KeptLast(rows) == [] then [] else Envelopes(KeptLast(rows)[0])
  {
    hide KeysOfRows, Extract, Unseen;
    var init := rows[..|rows| - 1];
    StoredAtMostOne(rows[|rows| - 1], KeysOfRows(init));
    if KeptLast(rows) == [] {
      assert Kept(rows) == Kept(init);
    } else {
      assert KeptLast(rows) == [KeptLast(rows)[0]];
      assert Kept(rows)[..|Kept(rows)| - 1] == Kept(init);
    }
  }

  /** Once the earlier rows carry their survivors, the whole list does exactly when the last row carries its own. */
  lemma CarriedStep(rows: seq<Row>)
    requires rows != [] && AllEnvelopes(Kept(rows[..|rows| - 1])) == Survivors(rows[..|rows| - 1])
    ensures AllEnvelopes(Kept(rows)) == Survivors(rows) <==> CarriesNovel(rows)
  {
    hide Kept, AllEnvelopes, KeptLast, Novel, Extract, CarriesNovel;
    StoredCarriesIff(rows);
    CarriedByLast(rows);
    var before := Survivors(rows[..|rows| - 1]);
    NothingNovelIsCarried(rows);
    SamePrefix(before, if KeptLast(rows) == [] then [] else Envelopes(KeptLast(rows)[0]), Novel(rows));
  }

  lemma NothingNovelIsCarried(rows: seq<Row>)
    requires rows != []
    ensures Novel(rows) == [] ==> CarriesNovel(rows)
  {
  }

  lemma SamePrefix(a: seq<Value>, b: seq<Value>, c: seq<Value>)
    ensures a + b == a + c <==> b == c
  {
    if a + b == a + c {
      assert b == (a + b)[|a|..] && c == (a + c)[|a|..];
    }
  }

  /** The kept rows carry exactly the survivors, at every moment, exactly when every reduced row is restorable. */
  lemma {:induction false} CarriesAllIff(rows: seq<Row>)
    ensures (forall n :: 0 <= n <= |rows| ==> AllEnvelopes(Kept(rows[..n])) == Survivors(rows[..n]))
            <==> Restorable(rows)
  {
    hide Kept, AllEnvelopes, Survivors, CarriesNovel;
    if forall n :: 0 <= n <= |rows| ==> AllEnvelopes(Kept(rows[..n])) == Survivors(rows[..n]) {
      forall n | 0 < n <= |rows| ensures CarriesNovel(rows[..n]) {
        assert rows[..n][..n - 1] == rows[..n - 1];
        CarriedStep(rows[..n]);
      }
    }
    if Restorable(rows) {
      forall n | 0 <= n <= |rows| ensures AllEnvelopes(Kept(rows[..n])) == Survivors(rows[..n]) {
        assert forall m :: 0 < m <= n ==> rows[..n][..m] == rows[..m];
        KeptCarriesSurvivors(rows[..n]);
      }
    }
  }

  lemma {:induction false} SurvivorsStay(rows: seq<Row>, n: nat)
    requires n <= |rows|
    ensures Survivors(rows[..n]) <= Survivors(rows)
  {
    if n < |rows| {
      SurvivorsStay(rows[..|rows| - 1], n);
      assert rows[..|rows| - 1][..n] == rows[..n];
    } else {
      assert rows[..n] == rows;
    }
  }

  /** An envelope without key, or with a key that no earlier row carries, survives. */
  lemma {:induction false} FirstOccurrenceSurvives(rows: seq<Row>, i: nat, e: Value)
    requires i < |rows| && e in Envelopes(rows[i])
    requires Key(e) == "" || Key(e) !in KeysOfRows(rows[..i])
    ensures e in Survivors(rows)
  {
    hide Unseen, KeysOfRows, Extract;
    var upTo := rows[..i + 1];
    assert upTo[..i] == rows[..i];
    UnseenProperties(Envelopes(rows[i]), KeysOfRows(rows[..i]));
    assert e in Novel(upTo);
    SurvivorsStay(rows, i + 1);
    assert e in Survivors(upTo);
  }

  ghost predicate DistinctKeys(envelopes: seq<Value>) {
    forall a, b :: 0 <= a < b < |envelopes| && Key(envelopes[a]) == Key(envelopes[b]) ==> Key(envelopes[a]) == ""
  }

  lemma {:induction false} SurvivorKeys(rows: seq<Row>)
    ensures Keys(Survivors(rows)) == KeysOfRows(rows)
  {
    if rows != [] {
      var init := rows[..|rows| - 1];
      SurvivorKeys(init);
      SeenGrows(Envelopes(rows[|rows| - 1]), KeysOfRows(init));
      KeysConcat(Survivors(init), Novel(rows));
    }
  }

  lemma KeysConcat(a: seq<Value>, b: seq<Value>)
    ensures Keys(a + b) == Keys(a) + Keys(b)
  {
    forall k ensures k in Keys(a + b) <==> k in Keys(a) || k in Keys(b) {
      KeysMembership(a + b, k);
      KeysMembership(a, k);
      KeysMembership(b, k);
    }
  }

  lemma NoKeysAreDistinct()
    ensures DistinctKeys([])
  {
  }

  lemma KeyIsCounted(envelopes: seq<Value>, i: nat)
    requires i < |envelopes|
    ensures Key(envelopes[i]) == "" || Key(envelopes[i]) in Keys(envelopes)
  {
  }

  lemma DistinctConcat(a: seq<Value>, b: seq<Value>)
    requires Keys(a) !! Keys(b)
    ensures DistinctKeys(a + b) <==> DistinctKeys(a) && DistinctKeys(b)
  {
    var s := a + b;
    if DistinctKeys(s) {
      assert forall i :: 0 <= i < |a| ==> s[i] == a[i];
      assert forall i :: 0 <= i < |b| ==> s[|a| + i] == b[i];
    }
    if DistinctKeys(a) && DistinctKeys(b) {
      forall i, j | 0 <= i < j < |s| && Key(s[i]) == Key(s[j]) ensures Key(s[i]) == "" {
        if i < |a| <= j {
          KeyIsCounted(a, i);
          KeyIsCounted(b, j - |a|);
        }
      }
    }
  }

  /**
   Keys are checked against earlier rows only, so two envelopes of one row may survive with the same key. The
   survivors' keys are distinct exactly when no row brings the same new key twice.
   */
  lemma {:induction false} DistinctIffNoRowRepeats(rows: seq<Row>)
    ensures DistinctKeys(Survivors(rows)) <==> forall n :: 0 < n <= |rows| ==> DistinctKeys(Novel(rows[..n]))
  {
    hide DistinctKeys, Unseen, KeysOfRows, Extract;
    if rows == [] { NoKeysAreDistinct(); }
    if rows != [] {
      var init := rows[..|rows| - 1];
      DistinctIffNoRowRepeats(init);
      SurvivorKeys(init);
      SeenGrows(Envelopes(rows[|rows| - 1]), KeysOfRows(init));
      DistinctConcat(Survivors(init), Novel(rows));
      assert rows[..|rows|] == rows;
      assert forall n :: 0 < n <= |init| ==> init[..n] == rows[..n];
      forall n | 0 < n <= |rows| ensures n < |rows| || rows[..n] == rows { }
    }
  }

  // ---------- interrupting and resuming ----------

  /** What the online path stores from a state in which `seen` is known. */
  ghost function StoredFrom(seen: set<string>, rows: seq<Row>): seq<Row> {
    if rows == [] then []
    else StoredFrom(seen, rows[..|rows| - 1]) + Stored(rows[|rows| - 1], seen + KeysOfRows(rows[..|rows| - 1]))
  }

  lemma KeptAppend(rows: seq<Row>, row: Row)
    ensures Kept(rows + [row]) == Kept(rows) + Stored(row, KeysOfRows(rows))
  {
    assert (rows + [row])[..|rows|] == rows;
  }

  lemma Regroup(a: seq<Row>, b: seq<Row>, row: Row)
    ensures a + (b + [row]) == (a + b) + [row]
  {
  }

  lemma {:induction false} KeptContinues(saved: seq<Row>, later: seq<Row>)
    ensures Kept(saved + later) == Kept(saved) + StoredFrom(KeysOfRows(saved), later)
    decreases |later|
  {
    hide Kept, KeysOfRows, Stored;
    if later == [] {
      assert saved + later == saved;
    } else {
      hide StoredFrom;
      var init, last := later[..|later| - 1], later[|later| - 1];
      KeptContinues(saved, init);
      KeysOfRowsConcat(saved, init);
      KeptAppend(saved + init, last);
      assert later == init + [last];
      Regroup(saved, init, last);
    }
  }

  /** Restoring deduplicates the saved rows and rebuilds the key set from what is left: nothing is forgotten. */
  lemma ResumeAsIfUninterrupted(saved: seq<Row>, later: seq<Row>)
    requires Restorable(saved)
    ensures Kept(saved + later) == Kept(saved) + StoredFrom(KeysOfRows(Kept(saved)), later)
  {
    KeptKeys(saved);
    KeptContinues(saved, later);
  }

  lemma {:induction false} KeysOfRowsConcat(a: seq<Row>, b: seq<Row>)
    ensures KeysOfRows(a + b) == KeysOfRows(a) + KeysOfRows(b)
    decreases |b|
  {
    if b == [] {
      assert a + b == a;
    } else {
      assert (a + b)[..|a + b| - 1] == a + b[..|b| - 1];
      KeysOfRowsConcat(a, b[..|b| - 1]);
    }
  }

  /** One row with the same key twice: both envelopes are kept. */
  lemma RepeatInsideOneRowSurvives(a: Value, b: Value, at: string)
    requires a.Object? && b.Object? && a.key == b.key != ""
    requires a.isEnvelope && b.isEnvelope
    ensures Survivors([Row(at, Array([a, b]))]) == [a, b] && !DistinctKeys([a, b])
  {
    var row := Row(at, Array([a, b]));
    assert ExtractAll([a, b]) == [a, b] by { ExtractAllOfEnvelopes([a, b]); }
    UnseenOfNothing([a, b]);
    assert [row][..0] == [];
    assert Survivors([row][..0]) == [];
    assert Key([a, b][0]) == Key([a, b][1]);
  }

  lemma {:induction false} UnseenOfNothing(envelopes: seq<Value>)
    ensures Unseen(envelopes, {}) == envelopes
  {
    if envelopes != [] { UnseenOfNothing(envelopes[1..]); }
  }

  lemma OneRow(row: Row)
    ensures KeysOfRows([row]) == Keys(Envelopes(row)) && Kept([row]) == [row]
  {
    assert [row][..0] == [];
    UnseenOfNothing(Envelopes(row));
    assert Kept([row]) == Kept([]) + Stored(row, {});
  }

  /** What is stored of a batch of two whose first envelope is known and whose second one is new. */
  lemma SecondOfTwoIsStored(at: string, id: nat, e: Value, bare: Value, known: set<string>)
    requires Key(e) != "" && Key(e) in known && Key(bare) != "" && Key(bare) !in known
    ensures Stored(Row(at, Object(id, "", false, [e, bare])), known) == [Row(at, bare)]
  {
    assert [e, bare][1..] == [bare] && [bare][1..] == [];
    assert Unseen([e, bare], known) == Unseen([bare], known) == [bare];
  }

  /**
   A batched object that is no envelope by itself is stored bare once its seen neighbour is filtered out, and then
   yields no envelope any more: a restored session has forgotten its key.
   */
  lemma BareEnvelopeIsForgotten(at: string, known: set<string>, id: nat, e: Value, bare: Value)
    requires e.Object? && e.key != "" && e.key in known
    requires bare.Object? && !bare.isEnvelope && bare.wrapped == [] && bare.key != "" && bare.key !in known
    ensures var row := Row(at, Object(id, "", false, [e, bare]));
            && bare.key in Keys(Envelopes(row))
            && Stored(row, known) == [Row(at, bare)]
            && Keys(Envelopes(Row(at, bare))) == {}
  {
    SecondOfTwoIsStored(at, id, e, bare, known);
    KeyIsCounted([e, bare], 1);
  }

  /**
   When the bare object wraps an envelope that was seen before, that envelope's key occurs in two kept rows, and a
   second pass drops one of them.
   */
  lemma WrappedEnvelopeComesBack(at: string, id: nat, e: Value, bare: Value)
    requires e.Object? && e.isEnvelope && e.key != ""
    requires bare.Object? && !bare.isEnvelope && bare.wrapped == [e] && bare.key !in {"", e.key}
    ensures var rows := [Row(at, e), Row(at, Object(id, "", false, [e, bare]))];
            && Kept(rows) == [Row(at, e), Row(at, bare)]
            && e.key in Keys(Envelopes(Kept(rows)[0])) * Keys(Envelopes(Kept(rows)[1]))
            && Kept(Kept(rows)) == [Row(at, e)] != Kept(rows)
            && !Restorable(rows)
  {
    hide Kept, Stored, Unseen;
    var first, batch := Row(at, e), Row(at, Object(id, "", false, [e, bare]));
    OneRow(first);
    KeyIsCounted([e], 0);
    assert Keys([e]) == {e.key};
    KeptAppend([first], batch);
    SecondOfTwoIsStored(at, id, e, bare, {e.key});
    assert [first] + [batch] == [first, batch] && [first] + [Row(at, bare)] == [first, Row(at, bare)];
    KeptAppend([first], Row(at, bare));
    SeenAlone(Row(at, bare), e);
    assert [first] + [] == [first];
    if Restorable([first, batch]) { KeptIsIdempotent([first, batch]); }
  }

  lemma SeenAlone(row: Row, e: Value)
    requires Envelopes(row) == [e] && Key(e) != ""
    ensures Stored(row, {Key(e)}) == []
  {
    assert [e][1..] == [];
    assert Unseen([e], {Key(e)}) == [] && |[e]| == 1;
  }

  // ---------- exactly when a restored session goes on as before ----------

  ghost predicate ResumesWith(saved: seq<Row>, later: seq<Row>) {
    Kept(saved + later) == Kept(saved) + StoredFrom(KeysOfRows(Kept(saved)), later)
  }

  lemma StoredSingle(seen: set<string>, e: Value)
    requires e.Object? && e.isEnvelope && e.key != ""
    ensures StoredFrom(seen, [Row("", e)]) == if e.key in seen then [] else [Row("", e)]
  {
    var row := Row("", e);
    assert [row][..0] == [] && [e][1..] == [];
    assert StoredFrom(seen, [row]) == StoredFrom(seen, []) + Stored(row, seen + KeysOfRows([]));
    assert seen + {} == seen;
    assert Unseen([e], seen) == if e.key in seen then [] else [e];
  }

  lemma EmptyKeyIsNotCounted(rows: seq<Row>)
    ensures "" !in KeysOfRows(rows)
  {
  }

  /**
   Whatever arrives later, a restored session stores what an uninterrupted one does exactly when no key was lost or
   gained.
   */
  lemma ResumesIffKeysAreKept(saved: seq<Row>)
    ensures (forall later :: ResumesWith(saved, later)) <==> KeysOfRows(Kept(saved)) == KeysOfRows(saved)
  {
    if KeysOfRows(Kept(saved)) == KeysOfRows(saved) {
      forall later ensures ResumesWith(saved, later) { KeptContinues(saved, later); }
    } else {
      EmptyKeyIsNotCounted(saved);
      EmptyKeyIsNotCounted(Kept(saved));
      var k :| (k in KeysOfRows(Kept(saved))) != (k in KeysOfRows(saved));
      var e := Object(0, k, true, []);
      KeptContinues(saved, [Row("", e)]);
      StoredSingle(KeysOfRows(saved), e);
      StoredSingle(KeysOfRows(Kept(saved)), e);
      assert !ResumesWith(saved, [Row("", e)]);
    }
  }
}
