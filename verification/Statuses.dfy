/**
 Relation statuses: the provider keeps a serialized list of active statuses in the
 relation, the requirer turns changes of that list into raised and resolved events.
 */
module Statuses {
  import opened Text
  import opened Collections

  datatype Status = Status(code: int, message: string, resolution: string)

  type Active = map<int, Status>

  predicate StrictlySorted(list: seq<Status>) {
    forall i, j :: 0 <= i < j < |list| ==> list[i].code < list[j].code
  }

  function Codes(list: seq<Status>): set<int> { set i | 0 <= i < |list| :: list[i].code }

  /** `get_statuses`: a later entry wins over an earlier one with the same code. */
  function Parse(list: seq<Status>): Active {
    if list == [] then map[]
    else
      var last := list[|list| - 1];
      Parse(list[..|list| - 1])[last.code := last]
  }

  /** The entry read for a code is the last one with it. */
  lemma {:induction false} LastEntryWins(list: seq<Status>, i: nat)
    requires i < |list| && forall j :: i < j < |list| ==> list[j].code != list[i].code
    ensures list[i].code in Parse(list) && Parse(list)[list[i].code] == list[i]
  {
    if i < |list| - 1 { LastEntryWins(list[..|list| - 1], i); }
  }

  ghost function Pick<T>(s: set<T>): (x: T)
    requires s != {}
    ensures x in s
  {
    var x :| x in s;
    x
  }

  ghost function Min(s: set<int>): (k: int)
    requires s != {}
    ensures k in s && forall j :: j in s ==> k <= j
  {
    var x := Pick(s);
    if s - {x} == {} then
      assert s == {x};
      x
    else
      var rest := Min(s - {x});
      assert forall j :: j in s ==> j == x || j in s - {x};
      if x < rest then x else rest
  }

  /** `[statuses[k] for k in sorted(statuses)]`. */
  ghost function Serialize(m: Active): seq<Status> {
    if m.Keys == {} then []
    else
      var k := Min(m.Keys);
      assert (m - {k}).Keys < m.Keys;
      [m[k]] + Serialize(m - {k})
  }

  ghost predicate CodesMatch(m: Active) { forall k :: k in m ==> m[k].code == k }

  lemma {:induction false} ParsePrepend(s: Status, list: seq<Status>)
    requires forall i :: 0 <= i < |list| ==> list[i].code != s.code
    ensures Parse([s] + list) == Parse(list)[s.code := s]
  {
    if list == [] {
      assert ([s] + list)[..0] == [];
    } else {
      var n := |list| - 1;
      assert ([s] + list)[..n + 1] == [s] + list[..n];
      ParsePrepend(s, list[..n]);
    }
  }

  lemma CodesPrepend(s: Status, list: seq<Status>)
    ensures Codes([s] + list) == {s.code} + Codes(list)
  {
    assert ([s] + list)[0] == s;
    assert forall i :: 0 <= i < |list| ==> ([s] + list)[i + 1] == list[i];
  }

  lemma SortedPrepend(s: Status, list: seq<Status>)
    requires StrictlySorted(list) && forall c :: c in Codes(list) ==> s.code < c
    ensures StrictlySorted([s] + list)
  {
    assert forall i :: 0 <= i < |list| ==> list[i].code in Codes(list);
  }

  /** Serializing gives a strictly sorted list that parses back to the same statuses. */
  lemma {:induction false} SerializeRoundTrip(m: Active)
    requires CodesMatch(m)
    ensures StrictlySorted(Serialize(m)) && Codes(Serialize(m)) == m.Keys && Parse(Serialize(m)) == m
    decreases m.Keys
  {
    if m.Keys != {} {
      var k := Min(m.Keys);
      SerializeRoundTrip(m - {k});
      FirstInFront(m, k, Serialize(m - {k}));
    } else {
      assert m == map[];
    }
  }

  lemma NotAmong(list: seq<Status>, code: int)
    requires code !in Codes(list)
    ensures forall i :: 0 <= i < |list| ==> list[i].code != code
  {
    forall i | 0 <= i < |list| ensures list[i].code in Codes(list) {}
  }

  lemma PutBack(m: Active, k: int)
    requires k in m
    ensures (m - {k})[k := m[k]] == m && m.Keys == {k} + (m.Keys - {k})
  {
  }

  /** Putting the status with the least code in front of the others. */
  lemma FirstInFront(m: Active, k: int, tail: seq<Status>)
    requires k in m && m[k].code == k && forall j :: j in m ==> k <= j
    requires StrictlySorted(tail) && Codes(tail) == m.Keys - {k} && Parse(tail) == m - {k}
    ensures StrictlySorted([m[k]] + tail) && Codes([m[k]] + tail) == m.Keys && Parse([m[k]] + tail) == m
  {
    NotAmong(tail, k);
    PutBack(m, k);
    SortedPrepend(m[k], tail);
    ParsePrepend(m[k], tail);
    CodesPrepend(m[k], tail);
  }

  datatype Op = Raise(status: Status) | RaiseCode(code: int) | Resolve(code: int) | Clear

  /** The provider's calls on the stored list; an unknown code or a status never raised changes nothing. */
  ghost function Store(stored: seq<Status>, op: Op, schema: Active): seq<Status> {
    match op
    case Raise(s) => Serialize(Parse(stored)[s.code := s])
    case RaiseCode(c) => if c in schema then Serialize(Parse(stored)[schema[c].code := schema[c]]) else stored
    case Resolve(c) => if c in Parse(stored) then Serialize(Parse(stored) - {c}) else stored
    case Clear => []
  }

  /** The same calls on a map from codes to statuses. */
  function Effect(m: Active, op: Op, schema: Active): Active {
    match op
    case Raise(s) => m[s.code := s]
    case RaiseCode(c) => if c in schema then m[c := schema[c]] else m
    case Resolve(c) => m - {c}
    case Clear => map[]
  }

  ghost function Stored(stored: seq<Status>, ops: seq<Op>, schema: Active): seq<Status> {
    if ops == [] then stored else Store(Stored(stored, ops[..|ops| - 1], schema), ops[|ops| - 1], schema)
  }

  function Effects(m: Active, ops: seq<Op>, schema: Active): Active {
    if ops == [] then m else Effect(Effects(m, ops[..|ops| - 1], schema), ops[|ops| - 1], schema)
  }

  lemma {:induction false} ParseCodesMatch(list: seq<Status>)
    ensures CodesMatch(Parse(list))
  {
    if list != [] { ParseCodesMatch(list[..|list| - 1]); }
  }

  lemma StoreRefines(stored: seq<Status>, op: Op, schema: Active)
    requires StrictlySorted(stored) && CodesMatch(schema)
    ensures StrictlySorted(Store(stored, op, schema))
    ensures Parse(Store(stored, op, schema)) == Effect(Parse(stored), op, schema)
  {
    ParseCodesMatch(stored);
    match op
    case Raise(s) => SerializeRoundTrip(Parse(stored)[s.code := s]);
    case RaiseCode(c) => if c in schema { SerializeRoundTrip(Parse(stored)[c := schema[c]]); }
    case Resolve(c) =>
      if c in Parse(stored) {
        SerializeRoundTrip(Parse(stored) - {c});
      } else {
        assert Parse(stored) - {c} == Parse(stored);
      }
    case Clear =>
  }

  /** After any run of calls the stored list is strictly sorted and is the abstract map. */
  lemma {:induction false} StoredRunRefines(stored: seq<Status>, ops: seq<Op>, schema: Active)
    requires StrictlySorted(stored) && CodesMatch(schema)
    ensures StrictlySorted(Stored(stored, ops, schema))
    ensures Parse(Stored(stored, ops, schema)) == Effects(Parse(stored), ops, schema)
  {
    if ops != [] {
      var n := |ops| - 1;
      StoredRunRefines(stored, ops[..n], schema);
      StoreRefines(Stored(stored, ops[..n], schema), ops[n], schema);
    }
  }

  method MinKey(s: set<int>) returns (k: int)
    requires s != {}
    ensures k == Min(s)
  {
    k := Choose(s);
    var rest := s - {k};
    while rest != {}
      invariant k in s && rest <= s && forall j :: j in s && j !in rest ==> k <= j
      decreases rest
    {
      var x := Choose(rest);
      k, rest := if x < k then x else k, rest - {x};
    }
  }

  /** The list that is written back: statuses in the order of their codes. */
  method ListByCode(m: Active) returns (list: seq<Status>)
    ensures list == Serialize(m)
  {
    list := [];
    var pending := m;
    while pending.Keys != {}
      invariant list + Serialize(pending) == Serialize(m)
      decreases pending.Keys
    {
      var k := MinKey(pending.Keys);
      assert (pending - {k}).Keys < pending.Keys;
      list, pending := list + [pending[k]], pending - {k};
    }
  }

  /** `get_statuses`. */
  method ReadStatuses(list: seq<Status>) returns (m: Active)
    ensures m == Parse(list)
  {
    m := map[];
    for i := 0 to |list|
      invariant m == Parse(list[..i])
    {
      assert list[..i + 1][..i] == list[..i];
      m := m[list[i].code := list[i]];
    }
    assert list[..|list|] == list;
  }

  /** The status field of one relation, as the leader of the provider keeps it. */
  class ProviderStatuses {
    const schema: Active
    var stored: seq<Status>

    constructor (schema: Active)
      requires CodesMatch(schema)
      ensures this.schema == schema && stored == [] && Valid()
    {
      this.schema, stored := schema, [];
    }

    ghost predicate Valid()
      reads this
    {
      StrictlySorted(stored) && CodesMatch(schema)
    }

    method RaiseStatus(s: Status)
      requires Valid()
      modifies this
      ensures Valid() && stored == Store(old(stored), Raise(s), schema)
      ensures Parse(stored) == Parse(old(stored))[s.code := s]
    {
      StoreRefines(stored, Raise(s), schema);
      var statuses := ReadStatuses(stored);
      stored := ListByCode(statuses[s.code := s]);
    }

    /** Raising by code fails when the schema does not know the code. */
    method RaiseCode(code: int) returns (ok: bool)
      requires Valid()
      modifies this
      ensures Valid() && stored == Store(old(stored), Op.RaiseCode(code), schema)
      ensures ok <==> code in schema
      ensures Parse(stored) == if ok then Parse(old(stored))[code := schema[code]] else Parse(old(stored))
    {
      if code !in schema {
        return false;
      }
      RaiseStatus(schema[code]);
      ok := true;
    }

    method ResolveStatus(code: int)
      requires Valid()
      modifies this
      ensures Valid() && stored == Store(old(stored), Resolve(code), schema)
      ensures Parse(stored) == Parse(old(stored)) - {code}
    {
      StoreRefines(stored, Resolve(code), schema);
      var statuses := ReadStatuses(stored);
      if code !in statuses {
        return;
      }
      stored := ListByCode(statuses - {code});
    }

    method ClearStatuses()
      requires Valid()
      modifies this
      ensures Valid() && stored == Store(old(stored), Clear, schema) && Parse(stored) == map[]
    {
      stored := [];
    }

    /** Any run of calls leaves the list that the run over the code map describes. */
    method Run(ops: seq<Op>)
      requires Valid()
      modifies this
      ensures Valid() && stored == Stored(old(stored), ops, schema)
      ensures Parse(stored) == Effects(Parse(old(stored)), ops, schema)
    {
      for i := 0 to |ops|
        invariant Valid() && stored == Stored(old(stored), ops[..i], schema)
      {
        assert ops[..i + 1][..i] == ops[..i] && ops[..i + 1][i] == ops[i];
        match ops[i] {
          case Raise(s) => RaiseStatus(s);
          case RaiseCode(c) => var ok := RaiseCode(c);
          case Resolve(c) => ResolveStatus(c);
          case Clear => ClearStatuses();
        }
      }
      assert ops[..|ops|] == ops;
      StoredRunRefines(old(stored), ops, schema);
    }
  }

  /** The statuses a relation-changed event reports, raised ones first. */
  datatype Batch = Batch(raised: seq<Status>, resolved: seq<Status>)

  ghost predicate DistinctCodes(list: seq<Status>) {
    forall i, j :: 0 <= i < j < |list| ==> list[i].code != list[j].code
  }

  /** What a handler must report when the saved list is `before` and the current one `now`. */
  ghost predicate Reports(before: seq<Status>, now: seq<Status>, b: Batch) {
    && DistinctCodes(b.raised) && Codes(b.raised) == Codes(now) - Codes(before)
    && DistinctCodes(b.resolved) && Codes(b.resolved) == Codes(before) - Codes(now)
    && (forall s :: s in b.raised ==> s in now)
    && (forall s :: s in b.resolved ==> s in before)
  }

  /** The first entry with a given code. */
  method Find(list: seq<Status>, code: int) returns (s: Status)
    requires code in Codes(list)
    ensures s in list && s.code == code
    ensures exists i :: 0 <= i < |list| && list[i] == s && forall j :: 0 <= j < i ==> list[j].code != code
  {
    var i := 0;
    while list[i].code != code
      invariant 0 <= i < |list| && forall j :: 0 <= j < i ==> list[j].code != code
      decreases |list| - i
    {
      i := i + 1;
    }
    s := list[i];
  }

  /** One event per code of `codes`, in no particular order. */
  method Collect(list: seq<Status>, codes: set<int>) returns (found: seq<Status>)
    requires codes <= Codes(list)
    ensures DistinctCodes(found) && Codes(found) == codes && forall s :: s in found ==> s in list
  {
    var pending := codes;
    found := [];
    while pending != {}
      invariant pending <= codes
      invariant DistinctCodes(found) && Codes(found) == codes - pending && forall s :: s in found ==> s in list
      decreases pending
    {
      var code := Choose(pending);
      var s := Find(list, code);
      assert forall i :: 0 <= i < |found| ==> found[i].code in Codes(found);
      CodesAppend(found, s);
      found := found + [s];
      pending := pending - {code};
    }
  }

  lemma CodesAppend(list: seq<Status>, s: Status)
    ensures Codes(list + [s]) == Codes(list) + {s.code}
  {
    assert (list + [s])[|list|] == s;
    assert forall i :: 0 <= i < |list| ==> (list + [s])[i] == list[i];
  }

  /** One databag of the relation: a unit's, with its state, or an application's, with its subordinate flag. */
  datatype Databag = UnitBag(name: string, state: Option<string>) | AppBag(name: string, subordinated: Option<string>)

  /** Units are told apart from the charm's own by the prefix of their name, applications by the name. */
  predicate IsRemote(charm: string, bag: Databag) {
    match bag
    case UnitBag(name, _) => !(charm <= name)
    case AppBag(name, _) => name != charm
  }

  /** The state of the last remote unit, if it has published one. */
  function UnitState(charm: string, bags: seq<Databag>): Option<string> {
    if bags == [] then None
    else
      var last := bags[|bags| - 1];
      if last.UnitBag? && IsRemote(charm, last) then last.state else UnitState(charm, bags[..|bags| - 1])
  }

  /** Whether the last remote application runs subordinated. */
  predicate IsSubordinate(charm: string, bags: seq<Databag>) {
    bags != [] &&
    var last := bags[|bags| - 1];
    if last.AppBag? && IsRemote(charm, last) then last.subordinated == Some("true")
    else IsSubordinate(charm, bags[..|bags| - 1])
  }

  /** The handler goes on to `_diff` unless a subordinated remote has no unit that is ready. */
  predicate ReachesDiff(charm: string, bags: seq<Databag>) {
    IsSubordinate(charm, bags) ==> UnitState(charm, bags) == Some("ready")
  }

  /** The last databag of another application says that it is subordinated. */
  ghost predicate SaysSubordinate(charm: string, bags: seq<Databag>, i: int) {
    && 0 <= i < |bags| && bags[i].AppBag? && bags[i].name != charm && bags[i].subordinated == Some("true")
    && forall j :: i < j < |bags| ==> !(bags[j].AppBag? && bags[j].name != charm)
  }

  /** The last databag of a unit of another charm says that it is ready. */
  ghost predicate SaysReady(charm: string, bags: seq<Databag>, i: int) {
    && 0 <= i < |bags| && bags[i].UnitBag? && !(charm <= bags[i].name) && bags[i].state == Some("ready")
    && forall j :: i < j < |bags| ==> !(bags[j].UnitBag? && !(charm <= bags[j].name))
  }

  lemma {:induction false} SubordinateAt(charm: string, bags: seq<Databag>)
    ensures IsSubordinate(charm, bags) <==> exists i :: SaysSubordinate(charm, bags, i)
  {
    if bags != [] {
      var n := |bags| - 1;
      SubordinateAt(charm, bags[..n]);
      if bags[n].AppBag? && bags[n].name != charm {
        assert SaysSubordinate(charm, bags, n) <==> bags[n].subordinated == Some("true");
      } else {
        forall i ensures SaysSubordinate(charm, bags, i) <==> SaysSubordinate(charm, bags[..n], i) {
          assert 0 <= i < n ==> bags[..n][i] == bags[i];
        }
      }
    }
  }

  lemma {:induction false} ReadyAt(charm: string, bags: seq<Databag>)
    ensures UnitState(charm, bags) == Some("ready") <==> exists i :: SaysReady(charm, bags, i)
  {
    if bags != [] {
      var n := |bags| - 1;
      ReadyAt(charm, bags[..n]);
      if bags[n].UnitBag? && !(charm <= bags[n].name) {
        assert SaysReady(charm, bags, n) <==> bags[n].state == Some("ready");
      } else {
        forall i ensures SaysReady(charm, bags, i) <==> SaysReady(charm, bags[..n], i) {
          assert 0 <= i < n ==> bags[..n][i] == bags[i];
        }
      }
    }
  }

  /**
   An event misses `_diff` exactly when the last databag of another application says it is subordinated, while
   no unit of another charm is there or the last such unit has not published that it is ready.
   */
  lemma MissesDiffExactly(charm: string, bags: seq<Databag>)
    ensures !ReachesDiff(charm, bags) <==>
            (exists i :: SaysSubordinate(charm, bags, i)) && !(exists i :: SaysReady(charm, bags, i))
  {
    SubordinateAt(charm, bags);
    ReadyAt(charm, bags);
  }

  /** The active codes an observer of the events believes in. */
  function Observe(active: set<int>, b: Batch): set<int> { active + Codes(b.raised) - Codes(b.resolved) }

  /** No code is raised while active nor resolved while inactive. */
  ghost predicate Legal(active: set<int>, b: Batch) {
    && DistinctCodes(b.raised) && Codes(b.raised) !! active
    && DistinctCodes(b.resolved) && Codes(b.resolved) <= active + Codes(b.raised)
  }

  ghost predicate Tracks(active: set<int>, now: seq<Status>, b: Batch) {
    Legal(active, b) && Observe(active, b) == Codes(now)
  }

  /** An event is reported rightly exactly when the observer and the saved snapshot agree beforehand. */
  lemma TracksExactly(active: set<int>, before: seq<Status>, now: seq<Status>, b: Batch)
    requires Reports(before, now, b)
    ensures Tracks(active, now, b) <==> active == Codes(before)
  {
    if Tracks(active, now, b) {
      forall c ensures c in active <==> c in Codes(before) {
        assert c in Observe(active, b) <==> c in Codes(now);
      }
    }
    if active == Codes(before) {
      assert Observe(active, b) == Codes(now);
    }
  }

  /** A relation-changed event: the provider's status list and the databags of the relation. */
  datatype Delivery = Delivery(now: seq<Status>, bags: seq<Databag>)

  function Saved(charm: string, before: seq<Status>, run: seq<Delivery>): seq<Status> {
    if run == [] then before
    else
      var last := run[|run| - 1];
      if ReachesDiff(charm, last.bags) then last.now else Saved(charm, before, run[..|run| - 1])
  }

  function Observed(active: set<int>, batches: seq<Batch>): set<int> {
    if batches == [] then active else Observe(Observed(active, batches[..|batches| - 1]), batches[|batches| - 1])
  }

  ghost predicate ReportsRun(charm: string, before: seq<Status>, run: seq<Delivery>, batches: seq<Batch>) {
    |batches| == |run| &&
    forall i :: 0 <= i < |run| ==> Reports(Saved(charm, before, run[..i]), run[i].now, batches[i])
  }

  lemma OneMoreReport(charm: string, before: seq<Status>, run: seq<Delivery>, i: nat, batches: seq<Batch>, b: Batch)
    requires i < |run| && ReportsRun(charm, before, run[..i], batches)
    requires Reports(Saved(charm, before, run[..i]), run[i].now, b)
    ensures ReportsRun(charm, before, run[..i + 1], batches + [b])
    ensures Saved(charm, before, run[..i + 1]) ==
            if ReachesDiff(charm, run[i].bags) then run[i].now else Saved(charm, before, run[..i])
  {
    assert run[..i + 1][..i] == run[..i];
    forall j | 0 <= j < i ensures Reports(Saved(charm, before, run[..i + 1][..j]), run[j].now, batches[j]) {
      assert run[..i + 1][..j] == run[..i][..j];
    }
  }

  ghost predicate TracksRun(active: set<int>, run: seq<Delivery>, batches: seq<Batch>)
    requires |batches| == |run|
  {
    forall i :: 0 <= i < |run| ==> Tracks(Observed(active, batches[..i]), run[i].now, batches[i])
  }

  /** Every event but the last either saves its snapshot or changes no code. */
  ghost predicate NothingLost(charm: string, before: seq<Status>, run: seq<Delivery>) {
    forall i :: 0 <= i < |run| - 1 ==>
      ReachesDiff(charm, run[i].bags) || Codes(run[i].now) == Codes(Saved(charm, before, run[..i]))
  }

  /** In step after `i` right events: the observer holds the codes of the last delivery. */
  lemma InStep(charm: string, before: seq<Status>, run: seq<Delivery>, batches: seq<Batch>, i: nat)
    requires ReportsRun(charm, before, run, batches) && i < |run|
    requires Tracks(Observed(Codes(before), batches[..i]), run[i].now, batches[i])
    ensures Observed(Codes(before), batches[..i + 1]) == Codes(run[i].now)
    ensures Codes(Saved(charm, before, run[..i + 1])) == Codes(run[i].now) <==>
              ReachesDiff(charm, run[i].bags) || Codes(run[i].now) == Codes(Saved(charm, before, run[..i]))
  {
    assert batches[..i + 1][..i] == batches[..i] && run[..i + 1][..i] == run[..i];
  }

  /**
   Folding the raised and resolved events rebuilds the active codes at every event, with
   no code raised or resolved twice in a row, exactly when no changing event misses `_diff`.
   */
  lemma RunTracksExactly(charm: string, before: seq<Status>, run: seq<Delivery>, batches: seq<Batch>)
    requires ReportsRun(charm, before, run, batches)
    ensures TracksRun(Codes(before), run, batches) <==> NothingLost(charm, before, run)
  {
    if NothingLost(charm, before, run) {
      forall i | 0 <= i < |run| ensures Tracks(Observed(Codes(before), batches[..i]), run[i].now, batches[i]) {
        TracksUpTo(charm, before, run, batches, i);
      }
    }
    if TracksRun(Codes(before), run, batches) {
      forall i | 0 <= i < |run| - 1
        ensures ReachesDiff(charm, run[i].bags) || Codes(run[i].now) == Codes(Saved(charm, before, run[..i]))
      {
        InStep(charm, before, run, batches, i);
        TracksExactly(Observed(Codes(before), batches[..i + 1]), Saved(charm, before, run[..i + 1]), run[i + 1].now,
          batches[i + 1]);
      }
    }
  }

  lemma {:induction false} TracksUpTo(charm: string, before: seq<Status>, run: seq<Delivery>, batches: seq<Batch>,
                                      i: nat)
    requires ReportsRun(charm, before, run, batches) && NothingLost(charm, before, run) && i < |run|
    ensures Tracks(Observed(Codes(before), batches[..i]), run[i].now, batches[i])
  {
    if i > 0 {
      TracksUpTo(charm, before, run, batches, i - 1);
      InStep(charm, before, run, batches, i - 1);
    }
    TracksExactly(Observed(Codes(before), batches[..i]), Saved(charm, before, run[..i]), run[i].now, batches[i]);
  }

  /** No event of the run has another application that says it is subordinated. */
  ghost predicate NoSubordinate(charm: string, run: seq<Delivery>) {
    forall i :: 0 <= i < |run| ==>
      forall b :: b in run[i].bags && b.AppBag? && b.name != charm ==> b.subordinated != Some("true")
  }

  /** Where nobody is subordinated, every run tracks the active codes, with no further condition. */
  lemma OrdinaryRunTracks(charm: string, before: seq<Status>, run: seq<Delivery>, batches: seq<Batch>)
    requires ReportsRun(charm, before, run, batches) && NoSubordinate(charm, run)
    ensures TracksRun(Codes(before), run, batches)
  {
    forall i | 0 <= i < |run| ensures ReachesDiff(charm, run[i].bags) {
      MissesDiffExactly(charm, run[i].bags);
      assert forall j :: 0 <= j < |run[i].bags| ==> run[i].bags[j] in run[i].bags;
    }
    RunTracksExactly(charm, before, run, batches);
  }

  /** The databags of a relation with a subordinated remote application and one unit of it. */
  function Bags(app: string, unit: string, state: Option<string>): seq<Databag> {
    [AppBag(app, Some("true")), UnitBag(unit, state)]
  }

  lemma BagsGuard(charm: string, app: string, unit: string, state: Option<string>)
    requires app != charm && !(charm <= unit)
    ensures ReachesDiff(charm, Bags(app, unit, state)) <==> state == Some("ready")
  {
    var bags := Bags(app, unit, state);
    assert bags[..1] == [bags[0]];
    assert IsSubordinate(charm, bags[..1]);
  }

  /**
   A subordinated remote whose unit is not ready yet makes the next event report the same status again.
   */
  lemma LostEventIsReportedTwice(charm: string, app: string, unit: string, state: Option<string>, s: Status,
                                 batches: seq<Batch>)
    requires app != charm && !(charm <= unit) && state != Some("ready")
    requires ReportsRun(charm, [], Lost(app, unit, state, s), batches)
    ensures !TracksRun({}, Lost(app, unit, state, s), batches)
    ensures s.code in Codes(batches[0].raised) && s.code in Codes(batches[1].raised)
  {
    var run := Lost(app, unit, state, s);
    BagsGuard(charm, app, unit, state);
    BagsGuard(charm, app, unit, Some("ready"));
    assert run[..0] == [] && run[..1] == [run[0]] && run[..1][..0] == [];
    CodesAppend([], s);
    assert [] + [s] == [s] && Codes([s]) == {s.code};
    assert Reports(Saved(charm, [], run[..0]), run[0].now, batches[0]);
    assert Reports(Saved(charm, [], run[..1]), run[1].now, batches[1]);
    RunTracksExactly(charm, [], run, batches);
  }

  function Lost(app: string, unit: string, state: Option<string>, s: Status): seq<Delivery> {
    [Delivery([s], Bags(app, unit, state)), Delivery([s], Bags(app, unit, Some("ready")))]
  }

  // From the provider's calls to what an observer of the requirer's events believes.

  lemma {:induction false} CodesOfParse(list: seq<Status>)
    ensures Parse(list).Keys == Codes(list)
  {
    if list != [] {
      var n := |list| - 1;
      CodesOfParse(list[..n]);
      CodesAppend(list[..n], list[n]);
      assert list[..n] + [list[n]] == list;
    }
  }

  /** Each delivery carries the list that the provider had stored after some of its calls. */
  ghost predicate Carries(run: seq<Delivery>, ops: seq<Op>, cuts: seq<nat>, schema: Active) {
    |cuts| == |run| &&
    forall i :: 0 <= i < |run| ==> cuts[i] <= |ops| && run[i].now == Stored([], ops[..cuts[i]], schema)
  }

  ghost predicate MatchesAt(ops: seq<Op>, cut: nat, schema: Active, batches: seq<Batch>, i: nat)
    requires i < |batches| && cut <= |ops|
  {
    && Legal(Observed({}, batches[..i]), batches[i])
    && Observed({}, batches[..i + 1]) == Effects(map[], ops[..cut], schema).Keys
  }

  lemma TracksIsMatches(ops: seq<Op>, cut: nat, schema: Active, now: seq<Status>, batches: seq<Batch>, i: nat)
    requires CodesMatch(schema) && cut <= |ops| && now == Stored([], ops[..cut], schema) && i < |batches|
    ensures Tracks(Observed({}, batches[..i]), now, batches[i]) <==> MatchesAt(ops, cut, schema, batches, i)
  {
    StoredRunRefines([], ops[..cut], schema);
    CodesOfParse(now);
    assert batches[..i + 1][..i] == batches[..i];
  }

  /**
   End to end: after every event the observer's active codes are those of the provider's calls behind it, and
   no code is raised or resolved twice in a row, exactly when no event that changes the codes misses `_diff`.
   */
  lemma ObserverMatchesProvider(charm: string, schema: Active, ops: seq<Op>, cuts: seq<nat>, run: seq<Delivery>,
                                batches: seq<Batch>)
    requires CodesMatch(schema) && Carries(run, ops, cuts, schema) && ReportsRun(charm, [], run, batches)
    ensures (forall i :: 0 <= i < |run| ==> MatchesAt(ops, cuts[i], schema, batches, i)) <==>
            NothingLost(charm, [], run)
  {
    forall i | 0 <= i < |run|
      ensures Tracks(Observed({}, batches[..i]), run[i].now, batches[i]) <==>
              MatchesAt(ops, cuts[i], schema, batches, i)
    {
      TracksIsMatches(ops, cuts[i], schema, run[i].now, batches, i);
    }
    assert Codes([]) == {};
    RunTracksExactly(charm, [], run, batches);
  }

  class RequirerHandlers {
    const charm: string
    var saved: seq<Status>

    constructor (charm: string)
      ensures this.charm == charm && saved == []
    {
      this.charm, saved := charm, [];
    }

    /** The guard of the database requirer's handler. */
    method MayDiff(bags: seq<Databag>) returns (go: bool)
      ensures go == ReachesDiff(charm, bags)
    {
      var subordinate, state := false, None;
      for i := 0 to |bags|
        invariant subordinate == IsSubordinate(charm, bags[..i]) && state == UnitState(charm, bags[..i])
      {
        assert bags[..i + 1][..i] == bags[..i];
        match bags[i] {
          case UnitBag(name, s) => if !(charm <= name) { state := s; }
          case AppBag(name, s) => if name != charm { subordinate := s == Some("true"); }
        }
      }
      assert bags[..|bags|] == bags;
      go := !(subordinate && state != Some("ready"));
    }

    /**
     The status part of `_on_relation_changed_event`, then the early return of the database requirer,
     and otherwise the snapshot that `_diff` saves.
     */
    method OnRelationChanged(d: Delivery) returns (b: Batch)
      modifies this
      ensures Reports(old(saved), d.now, b)
      ensures saved == if ReachesDiff(charm, d.bags) then d.now else old(saved)
    {
      var raised := Collect(d.now, Codes(d.now) - Codes(saved));
      var resolved := Collect(saved, Codes(saved) - Codes(d.now));
      b := Batch(raised, resolved);
      var go := MayDiff(d.bags);
      if go {
        saved := d.now;
      }
    }

    /** A whole run of events reports each one against the snapshot left by those before it. */
    method HandleAll(run: seq<Delivery>) returns (batches: seq<Batch>)
      modifies this
      ensures ReportsRun(charm, old(saved), run, batches) && saved == Saved(charm, old(saved), run)
    {
      batches := [];
      for i := 0 to |run|
        invariant saved == Saved(charm, old(saved), run[..i])
        invariant ReportsRun(charm, old(saved), run[..i], batches)
      {
        var b := OnRelationChanged(run[i]);
        OneMoreReport(charm, old(saved), run, i, batches, b);
        batches := batches + [b];
      }
      assert run[..|run|] == run;
    }
  }
}
