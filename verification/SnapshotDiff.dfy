/**
 The snapshot diff behind the custom events of a database relation: `diff`,
 `_validate_entity_consistency` and the provider's relation-changed handler.
 */
module SnapshotDiff {

  type Bag = map<string, string>

  datatype Diff = Diff(added: set<string>, changed: set<string>, deleted: set<string>)

  function Compare(before: Bag, now: Bag): Diff {
    Diff(now.Keys - before.Keys,
         (set k | k in before.Keys * now.Keys && before[k] != now[k]),
         before.Keys - now.Keys)
  }

  /** Apply a diff to the old data, taking new values from `now`. */
  function Patch(before: Bag, d: Diff, now: Bag): Bag {
    (before - d.deleted) + (map k | k in now && k in d.added + d.changed :: now[k])
  }

  /** The three parts of a diff are disjoint and turn the old data into the new. */
  lemma DiffPatches(before: Bag, now: Bag)
    ensures var d := Compare(before, now);
            && d.added !! d.changed && d.added !! d.deleted && d.changed !! d.deleted
            && Patch(before, d, now) == now
            && (d == Diff({}, {}, {}) <==> before == now)
  {
    var d := Compare(before, now);
    forall k ensures k in Patch(before, d, now) <==> k in now
             ensures k in now ==> Patch(before, d, now)[k] == now[k] {
      if k in before && k in now && before[k] != now[k] { assert k in d.changed; }
    }
    if d == Diff({}, {}, {}) {
      assert Patch(before, d, now) == before;
    }
  }

  /** No smaller diff would do: a patch that leaves out a named key gives something else. */
  lemma DiffIsMinimal(before: Bag, now: Bag, d: Diff)
    requires Patch(before, d, now) == now
    ensures Compare(before, now).added <= d.added + d.changed
    ensures Compare(before, now).changed <= d.added + d.changed
    ensures Compare(before, now).deleted <= d.deleted
  {
    forall k | k in Compare(before, now).added + Compare(before, now).changed ensures k in d.added + d.changed {
      assert Patch(before, d, now)[k] == now[k];
    }
    forall k | k in Compare(before, now).deleted ensures k in d.deleted {
      assert k !in Patch(before, d, now);
    }
  }

  const DATABASE := "database"
  const ENTITY_TYPE := "entity-type"
  const PERMISSIONS := "entity-permissions"
  const FIXED_KEYS: seq<string> := ["entity-type", "extra-user-roles", "extra-group-roles"]

  datatype Emission = DatabaseRequested | EntityRequested | PermissionsChanged

  /** What an event reached: skipped (not leader), refused (and rolled back), or handled with emissions. */
  datatype Outcome = Skipped | Refused | Handled(emitted: seq<Emission>)

  /** The requirer's data, without the library's own snapshot key. */
  function Clean(remote: Bag): Bag { remote - {"data"} }

  predicate Consistent(d: Diff) { forall i :: 0 <= i < |FIXED_KEYS| ==> FIXED_KEYS[i] !in d.changed }

  datatype Change = Change(remote: Bag, leader: bool)

  function Emitted(d: Diff): seq<Emission> {
    if DATABASE in d.added then (if ENTITY_TYPE in d.added then [EntityRequested] else [DatabaseRequested])
    else if ENTITY_TYPE !in d.added && PERMISSIONS in d.added + d.changed then [PermissionsChanged]
    else []
  }

  /** One event: the new snapshot and what it led to. */
  function React(snapshot: Bag, e: Change): (Bag, Outcome) {
    var d := Compare(snapshot, Clean(e.remote));
    if !e.leader then (snapshot, Skipped)
    else if !Consistent(d) then (snapshot, Refused)
    else (Clean(e.remote), Handled(Emitted(d)))
  }

  /** The snapshot after a run of events. */
  function After(snapshot: Bag, run: seq<Change>): Bag {
    if run == [] then snapshot else React(After(snapshot, run[..|run| - 1]), run[|run| - 1]).0
  }

  function OutcomeAt(snapshot: Bag, run: seq<Change>, i: nat): Outcome
    requires i < |run|
  {
    React(After(snapshot, run[..i]), run[i]).1
  }

  predicate IsRequest(o: Outcome) {
    o.Handled? && (DatabaseRequested in o.emitted || EntityRequested in o.emitted)
  }

  /** Of the first `i` events, the `j`-th is the last one handled; none is when `j` is 0. */
  ghost predicate LastHandled(snapshot: Bag, run: seq<Change>, i: nat, j: nat)
    requires j <= i <= |run|
  {
    && (j > 0 ==> OutcomeAt(snapshot, run, j - 1).Handled?)
    && (forall k :: j <= k < i ==> !OutcomeAt(snapshot, run, k).Handled?)
  }

  /** The requirer's data at the last handled event, or the initial snapshot. */
  function DataAt(snapshot: Bag, run: seq<Change>, j: nat): Bag
    requires j <= |run|
  {
    if j == 0 then snapshot else Clean(run[j - 1].remote)
  }

  /** In every run the snapshot is the data of the last handled event. */
  lemma {:induction false} SnapshotIsLastHandled(snapshot: Bag, run: seq<Change>, i: nat, j: nat)
    requires j <= i <= |run| && LastHandled(snapshot, run, i, j)
    ensures After(snapshot, run[..i]) == DataAt(snapshot, run, j)
  {
    if i > 0 {
      assert run[..i][..i - 1] == run[..i - 1];
      assert OutcomeAt(snapshot, run, i - 1) == React(After(snapshot, run[..i - 1]), run[i - 1]).1;
      if j < i {
        SnapshotIsLastHandled(snapshot, run, i - 1, j);
      }
    }
  }

  predicate NewIn(k: string, before: Bag, now: Bag) { k in now && k !in before }

  predicate ChangedIn(k: string, before: Bag, now: Bag) { k in now && k in before && now[k] != before[k] }

  /** An entity type or extra roles, once given, may not change. */
  predicate FixedChanges(before: Bag, now: Bag) {
    || ChangedIn("entity-type", before, now)
    || ChangedIn("extra-user-roles", before, now)
    || ChangedIn("extra-group-roles", before, now)
  }

  /** What one event leads to, told by the data before and now. */
  ghost predicate Fires(leader: bool, before: Bag, now: Bag, o: Outcome) {
    && (o == Skipped <==> !leader)
    && (o == Refused <==> leader && FixedChanges(before, now))
    && (o.Handled? ==>
          o.emitted ==
          if "database" in now && "database" !in before then
            [if "entity-type" in now && "entity-type" !in before then EntityRequested else DatabaseRequested]
          else if && !("entity-type" in now && "entity-type" !in before) && "entity-permissions" in now
                  && ("entity-permissions" in before ==> before["entity-permissions"] != now["entity-permissions"])
          then [PermissionsChanged]
          else [])
  }

  /** Of the requirer's data only the library's own snapshot key is left out. */
  lemma CleanExactly(remote: Bag, k: string)
    ensures k in Clean(remote) <==> k in remote && k != "data"
    ensures k in Clean(remote) ==> Clean(remote)[k] == remote[k]
  {
  }

  lemma ReactFires(snapshot: Bag, e: Change)
    ensures Fires(e.leader, snapshot, Clean(e.remote), React(snapshot, e).1)
  {
    var d := Compare(snapshot, Clean(e.remote));
    assert forall k :: k in d.added <==> NewIn(k, snapshot, Clean(e.remote));
    assert forall k :: k in d.changed <==> ChangedIn(k, snapshot, Clean(e.remote));
    assert FIXED_KEYS[0] == "entity-type" && FIXED_KEYS[1] == "extra-user-roles" && FIXED_KEYS[2] ==
      "extra-group-roles";
  }

  /**
   In every run, against the data of the last handled event: a request is emitted at exactly the handled
   events at which `database` newly appears, alone, its kind telling whether an entity type came with
   it; the permissions event at exactly those where permissions, but neither of the two, are new or changed.
   */
  lemma RequestsFireExactly(snapshot: Bag, run: seq<Change>, i: nat, j: nat)
    requires i < |run| && j <= i && LastHandled(snapshot, run, i, j)
    ensures Fires(run[i].leader, DataAt(snapshot, run, j), Clean(run[i].remote), OutcomeAt(snapshot, run, i))
  {
    SnapshotIsLastHandled(snapshot, run, i, j);
    ReactFires(After(snapshot, run[..i]), run[i]);
  }

  lemma {:induction false} FindLastHandled(snapshot: Bag, run: seq<Change>, i: nat) returns (j: nat)
    requires i <= |run|
    ensures j <= i && LastHandled(snapshot, run, i, j)
  {
    if i == 0 || OutcomeAt(snapshot, run, i - 1).Handled? {
      j := i;
    } else {
      j := FindLastHandled(snapshot, run, i - 1);
    }
  }

  /** Between two requests of a run there is a handled event at which the requirer names no database. */
  lemma RequestsNeedWithdrawal(snapshot: Bag, run: seq<Change>, i: nat, k: nat) returns (w: nat)
    requires i < k < |run| && IsRequest(OutcomeAt(snapshot, run, i)) && IsRequest(OutcomeAt(snapshot, run, k))
    ensures i < w < k && OutcomeAt(snapshot, run, w).Handled? && "database" !in run[w].remote
  {
    var j := FindLastHandled(snapshot, run, i);
    RequestsFireExactly(snapshot, run, i, j);
    var l := FindLastHandled(snapshot, run, k);
    RequestsFireExactly(snapshot, run, k, l);
    CleanExactly(run[i].remote, "database");
    w := l - 1;
    CleanExactly(run[w].remote, "database");
  }

  function Requests(snapshot: Bag, run: seq<Change>): nat {
    if run == [] then 0
    else Requests(snapshot, run[..|run| - 1]) + (if IsRequest(OutcomeAt(snapshot, run, |run| - 1)) then 1 else 0)
  }

  /** Handled events at which `database` disappears. */
  function Withdrawals(snapshot: Bag, run: seq<Change>): nat {
    if run == [] then 0
    else
      var before := After(snapshot, run[..|run| - 1]);
      Withdrawals(snapshot, run[..|run| - 1])
      + (if OutcomeAt(snapshot, run, |run| - 1).Handled? && DATABASE in before && DATABASE !in After(snapshot, run)
        then 1 else 0)
  }

  function Present(b: Bag): nat { if DATABASE in b then 1 else 0 }

  /** Requests and withdrawals balance: a second request needs a withdrawal in between. */
  lemma {:induction false} RequestsBalance(snapshot: Bag, run: seq<Change>)
    ensures Present(snapshot) + Requests(snapshot, run) == Present(After(snapshot, run)) + Withdrawals(snapshot, run)
  {
    if run != [] {
      var n := |run| - 1;
      RequestsBalance(snapshot, run[..n]);
      ReactFires(After(snapshot, run[..n]), run[n]);
    }
  }

  class ProviderHandlers {
    var snapshot: Bag

    constructor ()
      ensures snapshot == map[]
    {
      snapshot := map[];
    }

    /** `diff`: compare with the saved snapshot, and save the new data for next time. */
    method TakeDiff(remote: Bag) returns (d: Diff)
      modifies this
      ensures d == Compare(old(snapshot), Clean(remote)) && snapshot == Clean(remote)
    {
      d := Compare(snapshot, Clean(remote));
      snapshot := Clean(remote);
    }

    /** `_on_relation_changed_event`; a raised error fails the hook, and Juju drops what it wrote. */
    method OnRelationChanged(remote: Bag, leader: bool) returns (o: Outcome)
      modifies this
      ensures (snapshot, o) == React(old(snapshot), Change(remote, leader))
    {
      if !leader {
        return Skipped;
      }
      var saved := snapshot;
      var d := TakeDiff(remote);
      var i := 0;
      while i < |FIXED_KEYS|
        invariant 0 <= i <= |FIXED_KEYS| && snapshot == Clean(remote)
        invariant forall j :: 0 <= j < i ==> FIXED_KEYS[j] !in d.changed
      {
        if FIXED_KEYS[i] in d.changed {
          snapshot := saved;
          return Refused;
        }
        i := i + 1;
      }
      if DATABASE in d.added && ENTITY_TYPE !in d.added {
        return Handled([DatabaseRequested]);
      }
      if DATABASE in d.added && ENTITY_TYPE in d.added {
        return Handled([EntityRequested]);
      }
      if DATABASE !in d.added && ENTITY_TYPE !in d.added && (PERMISSIONS in d.added || PERMISSIONS in d.changed) {
        return Handled([PermissionsChanged]);
      }
      o := Handled([]);
    }
  }
}
