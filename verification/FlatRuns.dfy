/**
 What the flat map promises over whole runs: written fields read back, untouched
 fields stay, relations settle on one storage mode, and exactly which deletes remove
 what they name.
 */
module FlatRuns {
  import opened SecretLabels
  import opened FlatRelation

  type LabelMap = map<string, Group>

  predicate Touches(step: Step, r: nat, k: string) {
    match step
    case Write(q, put) => q == r && k in put
    case Erase(q, fields) => q == r && k in fields
    case _ => false
  }

  predicate Untouched(steps: seq<Step>, r: nat, k: string) {
    forall i :: 0 <= i < |steps| ==> !Touches(steps[i], r, k)
  }

  predicate SameField(a: Flat, b: Flat, r: nat, k: string) {
    && (k in Data(b, r) <==> k in Data(a, r))
    && (k in Data(a, r) ==> Data(b, r)[k] == Data(a, r)[k])
  }

  lemma StepKeepsField(a: Flat, step: Step, m: LabelMap, resource: string, r: nat, k: string)
    requires !Touches(step, r, k)
    ensures SameField(a, Apply(a, step, m, resource).0, r, k)
    ensures Apply(a, step, m, resource).0.data.Keys == a.data.Keys
    ensures Apply(a, step, m, resource).0.leader == a.leader
  {
  }

  /** A field no step writes or erases is the same after the run. */
  lemma {:induction false} RunKeepsField(a: Flat, steps: seq<Step>, m: LabelMap, resource: string, r: nat, k: string)
    requires Untouched(steps, r, k)
    ensures SameField(a, Final(a, steps, m, resource), r, k)
    ensures Final(a, steps, m, resource).data.Keys == a.data.Keys
    ensures Final(a, steps, m, resource).leader == a.leader
  {
    if steps != [] {
      var n := |steps| - 1;
      RunKeepsField(a, steps[..n], m, resource, r, k);
      StepKeepsField(Final(a, steps[..n], m, resource), steps[n], m, resource, r, k);
    }
  }

  /** A written field reads back after any run that leaves it alone. */
  lemma WrittenFieldReadsBack(a: Flat, r: nat, put: Fields, steps: seq<Step>, m: LabelMap, resource: string, k: string)
    requires UpdateOutcome(a, r, put) == Done && k in put && Untouched(steps, r, k)
    ensures Fetch(Final(Update(a, r, put), steps, m, resource), r, [k]) == map[k := put[k]]
  {
    RunKeepsField(Update(a, r, put), steps, m, resource, r, k);
    assert AsSet([k]) == {k};
  }

  /** An erased field is gone after any run that does not write it again. */
  lemma ErasedFieldIsGone(a: Flat, r: nat, steps: seq<Step>, m: LabelMap, resource: string, k: string)
    requires Access(a, r) == Done && Untouched(steps, r, k)
    ensures Fetch(Final(Delete(a, r, [k], m), steps, m, resource), r, [k]) == map[]
  {
    OneFieldDelete(a, r, k, m);
    RunKeepsField(Delete(a, r, [k], m), steps, m, resource, r, k);
    assert AsSet([k]) == {k};
  }

  /** The only delete calls that keep something they name, stated on what the caller can see. */
  lemma DeleteRemovesExactly(a: Flat, r: nat, fields: seq<string>, m: LabelMap)
    requires Access(a, r) == Done
    ensures Data(Delete(a, r, fields, m), r) == Data(a, r) - AsSet(fields) <==>
              !InSecrets(a, r)
              || OneStoredGroup(a, r, fields, m)
              || (forall f :: f in fields && f in Requested(a, r) ==> f !in Data(a, r))
  {
    var after := Data(Delete(a, r, fields, m), r);
    assert after == Data(a, r) - Removed(a, r, fields, m);
    if f :| f in fields && f in Requested(a, r) && f in Data(a, r) {
      assert InSecrets(a, r) && !OneStoredGroup(a, r, fields, m) ==> f in after;
      assert f !in Data(a, r) - AsSet(fields);
    } else if InSecrets(a, r) && !OneStoredGroup(a, r, fields, m) {
      assert Data(a, r) - AsSet(fields) == Data(a, r) - (AsSet(fields) - Requested(a, r));
    }
  }

  /** Deleting one field always removes exactly that field. */
  lemma OneFieldDelete(a: Flat, r: nat, k: string, m: LabelMap)
    requires Access(a, r) == Done
    ensures Data(Delete(a, r, [k], m), r) == Data(a, r) - {k}
  {
    assert AsSet([k]) == {k};
    if k in Requested(a, r) && k in Data(a, r) {
      assert OneStoredGroup(a, r, [k], m);
    }
    DeleteRemovesExactly(a, r, [k], m);
  }

  /** A call naming stored secret fields of two groups removes neither. */
  lemma TwoGroupDeleteKeepsBoth()
    ensures var fields := map["username" := "u", "tls-ca" := "c"];
            var a := Flat(map[7 := fields], map[7 := {"username", "tls-ca"}], {}, {7}, {}, true, true);
            Data(Delete(a, 7, ["username", "tls-ca"], SECRET_LABEL_MAP), 7) == fields
  {
    var fields := map["username" := "u", "tls-ca" := "c"];
    var a := Flat(map[7 := fields], map[7 := {"username", "tls-ca"}], {}, {7}, {}, true, true);
    var call := ["username", "tls-ca"];
    assert call[0] in call && call[1] in call;
    assert SECRET_LABEL_MAP["username"] == User && SECRET_LABEL_MAP["tls-ca"] == Tls;
    assert !OneStoredGroup(a, 7, call, SECRET_LABEL_MAP);
    assert AsSet(call) - Requested(a, 7) == {};
    assert fields - {} == fields;
  }

  /** Fetching everything gives, for each ordinary key, what fetching that key gives. */
  lemma BulkIsPointwise(a: Flat, r: nat, k: string)
    requires !("secret-" <= k)
    ensures k in Fetch(a, r, []) <==> Fetch(a, r, [k]) != map[]
    ensures k in Fetch(a, r, []) ==> Fetch(a, r, [k]) == map[k := Fetch(a, r, [])[k]]
  {
    assert AsSet([k]) == {k};
    if k in Data(a, r) { assert k in Restrict(Data(a, r), AsSet([k])); }
  }

  /** What a fetch returns, field by field. */
  lemma FetchExactly(a: Flat, r: nat, fields: seq<string>, k: string)
    ensures k in Fetch(a, r, fields) <==>
            && a.leader && r in a.data && k in a.data[r]
            && (if fields != [] then k in fields else "secret-" <= k ==> a.enabled && k in Requested(a, r))
    ensures k in Fetch(a, r, fields) ==> Fetch(a, r, fields)[k] == a.data[r][k]
  {
  }

  /** What a delete leaves, field by field; other relations are as before. */
  lemma DeleteExactly(a: Flat, r: nat, fields: seq<string>, m: LabelMap, k: string)
    requires a.leader && r in a.data
    ensures var after := Delete(a, r, fields, m);
            && (forall q :: q != r ==> Data(after, q) == Data(a, q))
            && (k in Data(after, r) ==> k in a.data[r] && Data(after, r)[k] == a.data[r][k])
            && (k in a.data[r] && k !in Data(after, r) <==>
                && k in a.data[r] && k in fields
                && (k in Requested(a, r) && a.enabled && r !in a.legacy ==>
                      && (forall i, j :: 0 <= i < j < |fields| ==> fields[i] != fields[j])
                      && (forall f :: f in fields ==>
                            f in Requested(a, r) && f in a.data[r] && GroupIn(m, f) == GroupIn(m, k))))
  {
    if k in fields && k in Requested(a, r) && InSecrets(a, r) {
      assert OneStoredGroup(a, r, fields, m) <==>
        && Distinct(fields)
        && (forall f :: f in fields ==> f in Requested(a, r) && f in Data(a, r) && GroupIn(m, f) == GroupIn(m, k));
    }
  }

  /** A call that is not accepted changes nothing. */
  lemma RefusedChangesNothing(a: Flat, step: Step, m: LabelMap, resource: string)
    requires Apply(a, step, m, resource).1.outcome != Done
    ensures Apply(a, step, m, resource).0 == a && Apply(a, step, m, resource).1.found == map[]
  {
  }

  lemma {:induction false} RunKeepsSetting(a: Flat, steps: seq<Step>, m: LabelMap, resource: string)
    ensures var b := Final(a, steps, m, resource);
            && b.data.Keys == a.data.Keys && b.leader == a.leader && b.early == a.early
            && b.requested == a.requested
  {
    if steps != [] { RunKeepsSetting(a, steps[..|steps| - 1], m, resource); }
  }

  lemma {:induction false} RepliesAt(a: Flat, steps: seq<Step>, m: LabelMap, resource: string, i: nat)
    requires i < |steps|
    ensures |Replies(a, steps, m, resource)| == |steps|
    ensures Replies(a, steps, m, resource)[i] == Apply(Final(a, steps[..i], m, resource), steps[i], m, resource).1
  {
    var n := |steps| - 1;
    if n > 0 { RepliesAt(a, steps[..n], m, resource, if i < n then i else 0); }
    if i < n { assert steps[..n][..i] == steps[..i]; }
  }

  lemma RepliesLength(a: Flat, steps: seq<Step>, m: LabelMap, resource: string)
    ensures |Replies(a, steps, m, resource)| == |steps|
  {
    if steps != [] { RepliesAt(a, steps, m, resource, 0); }
  }

  /** Some step has the requirer of relation `r` name the resource. */
  ghost predicate Named(steps: seq<Step>, r: nat, resource: string) {
    exists j :: 0 <= j < |steps| && steps[j].Requirer? && steps[j].r == r && resource in steps[j].put
  }

  lemma NamedSnoc(steps: seq<Step>, r: nat, resource: string)
    requires steps != []
    ensures var n := |steps| - 1;
            Named(steps, r, resource) <==>
            Named(steps[..n], r, resource) || (steps[n].Requirer? && steps[n].r == r && resource in steps[n].put)
  {
    var n := |steps| - 1;
    if Named(steps[..n], r, resource) {
      var j :| 0 <= j < n && steps[..n][j].Requirer? && steps[..n][j].r == r && resource in steps[..n][j].put;
      assert steps[j] == steps[..n][j];
    }
    if Named(steps, r, resource) {
      var j :| 0 <= j < |steps| && steps[j].Requirer? && steps[j].r == r && resource in steps[j].put;
      assert j < n ==> steps[..n][j] == steps[j];
    }
  }

  lemma {:induction false} ReadyExactly(a: Flat, steps: seq<Step>, m: LabelMap, resource: string, r: nat)
    requires r in a.data
    ensures r in Final(a, steps, m, resource).ready <==> r in a.ready || Named(steps, r, resource)
  {
    if steps != [] {
      var n := |steps| - 1;
      ReadyExactly(a, steps[..n], m, resource, r);
      RunKeepsSetting(a, steps[..n], m, resource);
      NamedSnoc(steps, r, resource);
    }
  }

  /** How a run answers each write: refused before the requirer has named the resource, but for the early fields. */
  lemma WriteAnswers(a: Flat, steps: seq<Step>, m: LabelMap, resource: string, i: nat)
    requires i < |steps| && steps[i].Write?
    ensures |Replies(a, steps, m, resource)| == |steps|
    ensures var r := steps[i].r;
            Replies(a, steps, m, resource)[i].outcome ==
            if !a.leader then NotLeader
            else if r !in a.data then NoRelation
            else if r in a.ready || Named(steps[..i], r, resource) || steps[i].put.Keys <= a.early then Done
            else Premature
  {
    RepliesAt(a, steps, m, resource, i);
    RunKeepsSetting(a, steps[..i], m, resource);
    if steps[i].r in a.data { ReadyExactly(a, steps[..i], m, resource, steps[i].r); }
  }

  /** How a run answers every erase and read. */
  lemma OtherAnswers(a: Flat, steps: seq<Step>, m: LabelMap, resource: string, i: nat)
    requires i < |steps| && (steps[i].Erase? || steps[i].Read?)
    ensures |Replies(a, steps, m, resource)| == |steps|
    ensures Replies(a, steps, m, resource)[i].outcome ==
            if !a.leader then NotLeader else if steps[i].r !in a.data then NoRelation else Done
  {
    RepliesAt(a, steps, m, resource, i);
    RunKeepsSetting(a, steps[..i], m, resource);
  }

  /** Once the requirer has named a database, every write of the leader is accepted. */
  lemma DatabaseOpens(a: Flat, r: nat, put: Fields, data: Fields)
    requires a.leader && r in a.data && "database" in put
    ensures UpdateOutcome(RequirerWrites(a, r, PROVIDER_SCHEME.resource, put), r, data) == Done
  {
  }

  /** Before that, only four fields may be written. */
  lemma EarlyExactly(a: Flat, r: nat, data: Fields)
    requires a.leader && r in a.data && r !in a.ready && a.early == PROVIDER_SCHEME.early
    ensures UpdateOutcome(a, r, data) == Done <==>
            data.Keys <= {"endpoints", "read-only-endpoints", "replset", "encryption-secret"}
  {
  }

  lemma StepStaysOnDatabag(a: Flat, step: Step, m: LabelMap, resource: string, r: nat, k: string)
    requires r in a.legacy && k in Requested(a, r) && k in Data(a, r) && !Touches(step, r, k)
    ensures r in Apply(a, step, m, resource).0.legacy
  {
    StepKeepsField(a, step, m, resource, r, k);
  }

  /** A relation that started on its databag stays there, over any run, while one requested field is left in it. */
  lemma {:induction false} StaysOnDatabag(a: Flat, steps: seq<Step>, m: LabelMap, resource: string, r: nat, k: string)
    requires r in a.legacy && k in Requested(a, r) && k in Data(a, r) && Untouched(steps, r, k)
    ensures r in Final(a, steps, m, resource).legacy
  {
    if steps != [] {
      var n := |steps| - 1;
      StaysOnDatabag(a, steps[..n], m, resource, r, k);
      RunKeepsField(a, steps[..n], m, resource, r, k);
      RunKeepsSetting(a, steps[..n], m, resource);
      StepStaysOnDatabag(Final(a, steps[..n], m, resource), steps[n], m, resource, r, k);
    }
  }

  lemma StepKeepsMode(a: Flat, step: Step, m: LabelMap, resource: string)
    requires a.enabled
    ensures Apply(a, step, m, resource).0.enabled && Apply(a, step, m, resource).0.legacy <= a.legacy
  {
  }

  /** Once secrets are enabled, no relation ever falls back to keeping secret fields in its databag. */
  lemma {:induction false} SecretModeIsKept(a: Flat, steps: seq<Step>, m: LabelMap, resource: string)
    requires a.enabled
    ensures Final(a, steps, m, resource).enabled && Final(a, steps, m, resource).legacy <= a.legacy
  {
    if steps != [] {
      var n := |steps| - 1;
      SecretModeIsKept(a, steps[..n], m, resource);
      StepKeepsMode(Final(a, steps[..n], m, resource), steps[n], m, resource);
    }
  }
}
