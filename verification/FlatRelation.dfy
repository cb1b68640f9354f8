/**
 What a relation looks like to the charm: one flat map of fields per relation.
 This is the reference that the databag-and-secrets storage is proved against.
 */
module FlatRelation {
  import opened SecretLabels

  type Fields = map<string, string>

  /**
   `legacy` holds the relations whose requested secret fields live in the databag
   (they started before secrets were enabled); `ready` those whose requirer has
   asked for a database; `early` the fields that may be written before that.
   */
  datatype Flat = Flat(
    data: map<nat, Fields>,
    requested: map<nat, set<string>>,
    legacy: set<nat>,
    ready: set<nat>,
    early: set<string>,
    enabled: bool,
    leader: bool)

  datatype Outcome = Done | NotLeader | NoRelation | Premature

  function Of<T>(m: map<nat, T>, r: nat, default: T): T {
    if r in m then m[r] else default
  }

  function Data(a: Flat, r: nat): Fields { Of(a.data, r, map[]) }

  function Requested(a: Flat, r: nat): set<string> { Of(a.requested, r, {}) }

  function Access(a: Flat, r: nat): Outcome {
    if !a.leader then NotLeader else if r !in a.data then NoRelation else Done
  }

  function UpdateOutcome(a: Flat, r: nat, put: Fields): Outcome {
    if Access(a, r) != Done then Access(a, r)
    else if r !in a.ready && !(put.Keys <= a.early) then Premature
    else Done
  }

  /** Fields written before secrets are enabled settle the relation on its databag. */
  function Update(a: Flat, r: nat, put: Fields): Flat {
    if UpdateOutcome(a, r, put) != Done then a
    else a.(data := a.data[r := Data(a, r) + put],
            legacy := if !a.enabled && !(put.Keys !! Requested(a, r)) then a.legacy + {r} else a.legacy)
  }

  predicate Distinct(fields: seq<string>) {
    forall i, j :: 0 <= i < j < |fields| ==> fields[i] != fields[j]
  }

  function AsSet(fields: seq<string>): set<string> { set f | f in fields }

  /** All fields of the call are distinct, stored, requested as secrets, and share one group. */
  predicate OneStoredGroup(a: Flat, r: nat, fields: seq<string>, labelMap: map<string, Group>) {
    && Distinct(fields)
    && (forall f :: f in fields ==> f in Requested(a, r) && f in Data(a, r))
    && (forall f, f' :: f in fields && f' in fields ==> GroupIn(labelMap, f) == GroupIn(labelMap, f'))
  }

  /** Requested fields are kept in secrets rather than in the databag. */
  predicate InSecrets(a: Flat, r: nat) { a.enabled && r !in a.legacy }

  /** The fields a delete call really removes. */
  function Removed(a: Flat, r: nat, fields: seq<string>, labelMap: map<string, Group>): set<string> {
    if !InSecrets(a, r) || OneStoredGroup(a, r, fields, labelMap) then AsSet(fields)
    else AsSet(fields) - Requested(a, r)
  }

  function Delete(a: Flat, r: nat, fields: seq<string>, labelMap: map<string, Group>): Flat {
    if Access(a, r) != Done then a
    else
      var left := Data(a, r) - Removed(a, r, fields, labelMap);
      a.(data := a.data[r := left],
         legacy := if left.Keys !! Requested(a, r) then a.legacy - {r} else a.legacy)
  }

  function Restrict(m: Fields, keys: set<string>): Fields {
    map k | k in m && k in keys :: m[k]
  }

  /** The fields that are not secret references, or were requested as secrets. */
  function Bulk(m: Fields, secret: set<string>): Fields {
    map k | k in m && (!IsSecretField(k) || k in secret) :: m[k]
  }

  /** Fetching no field in particular means every field that is not a secret reference. */
  function Fetch(a: Flat, r: nat, fields: seq<string>): Fields {
    if Access(a, r) != Done then map[]
    else if fields != [] then Restrict(Data(a, r), AsSet(fields))
    else Bulk(Data(a, r), if a.enabled then Requested(a, r) else {})
  }

  function EnableSecrets(a: Flat): Flat { a.(enabled := true) }

  function RequirerWrites(a: Flat, r: nat, resource: string, put: Fields): Flat {
    if r in a.data && resource in put then a.(ready := a.ready + {r}) else a
  }

  datatype Step =
    | Write(r: nat, put: Fields)
    | Erase(r: nat, fields: seq<string>)
    | Read(r: nat, fields: seq<string>)
    | Hook
    | Upgrade
    | Requirer(r: nat, put: Fields)

  datatype Reply = Reply(outcome: Outcome, found: Fields)

  function Apply(a: Flat, step: Step, labelMap: map<string, Group>, resource: string): (Flat, Reply) {
    match step
    case Write(r, put) => (Update(a, r, put), Reply(UpdateOutcome(a, r, put), map[]))
    case Erase(r, fields) => (Delete(a, r, fields, labelMap), Reply(Access(a, r), map[]))
    case Read(r, fields) => (a, Reply(Access(a, r), Fetch(a, r, fields)))
    case Hook => (a, Reply(Done, map[]))
    case Upgrade => (EnableSecrets(a), Reply(Done, map[]))
    case Requirer(r, put) => (RequirerWrites(a, r, resource, put), Reply(Done, map[]))
  }

  function Final(a: Flat, steps: seq<Step>, labelMap: map<string, Group>, resource: string): Flat {
    if steps == [] then a
    else
      var before := Final(a, steps[..|steps| - 1], labelMap, resource);
      Apply(before, steps[|steps| - 1], labelMap, resource).0
  }

  function Replies(a: Flat, steps: seq<Step>, labelMap: map<string, Group>, resource: string): seq<Reply> {
    if steps == [] then []
    else
      var before := Final(a, steps[..|steps| - 1], labelMap, resource);
      Replies(a, steps[..|steps| - 1], labelMap, resource) + [Apply(before, steps[|steps| - 1], labelMap, resource).1]
  }
}
