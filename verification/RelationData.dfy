/**
 `Data` and `ProviderData`: reading and writing a relation's fields without caring
 whether a field lives in the databag or in one of several secrets.
 */
module RelationData {
  import opened Text
  import opened SecretLabels
  import opened FlatRelation
  import opened FlatRuns
  import opened SecretStore
  import opened StorageSteps
  import opened StorageRefinement
  import opened SecretCaching

  /** The URI published for a group, on our side when the group is ours, else on the other side. */
  function SecretUri(n: Scheme, c: Controller, mine: set<string>, r: nat, g: Group): Option<string> {
    var bag := if g != Extra && exists f :: f in mine && GroupIn(n.labelMap, f) == g then Bag(c, r) else Far(c, r);
    if UriKey(n, g) in bag && bag[UriKey(n, g)] != "" then Some(bag[UriKey(n, g)]) else None
  }

  /** Whose databag is asked for a group's URI, in the library's naming: ours iff a field of the group was requested. */
  lemma UriExactly(c: Controller, mine: set<string>, r: nat, g: Group)
    ensures var ours := exists f :: f in mine && KeyOf(f) == "secret-" + GroupName(g);
            var bag := if g != Extra && ours then Bag(c, r) else Far(c, r);
            SecretUri(PROVIDER_SCHEME, c, mine, r, g) ==
            if "secret-" + GroupName(g) in bag && bag["secret-" + GroupName(g)] != ""
            then Some(bag["secret-" + GroupName(g)]) else None
  {
    ProviderKey(g);
    forall f ensures KeyOf(f) == "secret-" + GroupName(g) <==> GroupIn(SECRET_LABEL_MAP, f) == g {
      FieldGroup(f);
      SameKeySameGroup(GroupIn(SECRET_LABEL_MAP, f), g);
    }
  }

  lemma SameKeySameGroup(g: Group, h: Group)
    ensures FieldName(g) == FieldName(h) <==> g == h
  {
    assert FieldName(g)[7..] == GroupName(g) && FieldName(h)[7..] == GroupName(h);
    GroupNameInjective(g, h);
  }

  lemma NoUriWithoutSecret(n: Scheme, c: Controller, r: nat, g: Group)
    requires RelationWF(n, c, r) && Label(r, g) !in c.labels
    requires exists f :: f in Req(c, r) && GroupIn(n.labelMap, f) == g
    ensures SecretUri(n, c, Req(c, r), r, g) == None
  {
    assert GroupWF(n, c, r, g);
  }

  /** The fields of an update that go to secrets. */
  function SecretPart(c: Controller, r: nat, data: Fields): Fields {
    if c.enabled && !OnDatabag(c, r) then Restrict(data, Req(c, r)) else map[]
  }

  function GroupsOf(n: Scheme, keys: set<string>): set<Group> { set k | k in keys :: GroupIn(n.labelMap, k) }

  lemma DataSplit(c: Controller, r: nat, data: Fields)
    ensures var put := SecretPart(c, r, data); data == put + Restrict(data, data.Keys - put.Keys)
  {
  }

  /** Who may write, where, and what may be written before the requirer has named a database. */
  function Checked(n: Scheme, c: Controller, r: nat, data: Fields): Outcome {
    if !c.leader then NotLeader
    else if r !in c.bags then NoRelation
    else if n.resource !in Far(c, r) && !(data.Keys <= n.early) then Premature
    else Done
  }

  lemma CheckedMeans(n: Scheme, c: Controller, r: nat, data: Fields)
    ensures Checked(n, c, r, data) == UpdateOutcome(Abs(n, c), r, data)
    ensures Checked(n, c, r, data) != Done ==> FlatRelation.Update(Abs(n, c), r, data) == Abs(n, c)
  {
  }

  /** The charm writes and erases fields, not the secret references kept beside them. */
  predicate Allowed(n: Scheme, step: Step) {
    match step
    case Write(r, data) => forall k :: k in data ==> !IsUriKey(n, k)
    case Erase(r, fields) => forall f :: f in fields ==> !IsUriKey(n, f)
    case Requirer(r, put) => UriKey(n, Extra) !in put
    case _ => true
  }

  ghost predicate SameStorage(c: Controller, c': Controller) {
    && c'.bags == c.bags && c'.requested == c.requested
    && c'.labels == c.labels && c'.secrets == c.secrets && c'.minted == c.minted
  }

  /** A change that leaves databags and secrets alone keeps the storage well formed. */
  lemma UnseenKeepsWF(n: Scheme, c: Controller, c': Controller)
    requires WF(n, c) && SameStorage(c, c') && (c.enabled ==> c'.enabled)
    requires forall r :: UriKey(n, Extra) in Far(c', r) ==> UriKey(n, Extra) in Far(c, r)
    ensures WF(n, c')
  {
    forall r | r in c'.bags ensures RelationWF(n, c', r) {
      assert RelationWF(n, c, r);
      forall g ensures GroupWF(n, c', r, g) {
        assert GroupWF(n, c, r, g) && SameSecret(c, c', Label(r, g));
        GroupFrame(n, c, c', r, g);
      }
    }
  }

  /** Such a change is not seen in any relation's fields. */
  lemma UnseenChange(n: Scheme, c: Controller, c': Controller)
    requires SameStorage(c, c')
    ensures Abs(n, c').data == Abs(n, c).data && Legacy(c') == Legacy(c)
  {
    forall r ensures View(n, c', r) == View(n, c, r) {
      SameView(n, c, c', r);
    }
    forall r ensures OnDatabag(c', r) == OnDatabag(c, r) {}
  }

  lemma EnabledMeans(n: Scheme, c: Controller)
    ensures Abs(n, c.(enabled := true)) == FlatRelation.EnableSecrets(Abs(n, c))
  {
    UnseenChange(n, c, c.(enabled := true));
    assert Ready(n, c.(enabled := true)) == Ready(n, c);
  }

  lemma EnabledRefines(n: Scheme, c: Controller)
    requires WF(n, c)
    ensures WF(n, c.(enabled := true)) && Abs(n, c.(enabled := true)) == FlatRelation.EnableSecrets(Abs(n, c))
  {
    UnseenKeepsWF(n, c, c.(enabled := true));
    EnabledMeans(n, c);
  }

  lemma ReadyAfter(n: Scheme, c: Controller, r: nat, put: Fields)
    requires r in c.bags
    ensures Ready(n, c.(remote := c.remote[r := Far(c, r) + put])) ==
            if n.resource in put then Ready(n, c) + {r} else Ready(n, c)
  {
  }

  lemma RemoteMeans(n: Scheme, c: Controller, r: nat, put: Fields)
    requires r in c.bags
    ensures Abs(n, c.(remote := c.remote[r := Far(c, r) + put])) ==
            FlatRelation.RequirerWrites(Abs(n, c), r, n.resource, put)
  {
    var c' := c.(remote := c.remote[r := Far(c, r) + put]);
    UnseenChange(n, c, c');
    ReadyAfter(n, c, r, put);
  }

  lemma RemoteRefines(n: Scheme, c: Controller, r: nat, put: Fields)
    requires WF(n, c) && r in c.bags && UriKey(n, Extra) !in put
    ensures var c' := c.(remote := c.remote[r := Far(c, r) + put]);
            WF(n, c') && Abs(n, c') == FlatRelation.RequirerWrites(Abs(n, c), r, n.resource, put)
  {
    var c' := c.(remote := c.remote[r := Far(c, r) + put]);
    assert RelationWF(n, c, r);
    UnseenKeepsWF(n, c, c');
    RemoteMeans(n, c, r, put);
  }

  function SecretRead(n: Scheme, c: Controller, r: nat, wanted: set<string>, done: set<Group>): Fields {
    map k | k in wanted && GroupIn(n.labelMap, k) in done && k in Content(c, Label(r, GroupIn(n.labelMap, k)))
      :: Content(c, Label(r, GroupIn(n.labelMap, k)))[k]
  }

  /** The chosen fields, wherever they are stored. */
  function FieldsAt(n: Scheme, c: Controller, r: nat, wanted: set<string>): Fields {
    map k | k in wanted && FieldAt(n, c, r, k).Some? :: FieldAt(n, c, r, k).value
  }

  function Plain(n: Scheme, m: Fields): Fields { map k | k in m && !IsUriKey(n, k) :: m[k] }

  lemma MayRead(n: Scheme, c: Controller, r: nat, wanted: set<string>, g: Group)
    requires RelationWF(n, c, r) && wanted <= Req(c, r) && g in GroupsOf(n, wanted)
    ensures Label(r, g) in c.labels || SecretUri(n, c, Req(c, r), r, g).None?
  {
    if Label(r, g) !in c.labels {
      NoUriWithoutSecret(n, c, r, g);
    }
  }

  lemma ReadOneMore(n: Scheme, c: Controller, r: nat, wanted: set<string>, done: set<Group>, g: Group)
    requires RelationWF(n, c, r)
    ensures SecretRead(n, c, r, wanted, done + {g}) ==
            SecretRead(n, c, r, wanted, done) + Restrict(Content(c, Label(r, g)), wanted)
  {
    assert GroupWF(n, c, r, g);
  }

  /** In secret mode, secrets and databag together hold every wanted field, and none twice. */
  lemma ReadBoth(n: Scheme, c: Controller, r: nat, wanted: set<string>, normal: set<string>)
    requires RelationWF(n, c, r) && c.enabled && !OnDatabag(c, r)
    requires wanted - Req(c, r) <= normal <= wanted
    ensures var secret := wanted * Req(c, r);
            SecretRead(n, c, r, secret, GroupsOf(n, secret)) + Restrict(Bag(c, r), normal) == FieldsAt(n, c, r, wanted)
  {
    var secret := wanted * Req(c, r);
    forall k ensures k in wanted && k !in Req(c, r) ==> k !in Content(c, Label(r, GroupIn(n.labelMap, k))) {
      assert GroupWF(n, c, r, GroupIn(n.labelMap, k));
    }
    forall k | k in secret ensures GroupIn(n.labelMap, k) in GroupsOf(n, secret) {}
  }

  lemma ReadDatabag(n: Scheme, c: Controller, r: nat, wanted: set<string>)
    requires RelationWF(n, c, r) && (!c.enabled || Req(c, r) == {} || OnDatabag(c, r))
    ensures map[] + Restrict(Bag(c, r), wanted) == FieldsAt(n, c, r, wanted)
  {
    forall k ensures k !in Content(c, Label(r, GroupIn(n.labelMap, k))) {
      assert GroupWF(n, c, r, GroupIn(n.labelMap, k));
    }
  }

  function Secrecy(c: Controller, r: nat): set<string> { if c.enabled then Req(c, r) else {} }

  /** The fields an unrestricted fetch asks for. */
  function AllFields(c: Controller, r: nat): set<string> {
    (set k | k in Bag(c, r) && !IsSecretField(k)) + Secrecy(c, r)
  }

  /** Fetching named fields reads what the flat map says. */
  lemma FetchedSome(n: Scheme, c: Controller, r: nat, fields: seq<string>)
    requires r in c.bags && c.leader && fields != []
    ensures Plain(n, FieldsAt(n, c, r, AsSet(fields))) == FlatRelation.Fetch(Abs(n, c), r, fields)
  {
    var got, want := Plain(n, FieldsAt(n, c, r, AsSet(fields))), Restrict(View(n, c, r), AsSet(fields));
    forall k ensures k in got <==> k in want
             ensures k in got ==> got[k] == want[k] {
      ViewAt(n, c, r, k);
    }
    assert got == want;
    AbsParts(n, c, r);
  }

  /** A field of the view is asked for by an unrestricted fetch unless it looks like a secret reference. */
  lemma AskedFor(n: Scheme, c: Controller, r: nat, k: string)
    requires Sound(n) && RelationWF(n, c, r)
    ensures k in FieldsAt(n, c, r, AllFields(c, r)) <==> k in Bulk(View(n, c, r), Secrecy(c, r))
    ensures k in Bulk(View(n, c, r), Secrecy(c, r)) ==>
              View(n, c, r)[k] == FieldAt(n, c, r, k).value && !IsUriKey(n, k)
  {
    ViewAt(n, c, r, k);
    assert GroupWF(n, c, r, GroupIn(n.labelMap, k));
  }

  /** Fetching without naming fields reads what the flat map says, and no secret reference. */
  lemma FetchedAll(n: Scheme, c: Controller, r: nat)
    requires Sound(n) && RelationWF(n, c, r) && r in c.bags && c.leader
    ensures FieldsAt(n, c, r, AllFields(c, r)) == FlatRelation.Fetch(Abs(n, c), r, [])
    ensures Plain(n, FieldsAt(n, c, r, AllFields(c, r))) == FieldsAt(n, c, r, AllFields(c, r))
  {
    var got, want := FieldsAt(n, c, r, AllFields(c, r)), Bulk(View(n, c, r), Secrecy(c, r));
    forall k ensures k in got <==> k in want
             ensures k in got ==> got[k] == want[k] && !IsUriKey(n, k) {
      AskedFor(n, c, r, k);
    }
    assert got == want;
    AbsParts(n, c, r);
  }

  lemma FetchedFields(n: Scheme, c: Controller, r: nat, fields: seq<string>)
    requires Sound(n) && WF(n, c) && r in c.bags && c.leader
    ensures var found := FieldsAt(n, c, r, if fields == [] then AllFields(c, r) else AsSet(fields));
            && Plain(n, found) == FlatRelation.Fetch(Abs(n, c), r, fields)
            && (fields == [] ==> Plain(n, found) == found)
  {
    assert RelationWF(n, c, r);
    if fields == [] {
      FetchedAll(n, c, r);
    } else {
      FetchedSome(n, c, r, fields);
    }
  }

  /** In secret mode, one secret holds every field of the call. */
  ghost predicate WholeCall(n: Scheme, c: Controller, r: nat, fields: seq<string>) {
    c.enabled && !OnDatabag(c, r) && fields != [] && OneStoredGroup(Abs(n, c), r, fields, n.labelMap)
  }

  function FieldsOf(n: Scheme, fields: set<string>, g: Group): set<string> {
    set f | f in fields && GroupIn(n.labelMap, f) == g
  }

  /** The secrets after the groups of a delete call have been visited. */
  ghost function AfterGroups(n: Scheme, c: Controller, r: nat, fields: seq<string>): Controller {
    if WholeCall(n, c, r, fields) && Label(r, GroupIn(n.labelMap, fields[0])) in c.labels
    then PopGroup(n, c, r, GroupIn(n.labelMap, fields[0]), AsSet(fields)) else c
  }

  /** Pop the fields one by one; `None` when one of them is missing, as on its second occurrence. */
  method PopAll(content: Fields, fields: seq<string>) returns (left: Option<Fields>)
    ensures left.Some? <==> Poppable(content, fields)
    ensures left.Some? ==> left.value == content - AsSet(fields)
  {
    var rest := content;
    for i := 0 to |fields|
      invariant rest == content - AsSet(fields[..i])
      invariant Poppable(content, fields[..i])
    {
      if fields[i] !in rest {
        assert fields[i] in content ==> fields[i] in fields[..i];
        return None;
      }
      assert AsSet(fields[..i + 1]) == AsSet(fields[..i]) + {fields[i]};
      rest := rest - {fields[i]};
    }
    assert fields[..|fields|] == fields;
    left := Some(rest);
  }

  /** The groups a delete call meets: exactly one when one secret holds the whole call. */
  lemma GroupsMet(n: Scheme, c: Controller, r: nat, fields: seq<string>)
    requires r in c.bags && RelationWF(n, c, r)
    ensures WholeCall(n, c, r, fields) ==> GroupsOf(n, AsSet(fields) * Req(c, r)) == {GroupIn(n.labelMap, fields[0])}
    ensures WholeCall(n, c, r, fields) ==> Label(r, GroupIn(n.labelMap, fields[0])) in c.labels
    ensures !WholeCall(n, c, r, fields) ==> AfterGroups(n, c, r, fields) == c
    ensures WholeCall(n, c, r, fields) ==> AsSet(fields) <= Req(c, r)
  {
    AbsParts(n, c, r);
    if WholeCall(n, c, r, fields) {
      assert fields[0] in fields && fields[0] in AsSet(fields) * Req(c, r);
      OneStoredGroupMeans(n, c, r, GroupIn(n.labelMap, fields[0]), fields);
    }
  }

  /** A group met by a delete call is poppable exactly when it holds the whole call. */
  lemma MayDelete(n: Scheme, c: Controller, r: nat, fields: seq<string>, g: Group)
    requires r in c.bags && RelationWF(n, c, r) && c.enabled && !OnDatabag(c, r)
    requires g in GroupsOf(n, AsSet(fields) * Req(c, r))
    ensures GroupWF(n, c, r, g)
    ensures Label(r, g) in c.labels || SecretUri(n, c, Req(c, r), r, g).None?
    ensures WholeCall(n, c, r, fields) <==>
            Label(r, g) in c.labels && Poppable(Content(c, Label(r, g)), fields)
  {
    var f :| f in fields && f in Req(c, r) && GroupIn(n.labelMap, f) == g;
    assert GroupWF(n, c, r, g);
    if Label(r, g) !in c.labels {
      NoUriWithoutSecret(n, c, r, g);
    }
    OneStoredGroupMeans(n, c, r, g, fields);
  }

  lemma NothingRequested(n: Scheme, c: Controller, r: nat, fields: seq<string>)
    requires r in c.bags && (!c.enabled || Req(c, r) == {} || OnDatabag(c, r))
    ensures AfterGroups(n, c, r, fields) == c
  {
    AbsParts(n, c, r);
  }

  lemma NothingToDrop(c: Controller, r: nat, keys: set<string>)
    requires r in c.bags && !OnDatabag(c, r) && keys <= Req(c, r)
    ensures SetBag(c, r, Bag(c, r) - keys) == c
  {
    assert Bag(c, r) - keys == Bag(c, r);
    assert c.bags[r := c.bags[r]] == c.bags;
  }

  lemma DeletedWhole(n: Scheme, c0: Controller, r: nat, fields: seq<string>, normal: set<string>)
    requires Sound(n) && WF(n, c0) && r in c0.bags && c0.leader && WholeCall(n, c0, r, fields)
    requires normal <= AsSet(fields)
    ensures var c := AfterGroups(n, c0, r, fields);
            && WF(n, SetBag(c, r, Bag(c, r) - normal))
            && Abs(n, SetBag(c, r, Bag(c, r) - normal)) == FlatRelation.Delete(Abs(n, c0), r, fields, n.labelMap)
  {
    var g := GroupIn(n.labelMap, fields[0]);
    assert RelationWF(n, c0, r);
    GroupsMet(n, c0, r, fields);
    assert fields[0] in fields;
    OneStoredGroupMeans(n, c0, r, g, fields);
    PopRefines(n, c0, r, g, fields);
    NothingToDrop(PopGroup(n, c0, r, g, AsSet(fields)), r, normal);
  }

  /** The finished delete, in terms of the flat map; requested fields are not in the databag to be dropped. */
  lemma DeletedFields(n: Scheme, c0: Controller, r: nat, fields: seq<string>, normal: set<string>)
    requires Sound(n) && WF(n, c0) && r in c0.bags && c0.leader
    requires forall f :: f in fields ==> !IsUriKey(n, f)
    requires normal <= AsSet(fields)
    requires if c0.enabled && !OnDatabag(c0, r) then AsSet(fields) - Req(c0, r) <= normal else normal == AsSet(fields)
    ensures var c := AfterGroups(n, c0, r, fields);
            && WF(n, SetBag(c, r, Bag(c, r) - normal))
            && Abs(n, SetBag(c, r, Bag(c, r) - normal)) == FlatRelation.Delete(Abs(n, c0), r, fields, n.labelMap)
  {
    assert RelationWF(n, c0, r);
    if WholeCall(n, c0, r, fields) {
      DeletedWhole(n, c0, r, fields, normal);
    } else {
      GroupsMet(n, c0, r, fields);
      assert Bag(c0, r) - normal == Bag(c0, r) - AsSet(fields);
      DropRefines(n, c0, r, fields);
    }
  }

  /** An update of relation `r` under way: groups `done` written, storage well formed. */
  ghost predicate Writing(n: Scheme, c0: Controller, c: Controller, r: nat, put: Fields, done: set<Group>) {
    && WF(n, c) && r in c.bags && PutSoFar(n, c0, c, r, put, done)
    && (forall k :: k in put ==> k in Req(c0, r))
    && (put != map[] ==> c.enabled && !OnDatabag(c, r))
  }

  lemma StartWriting(n: Scheme, c: Controller, r: nat, put: Fields)
    requires WF(n, c) && r in c.bags
    requires forall k :: k in put ==> k in Req(c, r)
    requires put != map[] ==> c.enabled && !OnDatabag(c, r)
    ensures Writing(n, c, c, r, put, {})
  {
  }

  lemma PartIsThere(n: Scheme, put: Fields, g: Group)
    requires g in GroupsOf(n, put.Keys)
    ensures put != map[] && GroupPart(n, put, g) != map[]
  {
    var k :| k in put && GroupIn(n.labelMap, k) == g;
    assert k in GroupPart(n, put, g);
  }

  /** Before a group is written, it has no URI unless it has a secret. */
  lemma MayWrite(n: Scheme, c0: Controller, c: Controller, r: nat, put: Fields, done: set<Group>, g: Group)
    requires Writing(n, c0, c, r, put, done) && g in GroupsOf(n, put.Keys)
    ensures LabelsWF(c) && GroupWF(n, c, r, g) && GroupPart(n, put, g) != map[]
    ensures Label(r, g) in c.labels || SecretUri(n, c, Req(c0, r), r, g).None?
  {
    PartIsThere(n, put, g);
    var f :| f in put && GroupIn(n.labelMap, f) == g;
    assert f in Req(c, r) && RelationWF(n, c, r) && GroupWF(n, c, r, g);
    if Label(r, g) !in c.labels {
      NoUriWithoutSecret(n, c, r, g);
    }
  }

  lemma WroteGroup(n: Scheme, c0: Controller, c: Controller, r: nat, put: Fields, done: set<Group>, g: Group)
    requires Sound(n) && Writing(n, c0, c, r, put, done) && g in GroupsOf(n, put.Keys) && g !in done
    ensures Writing(n, c0, PutGroup(n, c, r, g, GroupPart(n, put, g)), r, put, done + {g})
  {
    var c' := PutGroup(n, c, r, g, GroupPart(n, put, g));
    PartIsThere(n, put, g);
    PutGroupKeepsWF(n, c, r, g, GroupPart(n, put, g));
    PutOneMore(n, c0, c, c', r, put, done, g);
    assert RelationWF(n, c, r);
    StillInSecrets(n, c, c', r, g);
  }

  /** The finished write, in terms of the flat map. */
  lemma WroteFields(n: Scheme, c0: Controller, c: Controller, r: nat, data: Fields, normal: set<string>)
    requires Sound(n) && WF(n, c0) && r in c0.bags
    requires forall k :: k in data ==> !IsUriKey(n, k)
    requires var put := SecretPart(c0, r, data);
             normal == data.Keys - put.Keys && Writing(n, c0, c, r, put, GroupsOf(n, put.Keys))
    requires UpdateOutcome(Abs(n, c0), r, data) == Done
    ensures WF(n, SetBag(c, r, Bag(c, r) + Restrict(data, normal)))
    ensures Abs(n, SetBag(c, r, Bag(c, r) + Restrict(data, normal))) == FlatRelation.Update(Abs(n, c0), r, data)
  {
    var put := SecretPart(c0, r, data);
    DataSplit(c0, r, data);
    assert RelationWF(n, c0, r);
    UpdateRefines(n, c0, c, r, put, Restrict(data, normal), GroupsOf(n, put.Keys));
  }

  class ProviderData {
    const model: Model
    const cache: SecretCache
    const names: Scheme
    var localSecretFields: set<string>

    constructor (model: Model, names: Scheme)
      requires Sound(names) && WF(names, model.ctl)
      ensures this.model == model && this.names == names && Valid()
      ensures fresh(cache) && cache.secrets == map[] && cache.repr == {}
    {
      this.model, this.names := model, names;
      this.cache := new SecretCache(model);
      localSecretFields := {};
    }

    ghost predicate Valid()
      reads this, model, cache, cache.repr
    {
      && cache.model == model && cache.Valid()
      && Sound(names) && WF(names, model.ctl)
    }

    ghost function Flat(): Flat
      reads this, model
    {
      Abs(names, model.ctl)
    }

    /** `_load_secrets_from_databag`: the fields this relation's requirer wants in secrets. */
    method LoadSecretFields(r: nat)
      requires Valid()
      modifies this`localSecretFields
      ensures Valid() && localSecretFields == Req(model.ctl, r)
    {
      localSecretFields := Req(model.ctl, r);
    }

    method GetRelationSecret(r: nat, g: Group) returns (s: CachedSecret?)
      requires cache.model == model && cache.Valid()
      requires Label(r, g) in model.ctl.labels
               || SecretUri(names, model.ctl, localSecretFields, r, g).None?
               || SecretUri(names, model.ctl, localSecretFields, r, g).value in model.ctl.secrets
      modifies cache, model
      ensures cache.Valid() && fresh(cache.repr - old(cache.repr))
      ensures s != null <==> Label(r, g) in model.ctl.labels
      ensures s != null ==> Label(r, g) in cache.secrets && cache.secrets[Label(r, g)] == s
      ensures (Label(r, g) in old(model.ctl).labels
               || SecretUri(names, old(model.ctl), localSecretFields, r, g).None?) ==> model.ctl == old(model.ctl)
    {
      var l := Label(r, g);
      s := cache.Get(l, None);
      if s == null {
        var uri := SecretUri(names, model.ctl, localSecretFields, r, g);
        if uri.Some? {
          s := cache.Get(l, uri);
        }
      }
    }

    /** A databag write; it touches no secret. */
    method SetDatabag(r: nat, bag: Fields)
      requires cache.model == model && cache.Valid()
      modifies model
      ensures cache.Valid() && model.ctl == SetBag(old(model.ctl), r, bag)
    {
      model.ctl := SetBag(model.ctl, r, bag);
      forall q | q in cache.secrets ensures cache.secrets[q].Coherent() {
        assert SameSecret(old(model.ctl), model.ctl, q);
      }
    }

    /** `_add_relation_secret`: refuses when a URI is already published. */
    method AddRelationSecret(r: nat, g: Group, part: Fields) returns (ok: bool)
      requires cache.model == model && cache.Valid() && LabelsWF(model.ctl)
      requires part != map[] && Label(r, g) !in model.ctl.labels
      modifies cache, model
      ensures cache.Valid() && fresh(cache.repr - old(cache.repr))
      ensures ok <==> SecretUri(names, old(model.ctl), localSecretFields, r, g).None?
      ensures model.ctl == if ok then PutGroup(names, old(model.ctl), r, g, part) else old(model.ctl)
    {
      if SecretUri(names, model.ctl, localSecretFields, r, g).Some? {
        return false;
      }
      var l := Label(r, g);
      var added := cache.Add(l, part);
      assert added.Some?;
      SetDatabag(r, Bag(model.ctl, r)[UriKey(names, g) := added.value.meta.value]);
      ok := true;
    }

    method UpdateRelationSecret(r: nat, g: Group, part: Fields) returns (ok: bool)
      requires cache.model == model && cache.Valid() && LabelsWF(model.ctl) && r in model.ctl.bags
      requires part != map[] && GroupWF(names, model.ctl, r, g) && Label(r, g) in model.ctl.labels
      modifies cache, model, cache.repr
      ensures cache.Valid() && fresh(cache.repr - old(cache.repr))
      ensures ok && model.ctl == PutGroup(names, old(model.ctl), r, g, part)
    {
      var l := Label(r, g);
      var s := GetRelationSecret(r, g);
      var content := s.GetContent();
      assert content + part != map[] by { var k :| k in part; assert k in content + part; }
      cache.SetContent(l, content + part);
      ok := true;
    }

    method AddOrUpdateRelationSecrets(r: nat, g: Group, part: Fields) returns (ok: bool)
      requires cache.model == model && cache.Valid() && LabelsWF(model.ctl) && r in model.ctl.bags
      requires part != map[] && GroupWF(names, model.ctl, r, g)
      requires Label(r, g) in model.ctl.labels || SecretUri(names, model.ctl, localSecretFields, r, g).None?
      modifies cache, model, cache.repr
      ensures cache.Valid() && fresh(cache.repr - old(cache.repr))
      ensures ok && model.ctl == PutGroup(names, old(model.ctl), r, g, part)
    {
      var s := GetRelationSecret(r, g);
      if s != null {
        ok := UpdateRelationSecret(r, g, part);
      } else {
        ok := AddRelationSecret(r, g, part);
      }
    }

    /** One turn of the loop over secret groups. */
    method WriteGroup(r: nat, g: Group, put: Fields, ghost c0: Controller, ghost done: set<Group>) returns (ok: bool)
      requires cache.model == model && cache.Valid() && Sound(names)
      requires Writing(names, c0, model.ctl, r, put, done) && localSecretFields == Req(c0, r)
      requires g in GroupsOf(names, put.Keys) && g !in done
      modifies cache, model, cache.repr
      ensures cache.Valid() && fresh(cache.repr - old(cache.repr))
      ensures ok && Writing(names, c0, model.ctl, r, put, done + {g})
    {
      MayWrite(names, c0, model.ctl, r, put, done, g);
      WroteGroup(names, c0, model.ctl, r, put, done, g);
      ok := AddOrUpdateRelationSecrets(r, g, GroupPart(names, put, g));
    }

    /** The loop over secret groups; a group that fails would leave its fields to the databag. */
    method WriteGroups(r: nat, put: Fields) returns (failed: set<string>)
      requires cache.model == model && cache.Valid() && Sound(names)
      requires Writing(names, model.ctl, model.ctl, r, put, {}) && localSecretFields == Req(model.ctl, r)
      modifies cache, model, cache.repr
      ensures cache.Valid() && fresh(cache.repr - old(cache.repr))
      ensures failed == {} && Writing(names, old(model.ctl), model.ctl, r, put, GroupsOf(names, put.Keys))
    {
      ghost var c0, done := model.ctl, {};
      var pending := GroupsOf(names, put.Keys);
      failed := {};
      while pending != {}
        invariant pending <= GroupsOf(names, put.Keys) && done == GroupsOf(names, put.Keys) - pending
        invariant cache.Valid() && fresh(cache.repr - old(cache.repr))
        invariant failed == {} && Writing(names, c0, model.ctl, r, put, done)
        decreases pending
      {
        var g :| g in pending;
        var ok := WriteGroup(r, g, put, c0, done);
        failed := if ok then failed else failed + GroupPart(names, put, g).Keys;
        pending, done := pending - {g}, done + {g};
      }
      assert done == GroupsOf(names, put.Keys);
    }

    /** `_process_secret_fields` for an update: returns the fields left for the databag. */
    method WriteSecretFields(r: nat, data: Fields) returns (normal: set<string>)
      requires Valid() && r in model.ctl.bags && localSecretFields == Req(model.ctl, r)
      modifies cache, model, cache.repr
      ensures cache.Valid() && fresh(cache.repr - old(cache.repr))
      ensures var put := SecretPart(old(model.ctl), r, data);
              && normal == data.Keys - put.Keys
              && Writing(names, old(model.ctl), model.ctl, r, put, GroupsOf(names, put.Keys))
    {
      var required := if model.ctl.enabled then localSecretFields else {};
      var fallback := !(required !! Bag(model.ctl, r).Keys);
      normal := data.Keys;
      ghost var put := SecretPart(model.ctl, r, data);
      StartWriting(names, model.ctl, r, put);
      if required != {} && !fallback {
        normal := normal - required;
        var secretFields := data.Keys - normal;
        var secretData := Restrict(data, secretFields);
        assert secretData == put;
        var failed := WriteGroups(r, secretData);
        normal := normal + failed;
      } else {
        assert put == map[] && GroupsOf(names, put.Keys) == {};
      }
    }

    /** The secret half of an update; what remains is to put the other fields in the databag. */
    method WriteSecretHalf(r: nat, data: Fields) returns (normal: set<string>)
      requires Valid()
      requires Checked(names, model.ctl, r, data) == Done && forall k :: k in data ==> !IsUriKey(names, k)
      modifies this`localSecretFields, model, cache, cache.repr
      ensures cache.Valid() && fresh(cache.repr - old(cache.repr))
      ensures var c := SetBag(model.ctl, r, Bag(model.ctl, r) + Restrict(data, normal));
              WF(names, c) && Abs(names, c) == FlatRelation.Update(old(Flat()), r, data)
    {
      LoadSecretFields(r);
      normal := WriteSecretFields(r, data);
      CheckedMeans(names, old(model.ctl), r, data);
      WroteFields(names, old(model.ctl), model.ctl, r, data, normal);
    }

    /** `Data._update_relation_data`, once the call is known to be in order. */
    method UpdateRelationData(r: nat, data: Fields)
      requires Valid()
      requires Checked(names, model.ctl, r, data) == Done && forall k :: k in data ==> !IsUriKey(names, k)
      modifies this`localSecretFields, model, cache, cache.repr
      ensures Valid() && fresh(cache.repr - old(cache.repr))
      ensures Flat() == FlatRelation.Update(old(Flat()), r, data)
    {
      var normal := WriteSecretHalf(r, data);
      SetDatabag(r, Bag(model.ctl, r) + Restrict(data, normal));
    }

    /** The guarded call, told by the stored state alone. */
    method TryUpdate(r: nat, data: Fields) returns (o: Outcome)
      requires Valid()
      requires forall k :: k in data ==> !IsUriKey(names, k)
      modifies this`localSecretFields, model, cache, cache.repr
      ensures Valid() && fresh(cache.repr - old(cache.repr))
      ensures o == Checked(names, old(model.ctl), r, data)
      ensures o != Done ==> model.ctl == old(model.ctl)
      ensures o == Done ==> Flat() == FlatRelation.Update(old(Flat()), r, data)
    {
      o := Checked(names, model.ctl, r, data);
      if o != Done {
        return;
      }
      UpdateRelationData(r, data);
    }

    /** `update_relation_data`. */
    method Update(r: nat, data: Fields) returns (o: Outcome)
      requires Valid()
      requires forall k :: k in data ==> !IsUriKey(names, k)
      modifies this`localSecretFields, model, cache, cache.repr
      ensures Valid() && fresh(cache.repr - old(cache.repr))
      ensures o == UpdateOutcome(old(Flat()), r, data)
      ensures Flat() == FlatRelation.Update(old(Flat()), r, data)
    {
      o := TryUpdate(r, data);
      CheckedMeans(names, old(model.ctl), r, data);
    }

    /** Store what is left of a group's secret, or withdraw the secret when nothing is. */
    method ShrinkSecret(r: nat, g: Group, s: CachedSecret, keys: set<string>)
      requires cache.model == model && cache.Valid() && LabelsWF(model.ctl) && r in model.ctl.bags
      requires GroupWF(names, model.ctl, r, g) && Label(r, g) in model.ctl.labels
      requires Label(r, g) in cache.secrets && cache.secrets[Label(r, g)] == s
      modifies cache, model, cache.repr
      ensures cache.Valid() && fresh(cache.repr - old(cache.repr))
      ensures model.ctl == PopGroup(names, old(model.ctl), r, g, keys)
    {
      var l := Label(r, g);
      var content := s.GetContent();
      var left := content - keys;
      if left == map[] {
        SetDatabag(r, Bag(model.ctl, r) - {UriKey(names, g)});
        cache.Remove(l);
      } else {
        cache.SetContent(l, left);
      }
    }

    /** `_delete_relation_secret`: every field of the call must be popped, or the secret stays as it is. */
    method DeleteRelationSecret(r: nat, g: Group, fields: seq<string>) returns (ok: bool)
      requires cache.model == model && cache.Valid() && LabelsWF(model.ctl) && r in model.ctl.bags
      requires GroupWF(names, model.ctl, r, g)
      requires Label(r, g) in model.ctl.labels || SecretUri(names, model.ctl, localSecretFields, r, g).None?
      modifies cache, model, cache.repr
      ensures cache.Valid() && fresh(cache.repr - old(cache.repr))
      ensures ok <==> Label(r, g) in old(model.ctl).labels
                      && Poppable(Content(old(model.ctl), Label(r, g)), fields)
      ensures model.ctl == if ok then PopGroup(names, old(model.ctl), r, g, AsSet(fields)) else old(model.ctl)
    {
      var s := GetRelationSecret(r, g);
      if s == null {
        return false;
      }
      var content := s.GetContent();
      var left := PopAll(content, fields);
      if left.None? {
        return false;
      }
      ShrinkSecret(r, g, s, AsSet(fields));
      ok := true;
    }

    method DeleteGroup(r: nat, g: Group, fields: seq<string>) returns (ok: bool)
      requires cache.model == model && cache.Valid() && LabelsWF(model.ctl) && r in model.ctl.bags
      requires localSecretFields == Req(model.ctl, r) && RelationWF(names, model.ctl, r)
      requires model.ctl.enabled && !OnDatabag(model.ctl, r)
      requires g in GroupsOf(names, AsSet(fields) * Req(model.ctl, r))
      modifies cache, model, cache.repr
      ensures cache.Valid() && fresh(cache.repr - old(cache.repr))
      ensures ok <==> WholeCall(names, old(model.ctl), r, fields)
      ensures model.ctl == AfterGroups(names, old(model.ctl), r, fields)
    {
      MayDelete(names, model.ctl, r, fields, g);
      GroupsMet(names, model.ctl, r, fields);
      ok := DeleteRelationSecret(r, g, fields);
    }

    /** The loop over secret groups of a delete; the fields of a refused group are left to the databag. */
    method DeleteGroups(r: nat, fields: seq<string>, secretFields: set<string>) returns (failed: set<string>)
      requires cache.model == model && cache.Valid() && LabelsWF(model.ctl) && r in model.ctl.bags
      requires localSecretFields == Req(model.ctl, r) && RelationWF(names, model.ctl, r)
      requires model.ctl.enabled && !OnDatabag(model.ctl, r)
      requires secretFields == AsSet(fields) * Req(model.ctl, r)
      modifies cache, model, cache.repr
      ensures cache.Valid() && fresh(cache.repr - old(cache.repr))
      ensures model.ctl == AfterGroups(names, old(model.ctl), r, fields)
      ensures failed <= secretFields
    {
      ghost var c0 := model.ctl;
      ghost var after := AfterGroups(names, c0, r, fields);
      var pending := GroupsOf(names, secretFields);
      failed := {};
      GroupsMet(names, c0, r, fields);
      while pending != {}
        invariant pending <= GroupsOf(names, secretFields)
        invariant cache.Valid() && fresh(cache.repr - old(cache.repr))
        invariant model.ctl == if pending == {} then after else c0
        invariant failed <= secretFields
        decreases pending
      {
        var g :| g in pending;
        var ok := DeleteGroup(r, g, fields);
        failed := if ok then failed else failed + FieldsOf(names, secretFields, g);
        pending := pending - {g};
      }
    }

    /** `_process_secret_fields` for a delete: returns the fields left for the databag. */
    method DeleteSecretFields(r: nat, fields: seq<string>) returns (normal: set<string>)
      requires Valid() && r in model.ctl.bags && localSecretFields == Req(model.ctl, r)
      modifies cache, model, cache.repr
      ensures cache.Valid() && fresh(cache.repr - old(cache.repr))
      ensures model.ctl == AfterGroups(names, old(model.ctl), r, fields)
      ensures normal <= AsSet(fields)
      ensures if old(model.ctl).enabled && !OnDatabag(old(model.ctl), r)
              then AsSet(fields) - Req(old(model.ctl), r) <= normal else normal == AsSet(fields)
    {
      var required := if model.ctl.enabled then localSecretFields else {};
      var fallback := !(required !! Bag(model.ctl, r).Keys);
      normal := AsSet(fields);
      assert RelationWF(names, model.ctl, r);
      GroupsMet(names, model.ctl, r, fields);
      if required != {} && !fallback {
        normal := normal - required;
        var secretFields := AsSet(fields) - normal;
        assert secretFields == AsSet(fields) * required;
        var failed := DeleteGroups(r, fields, secretFields);
        normal := normal + failed;
      } else {
        NothingRequested(names, model.ctl, r, fields);
      }
    }

    /** `delete_relation_data`. */
    method Delete(r: nat, fields: seq<string>) returns (o: Outcome)
      requires Valid()
      requires forall f :: f in fields ==> !IsUriKey(names, f)
      modifies this`localSecretFields, model, cache, cache.repr
      ensures Valid() && fresh(cache.repr - old(cache.repr))
      ensures o == Access(old(Flat()), r)
      ensures Flat() == FlatRelation.Delete(old(Flat()), r, fields, names.labelMap)
    {
      if !model.ctl.leader {
        return NotLeader;
      }
      if r !in model.ctl.bags {
        return NoRelation;
      }
      LoadSecretFields(r);
      var normal := DeleteSecretFields(r, fields);
      DeletedFields(names, old(model.ctl), r, fields, normal);
      SetDatabag(r, Bag(model.ctl, r) - normal);
      o := Done;
    }

    /** `_get_group_secret_contents`. */
    method GroupContents(r: nat, g: Group, wanted: set<string>) returns (part: Fields)
      requires cache.model == model && cache.Valid() && LabelsWF(model.ctl)
      requires Label(r, g) in model.ctl.labels || SecretUri(names, model.ctl, localSecretFields, r, g).None?
      modifies cache, model, cache.repr
      ensures cache.Valid() && fresh(cache.repr - old(cache.repr))
      ensures model.ctl == old(model.ctl) && part == Restrict(Content(model.ctl, Label(r, g)), wanted)
    {
      part := map[];
      var s := GetRelationSecret(r, g);
      if s != null {
        var content := s.GetContent();
        part := Restrict(content, wanted);
      }
    }

    /** The loop over secret groups of a fetch; an empty group leaves its fields to the databag. */
    method ReadGroups(r: nat, wanted: set<string>) returns (result: Fields, failed: set<string>)
      requires cache.model == model && cache.Valid() && LabelsWF(model.ctl)
      requires localSecretFields == Req(model.ctl, r) && RelationWF(names, model.ctl, r) && wanted <= Req(model.ctl, r)
      modifies cache, model, cache.repr
      ensures cache.Valid() && fresh(cache.repr - old(cache.repr))
      ensures model.ctl == old(model.ctl) && failed <= wanted
      ensures result == SecretRead(names, model.ctl, r, wanted, GroupsOf(names, wanted))
    {
      ghost var done: set<Group> := {};
      var pending := GroupsOf(names, wanted);
      result, failed := map[], {};
      while pending != {}
        invariant pending <= GroupsOf(names, wanted) && done == GroupsOf(names, wanted) - pending
        invariant cache.Valid() && fresh(cache.repr - old(cache.repr))
        invariant model.ctl == old(model.ctl) && failed <= wanted
        invariant result == SecretRead(names, model.ctl, r, wanted, done)
        decreases pending
      {
        var g :| g in pending;
        MayRead(names, model.ctl, r, wanted, g);
        var part := GroupContents(r, g, wanted);
        ReadOneMore(names, model.ctl, r, wanted, done, g);
        if part != map[] {
          result := result + part;
        } else {
          failed := failed + FieldsOf(names, wanted, g);
          assert result == result + part;
        }
        pending, done := pending - {g}, done + {g};
      }
      assert done == GroupsOf(names, wanted);
    }

    /** `_fetch_relation_data_with_secrets` for a chosen set of fields. */
    method ReadFields(r: nat, wanted: set<string>) returns (result: Fields)
      requires Valid() && r in model.ctl.bags && localSecretFields == Req(model.ctl, r)
      modifies cache, model, cache.repr
      ensures Valid() && fresh(cache.repr - old(cache.repr))
      ensures model.ctl == old(model.ctl) && result == FieldsAt(names, model.ctl, r, wanted)
    {
      var required := if model.ctl.enabled then localSecretFields else {};
      var fallback := !(required !! Bag(model.ctl, r).Keys);
      var normal := wanted;
      result := map[];
      assert RelationWF(names, model.ctl, r);
      if required != {} && !fallback {
        normal := normal - required;
        var secretFields := wanted - normal;
        var found, failed := ReadGroups(r, secretFields);
        ReadBoth(names, model.ctl, r, wanted, normal + failed);
        assert secretFields == wanted * Req(model.ctl, r);
        result, normal := found, normal + failed;
      } else {
        ReadDatabag(names, model.ctl, r, wanted);
      }
      result := result + Restrict(Bag(model.ctl, r), normal);
    }

    /** `fetch_my_relation_data` for one relation; no field named means all of them. */
    method Fetch(r: nat, fields: seq<string>) returns (o: Outcome, result: Fields)
      requires Valid()
      modifies this`localSecretFields, model, cache, cache.repr
      ensures Valid() && fresh(cache.repr - old(cache.repr))
      ensures model.ctl == old(model.ctl)
      ensures o == Access(Flat(), r) && Plain(names, result) == FlatRelation.Fetch(Flat(), r, fields)
      ensures fields == [] ==> Plain(names, result) == result
    {
      result := map[];
      if !model.ctl.leader {
        return NotLeader, result;
      }
      if r !in model.ctl.bags {
        return NoRelation, result;
      }
      LoadSecretFields(r);
      FetchedFields(names, model.ctl, r, fields);
      result := ReadFields(r, if fields == [] then AllFields(model.ctl, r) else AsSet(fields));
      o := Done;
    }

    /** A hook begins: the charm builds its `Data` object anew, with an empty cache. */
    method BeginHook()
      requires Valid()
      modifies cache
      ensures Valid() && cache.secrets == map[] && cache.repr == old(cache.repr)
    {
      cache.secrets := map[];
    }

    /** The controller is upgraded to a version with secrets; what the charm sees does not change. */
    method UpgradeController()
      requires Valid()
      modifies model
      ensures Valid() && Flat() == FlatRelation.EnableSecrets(old(Flat()))
    {
      EnabledRefines(names, model.ctl);
      model.ctl := model.ctl.(enabled := true);
      forall q | q in cache.secrets ensures cache.secrets[q].Coherent() {
        assert SameSecret(old(model.ctl), model.ctl, q);
      }
    }

    /** The requirer writes its own databag. */
    method RequirerWrites(r: nat, put: Fields)
      requires Valid() && UriKey(names, Extra) !in put
      modifies model
      ensures Valid() && Flat() == FlatRelation.RequirerWrites(old(Flat()), r, names.resource, put)
    {
      if r in model.ctl.bags {
        RemoteRefines(names, model.ctl, r, put);
        model.ctl := model.ctl.(remote := model.ctl.remote[r := Far(model.ctl, r) + put]);
        forall q | q in cache.secrets ensures cache.secrets[q].Coherent() {
          assert SameSecret(old(model.ctl), model.ctl, q);
        }
      }
    }

    /** One step of a run, with the answer it gives the charm (secret references left out). */
    method Perform(step: Step) returns (reply: Reply)
      requires Valid() && Allowed(names, step)
      modifies this`localSecretFields, model, cache, cache.repr
      ensures Valid() && fresh(cache.repr - old(cache.repr))
      ensures (Flat(), reply) == Apply(old(Flat()), step, names.labelMap, names.resource)
    {
      reply := Reply(Done, map[]);
      match step
      case Write(r, data) =>
        var o := Update(r, data);
        reply := Reply(o, map[]);
      case Erase(r, fields) =>
        var o := Delete(r, fields);
        reply := Reply(o, map[]);
      case Read(r, fields) =>
        var o, found := Fetch(r, fields);
        reply := Reply(o, Plain(names, found));
      case Hook => BeginHook();
      case Upgrade => UpgradeController();
      case Requirer(r, put) => RequirerWrites(r, put);
    }

    /** Every run over databags, secrets and cache answers exactly as the flat map does. */
    method Run(steps: seq<Step>) returns (replies: seq<Reply>)
      requires Valid() && forall i :: 0 <= i < |steps| ==> Allowed(names, steps[i])
      modifies this`localSecretFields, model, cache, cache.repr
      ensures Valid()
      ensures Flat() == Final(old(Flat()), steps, names.labelMap, names.resource)
      ensures replies == Replies(old(Flat()), steps, names.labelMap, names.resource)
    {
      replies := [];
      for i := 0 to |steps|
        invariant Valid() && fresh(cache.repr - old(cache.repr))
        invariant Flat() == Final(old(Flat()), steps[..i], names.labelMap, names.resource)
        invariant replies == Replies(old(Flat()), steps[..i], names.labelMap, names.resource)
      {
        assert steps[..i + 1][..i] == steps[..i] && steps[..i + 1][i] == steps[i];
        var reply := Perform(steps[i]);
        replies := replies + [reply];
      }
      assert steps[..|steps|] == steps;
    }
  }

  /** The requirer of relation `r` has named a database, at the start or in one of the first `i` steps. */
  ghost predicate DatabaseNamed(start: Controller, steps: seq<Step>, i: nat, r: nat)
    requires i <= |steps|
  {
    || (r in start.remote && "database" in start.remote[r])
    || exists j :: 0 <= j < i && steps[j].Requirer? && steps[j].r == r && "database" in steps[j].put
  }

  /** How step `i` of a run must be answered, told by the start and the steps before it. */
  ghost predicate RightOutcome(start: Controller, steps: seq<Step>, i: nat, o: Outcome)
    requires i < |steps|
  {
    match steps[i]
    case Write(r, put) =>
      o == (if !start.leader then NotLeader
            else if r !in start.bags then NoRelation
            else if DatabaseNamed(start, steps, i, r)
                    || put.Keys <= {"endpoints", "read-only-endpoints", "replset", "encryption-secret"} then Done
            else Premature)
    case Erase(r, _) => o == (if !start.leader then NotLeader else if r !in start.bags then NoRelation else Done)
    case Read(r, _) => o == (if !start.leader then NotLeader else if r !in start.bags then NoRelation else Done)
    case _ => o == Done
  }

  lemma NamedMeans(start: Controller, steps: seq<Step>, i: nat, r: nat)
    requires i <= |steps| && r in start.bags
    ensures DatabaseNamed(start, steps, i, r) <==>
            r in Abs(PROVIDER_SCHEME, start).ready || Named(steps[..i], r, PROVIDER_SCHEME.resource)
  {
    if DatabaseNamed(start, steps, i, r) && !(r in start.remote && "database" in start.remote[r]) {
      var j :| 0 <= j < i && steps[j].Requirer? && steps[j].r == r && "database" in steps[j].put;
      assert steps[..i][j] == steps[j];
    }
    if Named(steps[..i], r, PROVIDER_SCHEME.resource) {
      var j :| 0 <= j < i && steps[..i][j].Requirer? && steps[..i][j].r == r && "database" in steps[..i][j].put;
      assert steps[..i][j] == steps[j];
    }
  }

  lemma OutcomeIsRight(start: Controller, steps: seq<Step>, i: nat)
    requires i < |steps|
    ensures var n := PROVIDER_SCHEME; var replies := Replies(Abs(n, start), steps, n.labelMap, n.resource);
            |replies| == |steps| && RightOutcome(start, steps, i, replies[i].outcome)
  {
    var n := PROVIDER_SCHEME;
    var a := Abs(n, start);
    match steps[i]
    case Write(r, _) =>
      WriteAnswers(a, steps, n.labelMap, n.resource, i);
      if r in start.bags { NamedMeans(start, steps, i, r); }
    case Erase(_, _) => OtherAnswers(a, steps, n.labelMap, n.resource, i);
    case Read(_, _) => OtherAnswers(a, steps, n.labelMap, n.resource, i);
    case _ => RepliesAt(a, steps, n.labelMap, n.resource, i);
  }

  /**
   A charm that starts on any well-formed model, with the library's own naming, and makes any run of calls gets
   the replies of a flat map per relation, each call being accepted exactly when its caller leads, the relation
   exists and, for a write, a database was named or only early fields are written; the model left means the
   flat map's final state.
   */
  method RunFrom(start: Controller, steps: seq<Step>) returns (replies: seq<Reply>, end: Controller)
    requires WF(PROVIDER_SCHEME, start) && forall i :: 0 <= i < |steps| ==> Allowed(PROVIDER_SCHEME, steps[i])
    ensures var n, a := PROVIDER_SCHEME, Abs(PROVIDER_SCHEME, start);
            && replies == Replies(a, steps, n.labelMap, n.resource)
            && WF(n, end) && Abs(n, end) == Final(a, steps, n.labelMap, n.resource)
    ensures |replies| == |steps|
    ensures forall i :: 0 <= i < |steps| ==> RightOutcome(start, steps, i, replies[i].outcome)
  {
    ProviderSchemeSound();
    replies, end := RunWith(PROVIDER_SCHEME, start, steps);
    AllOutcomesRight(start, steps, replies);
  }

  lemma AllOutcomesRight(start: Controller, steps: seq<Step>, replies: seq<Reply>)
    requires var n := PROVIDER_SCHEME; replies == Replies(Abs(n, start), steps, n.labelMap, n.resource)
    ensures |replies| == |steps|
    ensures forall i :: 0 <= i < |steps| ==> RightOutcome(start, steps, i, replies[i].outcome)
  {
    var n := PROVIDER_SCHEME;
    RepliesLength(Abs(n, start), steps, n.labelMap, n.resource);
    forall i | 0 <= i < |steps| ensures RightOutcome(start, steps, i, replies[i].outcome) {
      OutcomeIsRight(start, steps, i);
    }
  }

  method RunWith(names: Scheme, start: Controller, steps: seq<Step>) returns (replies: seq<Reply>, end: Controller)
    requires Sound(names) && WF(names, start) && forall i :: 0 <= i < |steps| ==> Allowed(names, steps[i])
    ensures replies == Replies(Abs(names, start), steps, names.labelMap, names.resource)
    ensures WF(names, end) && Abs(names, end) == Final(Abs(names, start), steps, names.labelMap, names.resource)
  {
    var model := new Model(start);
    var data := new ProviderData(model, names);
    replies := data.Run(steps);
    end := model.ctl;
  }
}
