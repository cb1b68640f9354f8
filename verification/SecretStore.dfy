/**
 The Juju side of a relation: the provider's databags, the requirer's databags and
 the secrets with their labels, as values; the well-formedness every library
 operation keeps; and the flat map such a state stands for.
 */
module SecretStore {
  import opened Text
  import opened SecretLabels
  import opened FlatRelation

  datatype Controller = Controller(
    bags: map<nat, Fields>,
    remote: map<nat, Fields>,
    requested: map<nat, set<string>>,
    labels: map<Label, string>,
    secrets: map<string, Fields>,
    minted: nat,
    revisions: nat,
    enabled: bool,
    leader: bool)

  function Bag(c: Controller, r: nat): Fields { Of(c.bags, r, map[]) }

  function Req(c: Controller, r: nat): set<string> { Of(c.requested, r, {}) }

  function Far(c: Controller, r: nat): Fields { Of(c.remote, r, map[]) }

  /** Juju gives every new secret an identifier never used before. */
  function NewUri(c: Controller): (u: string)
    ensures |u| == c.minted + 1
  {
    seq(c.minted + 1, _ => 'u')
  }

  function AddSecret(c: Controller, l: Label, content: Fields): Controller {
    c.(minted := c.minted + 1, revisions := c.revisions + 1,
       secrets := c.secrets[NewUri(c) := content], labels := c.labels[l := NewUri(c)])
  }

  function SetSecret(c: Controller, u: string, content: Fields): Controller {
    c.(secrets := c.secrets[u := content], revisions := c.revisions + 1)
  }

  function RemoveSecret(c: Controller, u: string): Controller {
    c.(secrets := c.secrets - {u}, labels := map l | l in c.labels && c.labels[l] != u :: c.labels[l])
  }

  function SetBag(c: Controller, r: nat, bag: Fields): Controller {
    c.(bags := c.bags[r := bag])
  }

  function UriOf(c: Controller, l: Label): Option<string> {
    if l in c.labels then Some(c.labels[l]) else None
  }

  function Content(c: Controller, l: Label): Fields {
    if l in c.labels && c.labels[l] in c.secrets then c.secrets[c.labels[l]] else map[]
  }

  ghost predicate LabelsWF(c: Controller) {
    && (forall u :: u in c.secrets ==> 1 <= |u| <= c.minted)
    && (forall l :: l in c.labels ==> c.labels[l] in c.secrets && c.secrets[c.labels[l]] != map[])
    && (forall l, l' :: l in c.labels && l' in c.labels && c.labels[l] == c.labels[l'] ==> l == l')
  }

  predicate OnDatabag(c: Controller, r: nat) { !(Bag(c, r).Keys !! Req(c, r)) }

  /** Storage of one secret group: its URI key is published iff its secret exists. */
  ghost predicate GroupWF(n: Scheme, c: Controller, r: nat, g: Group) {
    var l, key := Label(r, g), UriKey(n, g);
    && (key in Bag(c, r) <==> l in c.labels)
    && (l in c.labels ==> Bag(c, r)[key] == c.labels[l])
    && (forall k :: k in Content(c, l) ==> k in Req(c, r) && GroupIn(n.labelMap, k) == g)
    && (OnDatabag(c, r) || !c.enabled ==> l !in c.labels)
  }

  /** Storage of one relation; a relation never uses both storage modes at once. */
  ghost predicate RelationWF(n: Scheme, c: Controller, r: nat) {
    && (forall g :: GroupWF(n, c, r, g))
    && (forall k :: k in Req(c, r) ==> !IsUriKey(n, k))
    && UriKey(n, Extra) !in Far(c, r)
  }

  ghost predicate WF(n: Scheme, c: Controller) {
    && LabelsWF(c)
    && forall r :: r in c.bags ==> RelationWF(n, c, r)
  }

  /** The value of one field, wherever it is stored. */
  function FieldAt(n: Scheme, c: Controller, r: nat, k: string): Option<string> {
    if k in Bag(c, r) then Some(Bag(c, r)[k])
    else
      var content := Content(c, Label(r, GroupIn(n.labelMap, k)));
      if k in content then Some(content[k]) else None
  }

  function SecretKeys(n: Scheme, c: Controller, r: nat): set<string> {
    Content(c, Label(r, User)).Keys + Content(c, Label(r, Tls)).Keys +
    Content(c, Label(r, Mtls)).Keys + Content(c, Label(r, Entity)).Keys +
    Content(c, Label(r, Extra)).Keys
  }

  /** The flat map a relation stands for: every stored field except the secret references. */
  function View(n: Scheme, c: Controller, r: nat): Fields {
    map k | k in Bag(c, r).Keys + SecretKeys(n, c, r) && !IsUriKey(n, k) && FieldAt(n, c, r, k).Some?
      :: FieldAt(n, c, r, k).value
  }

  lemma ViewAt(n: Scheme, c: Controller, r: nat, k: string)
    ensures k in View(n, c, r) <==> !IsUriKey(n, k) && FieldAt(n, c, r, k).Some?
    ensures k in View(n, c, r) ==> View(n, c, r)[k] == FieldAt(n, c, r, k).value
  {
    match GroupIn(n.labelMap, k) { case User => case Tls => case Mtls => case Entity => case Extra => }
  }

  /** A map that agrees with the storage on every field is the view. */
  lemma ViewIs(n: Scheme, c: Controller, r: nat, m: Fields)
    requires forall k :: k in m <==> !IsUriKey(n, k) && FieldAt(n, c, r, k).Some?
    requires forall k :: k in m ==> m[k] == FieldAt(n, c, r, k).value
    ensures View(n, c, r) == m
  {
    forall k ensures k in View(n, c, r) <==> k in m
             ensures k in m ==> View(n, c, r)[k] == m[k] {
      ViewAt(n, c, r, k);
    }
  }

  /**
   What every well-formed state keeps, in the library's naming: a group's key is in the databag iff its secret
   exists, and then holds its URI; secrets are never empty and never shared; requested fields are not in
   the databag while any secret of the relation exists.
   */
  lemma StorageInvariant(c: Controller, r: nat, g: Group)
    requires WF(PROVIDER_SCHEME, c) && r in c.bags
    ensures "secret-" + GroupName(g) in c.bags[r] <==> Label(r, g) in c.labels
    ensures Label(r, g) in c.labels ==>
              var uri := c.labels[Label(r, g)];
              && c.bags[r]["secret-" + GroupName(g)] == uri && uri in c.secrets && c.secrets[uri] != map[]
              && (forall l :: l in c.labels && c.labels[l] == uri ==> l == Label(r, g))
              && c.enabled && (forall k :: k in Req(c, r) ==> k !in c.bags[r])
  {
    ProviderKey(g);
    GroupInvariant(PROVIDER_SCHEME, c, r, g, "secret-" + GroupName(g));
  }

  lemma GroupInvariant(n: Scheme, c: Controller, r: nat, g: Group, key: string)
    requires WF(n, c) && r in c.bags && key == UriKey(n, g)
    ensures key in c.bags[r] <==> Label(r, g) in c.labels
    ensures Label(r, g) in c.labels ==>
              var uri := c.labels[Label(r, g)];
              && c.bags[r][key] == uri && uri in c.secrets && c.secrets[uri] != map[]
              && (forall l :: l in c.labels && c.labels[l] == uri ==> l == Label(r, g))
              && c.enabled && (forall k :: k in Req(c, r) ==> k !in c.bags[r])
  {
    assert RelationWF(n, c, r) && GroupWF(n, c, r, g);
  }

  /**
   Where the other side finds a requested field in secret mode: in the secret whose URI is published
   under the field's key, and not in the databag.
   */
  lemma FoundInSecret(c: Controller, r: nat, field: string)
    requires WF(PROVIDER_SCHEME, c) && r in c.bags && field in Req(c, r) && field in View(PROVIDER_SCHEME, c, r)
    requires c.enabled && !OnDatabag(c, r)
    ensures field !in c.bags[r] && KeyOf(field) in c.bags[r]
    ensures var uri := c.bags[r][KeyOf(field)];
            && uri in c.secrets && field in c.secrets[uri]
            && c.secrets[uri][field] == View(PROVIDER_SCHEME, c, r)[field]
  {
    var n := PROVIDER_SCHEME;
    var g := GroupIn(n.labelMap, field);
    KeyOfField(field);
    ViewAt(n, c, r, field);
    assert RelationWF(n, c, r) && GroupWF(n, c, r, g);
  }

  /** Where it is otherwise: in the databag. */
  lemma FoundInDatabag(c: Controller, r: nat, field: string)
    requires WF(PROVIDER_SCHEME, c) && r in c.bags && field in View(PROVIDER_SCHEME, c, r)
    requires field in Req(c, r) ==> !c.enabled || OnDatabag(c, r)
    ensures field in c.bags[r] && c.bags[r][field] == View(PROVIDER_SCHEME, c, r)[field]
  {
    var n := PROVIDER_SCHEME;
    ViewAt(n, c, r, field);
    assert RelationWF(n, c, r) && GroupWF(n, c, r, GroupIn(n.labelMap, field));
  }

  function Legacy(c: Controller): set<nat> { set r | r in c.bags && OnDatabag(c, r) }

  /** The relations whose requirer has named a database. */
  function Ready(n: Scheme, c: Controller): set<nat> { set r | r in c.bags && n.resource in Far(c, r) }

  /** The flat map the whole state stands for. */
  function Abs(n: Scheme, c: Controller): Flat {
    Flat((map r | r in c.bags :: View(n, c, r)), c.requested, Legacy(c), Ready(n, c), n.early, c.enabled, c.leader)
  }
}
