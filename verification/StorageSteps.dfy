/**
 The steps by which an update or delete changes the stored state, one secret group
 or one databag write at a time, and what each keeps and changes.
 */
module StorageSteps {
  import opened SecretLabels
  import opened FlatRelation
  import opened SecretStore

  /** The fields of `put` that belong to group `g`. */
  function GroupPart(n: Scheme, put: Fields, g: Group): Fields {
    map k | k in put && GroupIn(n.labelMap, k) == g :: put[k]
  }

  /** Create the group's secret and publish its URI, or extend it when the content really changes. */
  function PutGroup(n: Scheme, c: Controller, r: nat, g: Group, part: Fields): Controller {
    var l := Label(r, g);
    if l !in c.labels then SetBag(AddSecret(c, l, part), r, Bag(c, r)[UriKey(n, g) := NewUri(c)])
    else if Content(c, l) + part == Content(c, l) then c
    else SetSecret(c, c.labels[l], Content(c, l) + part)
  }

  /** Shrink the group's secret, or withdraw it with its URI key when nothing is left. */
  function PopGroup(n: Scheme, c: Controller, r: nat, g: Group, keys: set<string>): Controller
    requires Label(r, g) in c.labels
  {
    var l := Label(r, g);
    var left := Content(c, l) - keys;
    if left == map[] then RemoveSecret(SetBag(c, r, Bag(c, r) - {UriKey(n, g)}), c.labels[l])
    else if left == Content(c, l) then c
    else SetSecret(c, c.labels[l], left)
  }

  ghost predicate SameSecret(c: Controller, c': Controller, l: Label) {
    UriOf(c', l) == UriOf(c, l) && Content(c', l) == Content(c, l)
  }

  ghost predicate SameExcept(m: Fields, m': Fields, key: string) {
    forall k :: k != key ==> (k in m' <==> k in m) && (k in m ==> m'[k] == m[k])
  }

  ghost predicate SameSetting(c: Controller, c': Controller) {
    && c'.remote == c.remote && c'.requested == c.requested
    && c'.enabled == c.enabled && c'.leader == c.leader
    && c'.bags.Keys == c.bags.Keys
  }

  ghost predicate OtherBagsSame(c: Controller, c': Controller, r: nat) {
    forall q :: q != r ==> Bag(c', q) == Bag(c, q)
  }

  /** The key holds the label's URI exactly while the secret has content. */
  ghost predicate Published(c: Controller, r: nat, l: Label, key: string) {
    && (l in c.labels <==> Content(c, l) != map[])
    && (l in c.labels <==> key in Bag(c, r))
    && (l in c.labels ==> Bag(c, r)[key] == c.labels[l])
  }

  /** Everything but the secret labelled `l` and the key `key` of relation `r` is as before. */
  ghost predicate OnlySecretChanged(c: Controller, c': Controller, r: nat, l: Label, key: string, content: Fields) {
    && SameSetting(c, c')
    && OtherBagsSame(c, c', r)
    && SameExcept(Bag(c, r), Bag(c', r), key)
    && (forall l' :: l' != l ==> SameSecret(c, c', l'))
    && Content(c', l) == content
    && Published(c', r, l, key)
  }

  lemma AddSecretLabels(c: Controller, l: Label, part: Fields)
    requires LabelsWF(c) && l !in c.labels && part != map[]
    ensures var c' := AddSecret(c, l, part);
            LabelsWF(c') && Content(c', l) == part && forall l' :: l' != l ==> SameSecret(c, c', l')
  {
    var c' := AddSecret(c, l, part);
    assert NewUri(c) !in c.secrets;
    forall l' | l' != l ensures SameSecret(c, c', l') {
      assert l' in c.labels ==> c.labels[l'] != NewUri(c);
    }
  }

  lemma AddSecretChanges(c: Controller, r: nat, l: Label, key: string, part: Fields)
    requires LabelsWF(c) && r in c.bags && l !in c.labels && part != map[]
    ensures var c' := SetBag(AddSecret(c, l, part), r, Bag(c, r)[key := NewUri(c)]);
            LabelsWF(c') && OnlySecretChanged(c, c', r, l, key, part)
  {
    AddSecretLabels(c, l, part);
    var added := AddSecret(c, l, part);
    var c' := SetBag(added, r, Bag(c, r)[key := NewUri(c)]);
    forall l' | l' != l ensures SameSecret(c, c', l') {
      assert SameSecret(c, added, l');
    }
  }

  lemma SetSecretChanges(c: Controller, r: nat, l: Label, key: string, content: Fields)
    requires LabelsWF(c) && r in c.bags && l in c.labels && content != map[]
    requires key in Bag(c, r) && Bag(c, r)[key] == c.labels[l]
    ensures var c' := SetSecret(c, c.labels[l], content);
            LabelsWF(c') && OnlySecretChanged(c, c', r, l, key, content)
  {
  }

  lemma NothingChanges(c: Controller, r: nat, l: Label, key: string)
    requires LabelsWF(c) && r in c.bags && l in c.labels
    requires key in Bag(c, r) && Bag(c, r)[key] == c.labels[l]
    ensures OnlySecretChanged(c, c, r, l, key, Content(c, l))
  {
  }

  lemma RemoveSecretLabels(c: Controller, l: Label)
    requires LabelsWF(c) && l in c.labels
    ensures var c' := RemoveSecret(c, c.labels[l]);
            LabelsWF(c') && l !in c'.labels && forall l' :: l' != l ==> SameSecret(c, c', l')
  {
    var c' := RemoveSecret(c, c.labels[l]);
    forall l' | l' != l ensures SameSecret(c, c', l') {
      assert l' in c.labels ==> c.labels[l'] != c.labels[l];
    }
  }

  lemma RemoveSecretChanges(c: Controller, r: nat, l: Label, key: string)
    requires LabelsWF(c) && r in c.bags && l in c.labels
    ensures var c' := RemoveSecret(SetBag(c, r, Bag(c, r) - {key}), c.labels[l]);
            LabelsWF(c') && OnlySecretChanged(c, c', r, l, key, map[])
  {
    RemoveSecretLabels(c, l);
    var removed := RemoveSecret(c, c.labels[l]);
    var c' := RemoveSecret(SetBag(c, r, Bag(c, r) - {key}), c.labels[l]);
    assert c' == SetBag(removed, r, Bag(c, r) - {key});
    forall l' | l' != l ensures SameSecret(c, c', l') {
      assert SameSecret(c, removed, l');
    }
  }

  lemma PutGroupChanges(n: Scheme, c: Controller, r: nat, g: Group, part: Fields)
    requires LabelsWF(c) && r in c.bags && GroupWF(n, c, r, g) && part != map[]
    ensures LabelsWF(PutGroup(n, c, r, g, part))
    ensures OnlySecretChanged(c, PutGroup(n, c, r, g, part), r, Label(r, g), UriKey(n, g),
                              Content(c, Label(r, g)) + part)
  {
    var l := Label(r, g);
    if l !in c.labels {
      AddSecretChanges(c, r, l, UriKey(n, g), part);
      assert Content(c, l) + part == part;
    } else if Content(c, l) + part != Content(c, l) {
      SetSecretChanges(c, r, l, UriKey(n, g), Content(c, l) + part);
    } else {
      NothingChanges(c, r, l, UriKey(n, g));
    }
  }

  lemma PopGroupChanges(n: Scheme, c: Controller, r: nat, g: Group, keys: set<string>)
    requires LabelsWF(c) && r in c.bags && GroupWF(n, c, r, g) && Label(r, g) in c.labels
    ensures LabelsWF(PopGroup(n, c, r, g, keys))
    ensures OnlySecretChanged(c, PopGroup(n, c, r, g, keys), r, Label(r, g), UriKey(n, g),
                              Content(c, Label(r, g)) - keys)
  {
    var l := Label(r, g);
    var left := Content(c, l) - keys;
    if left == map[] {
      RemoveSecretChanges(c, r, l, UriKey(n, g));
    } else if left != Content(c, l) {
      SetSecretChanges(c, r, l, UriKey(n, g), left);
    } else {
      NothingChanges(c, r, l, UriKey(n, g));
    }
  }

  /** A group whose URI key and secret are as before stays well formed. */
  lemma GroupFrame(n: Scheme, c: Controller, c': Controller, r: nat, g: Group)
    requires GroupWF(n, c, r, g) && SameSecret(c, c', Label(r, g))
    requires UriKey(n, g) in Bag(c', r) <==> UriKey(n, g) in Bag(c, r)
    requires UriKey(n, g) in Bag(c, r) ==> Bag(c', r)[UriKey(n, g)] == Bag(c, r)[UriKey(n, g)]
    requires Req(c', r) == Req(c, r)
    requires OnDatabag(c', r) || !c'.enabled ==> OnDatabag(c, r) || !c.enabled
    ensures GroupWF(n, c', r, g)
  {
  }

  /** A relation whose databag and secrets are as before stays well formed. */
  lemma RelationFrame(n: Scheme, c: Controller, c': Controller, r: nat)
    requires RelationWF(n, c, r) && SameSetting(c, c') && Bag(c', r) == Bag(c, r)
    requires forall g :: SameSecret(c, c', Label(r, g))
    ensures RelationWF(n, c', r)
  {
    forall g ensures GroupWF(n, c', r, g) {
      assert GroupWF(n, c, r, g) && SameSecret(c, c', Label(r, g));
      GroupFrame(n, c, c', r, g);
    }
  }

  ghost predicate GroupContent(n: Scheme, c: Controller, r: nat, g: Group, content: Fields) {
    forall k :: k in content ==> k in Req(c, r) && GroupIn(n.labelMap, k) == g
  }

  lemma ChangedRelationWF(n: Scheme, c: Controller, c': Controller, r: nat, g: Group, content: Fields)
    requires Sound(n) && RelationWF(n, c, r)
    requires OnlySecretChanged(c, c', r, Label(r, g), UriKey(n, g), content)
    requires c.enabled && !OnDatabag(c, r) && GroupContent(n, c, r, g, content)
    ensures RelationWF(n, c', r)
  {
    assert IsUriKey(n, UriKey(n, g));
    assert !OnDatabag(c', r);
    forall h ensures GroupWF(n, c', r, h) {
      if h != g {
        assert Label(r, h) != Label(r, g) && UriKey(n, h) != UriKey(n, g);
        assert GroupWF(n, c, r, h) && SameSecret(c, c', Label(r, h));
        GroupFrame(n, c, c', r, h);
      }
    }
  }

  /** Rewriting one group's secret with requested fields of that group keeps the storage well formed. */
  lemma SecretChangeKeepsWF(n: Scheme, c: Controller, c': Controller, r: nat, g: Group, content: Fields)
    requires Sound(n) && WF(n, c) && r in c.bags && LabelsWF(c')
    requires OnlySecretChanged(c, c', r, Label(r, g), UriKey(n, g), content)
    requires c.enabled && !OnDatabag(c, r) && GroupContent(n, c, r, g, content)
    ensures WF(n, c')
  {
    assert RelationWF(n, c, r);
    ChangedRelationWF(n, c, c', r, g, content);
    forall q | q in c'.bags && q != r ensures RelationWF(n, c', q) {
      assert RelationWF(n, c, q);
      forall h ensures SameSecret(c, c', Label(q, h)) {
        assert Label(q, h) != Label(r, g);
      }
      RelationFrame(n, c, c', q);
    }
  }

  lemma PutGroupKeepsWF(n: Scheme, c: Controller, r: nat, g: Group, part: Fields)
    requires Sound(n) && WF(n, c) && r in c.bags && c.enabled && !OnDatabag(c, r)
    requires part != map[] && GroupContent(n, c, r, g, part)
    ensures WF(n, PutGroup(n, c, r, g, part))
    ensures OnlySecretChanged(c, PutGroup(n, c, r, g, part), r, Label(r, g), UriKey(n, g),
                              Content(c, Label(r, g)) + part)
  {
    assert RelationWF(n, c, r) && GroupWF(n, c, r, g);
    PutGroupChanges(n, c, r, g, part);
    SecretChangeKeepsWF(n, c, PutGroup(n, c, r, g, part), r, g, Content(c, Label(r, g)) + part);
  }

  lemma PopGroupKeepsWF(n: Scheme, c: Controller, r: nat, g: Group, keys: set<string>)
    requires Sound(n) && WF(n, c) && r in c.bags && Label(r, g) in c.labels
    ensures WF(n, PopGroup(n, c, r, g, keys))
    ensures OnlySecretChanged(c, PopGroup(n, c, r, g, keys), r, Label(r, g), UriKey(n, g),
                              Content(c, Label(r, g)) - keys)
  {
    assert RelationWF(n, c, r) && GroupWF(n, c, r, g);
    PopGroupChanges(n, c, r, g, keys);
    SecretChangeKeepsWF(n, c, PopGroup(n, c, r, g, keys), r, g, Content(c, Label(r, g)) - keys);
  }
}
