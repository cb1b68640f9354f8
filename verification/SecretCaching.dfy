/**
 `CachedSecret` and `SecretCache`: handles on Juju secrets that remember the
 secret's content, kept in a cache keyed by label.
 */
module SecretCaching {
  import opened Text
  import opened SecretLabels
  import opened FlatRelation
  import opened SecretStore
  import opened StorageSteps

  /** The Juju model shared by every object of the charm. */
  class Model {
    var ctl: Controller

    constructor (ctl: Controller)
      ensures this.ctl == ctl
    {
      this.ctl := ctl;
    }
  }

  class CachedSecret {
    const model: Model
    const name: Label
    var uri: Option<string>
    var meta: Option<string>
    var content: Fields

    constructor (model: Model, name: Label, uri: Option<string>)
      ensures this.model == model && this.name == name && this.uri == uri
      ensures meta == None && content == map[]
    {
      this.model, this.name, this.uri := model, name, uri;
      meta, content := None, map[];
    }

    /** The handle is the label's secret, and the remembered content is empty or the stored one. */
    ghost predicate Coherent()
      reads this, model
    {
      && meta.Some? && UriOf(model.ctl, name) == meta
      && (content == map[] || content == Content(model.ctl, name))
    }

    /**
     Find the secret by label, else by URI, in which case it takes the label. A URI
     that names no secret would raise; callers show it does not happen.
     */
    method Meta() returns (h: Option<string>)
      requires meta.None? && uri.Some? && name !in model.ctl.labels ==> uri.value in model.ctl.secrets
      modifies this`meta, model
      ensures h == meta
      ensures old(meta).Some? ==> meta == old(meta)
      ensures old(meta).None? ==> meta == UriOf(model.ctl, name)
      ensures model.ctl == if old(meta).None? && name !in old(model.ctl).labels && uri.Some?
                           then old(model.ctl).(labels := old(model.ctl).labels[name := uri.value]) else old(model.ctl)
    {
      if meta.None? {
        meta := UriOf(model.ctl, name);
        if meta.None? && uri.Some? {
          model.ctl := model.ctl.(labels := model.ctl.labels[name := uri.value]);
          meta := uri;
        }
      }
      h := meta;
    }

    method AddSecret(secret: Fields)
      requires uri.None? && content == map[] && name !in model.ctl.labels
      modifies this, model
      ensures model.ctl == SecretStore.AddSecret(old(model.ctl), name, secret)
      ensures var uri := NewUri(old(model.ctl));
              && model.ctl.secrets == old(model.ctl).secrets[uri := secret]
              && model.ctl.labels == old(model.ctl).labels[name := uri]
              && model.ctl.bags == old(model.ctl).bags && model.ctl.revisions == old(model.ctl).revisions + 1
      ensures Coherent() && meta == uri == Some(NewUri(old(model.ctl)))
    {
      uri := Some(NewUri(model.ctl));
      meta := uri;
      model.ctl := SecretStore.AddSecret(model.ctl, name, secret);
    }

    method GetContent() returns (c: Fields)
      requires Coherent()
      modifies this`meta, this`content, model
      ensures Coherent() && model.ctl == old(model.ctl)
      ensures c == Content(model.ctl, name)
    {
      if content == map[] {
        var h := Meta();
        if h.Some? && h.value in model.ctl.secrets {
          content := model.ctl.secrets[h.value];
        }
      }
      c := content;
    }

    /** Writes a new revision only when the content differs from the stored one. */
    method SetContent(c: Fields)
      requires Coherent()
      modifies this, model
      ensures c == Content(old(model.ctl), name) ==> model.ctl == old(model.ctl) && Coherent()
      ensures c != Content(old(model.ctl), name) && c != map[] ==>
                model.ctl == SetSecret(old(model.ctl), old(model.ctl).labels[name], c) && Coherent()
      ensures c != Content(old(model.ctl), name) && c == map[] ==>
                model.ctl == RemoveSecret(old(model.ctl), old(model.ctl).labels[name])
      ensures c != Content(old(model.ctl), name) && c != map[] ==>
                && model.ctl.secrets == old(model.ctl).secrets[old(model.ctl).labels[name] := c]
                && model.ctl.labels == old(model.ctl).labels && model.ctl.bags == old(model.ctl).bags
                && model.ctl.revisions == old(model.ctl).revisions + 1
    {
      var h := Meta();
      var current := GetContent();
      if c != current {
        if c != map[] {
          model.ctl := SetSecret(model.ctl, meta.value, c);
          content := c;
        } else {
          model.ctl := RemoveSecret(model.ctl, meta.value);
        }
      }
    }

    method Remove()
      requires Coherent()
      modifies this, model
      ensures model.ctl == RemoveSecret(old(model.ctl), old(model.ctl).labels[name])
      ensures model.ctl.secrets == old(model.ctl).secrets - {old(model.ctl).labels[name]}
      ensures forall l :: l in model.ctl.labels <==>
                            l in old(model.ctl).labels && old(model.ctl).labels[l] != old(model.ctl).labels[name]
      ensures forall l :: l in model.ctl.labels ==> model.ctl.labels[l] == old(model.ctl).labels[l]
      ensures content == map[] && meta == None && uri == None
    {
      var h := Meta();
      model.ctl := RemoveSecret(model.ctl, h.value);
      content, meta, uri := map[], None, None;
    }
  }

  class SecretCache {
    const model: Model
    var secrets: map<Label, CachedSecret>
    ghost var repr: set<CachedSecret>

    constructor (model: Model)
      ensures this.model == model && secrets == map[] && repr == {} && Valid()
    {
      this.model := model;
      secrets, repr := map[], {};
    }

    /** Every cached secret sits under its own label and agrees with the store. */
    ghost predicate Valid()
      reads this, model, repr
    {
      forall l :: l in secrets ==>
        secrets[l] in repr && secrets[l].model == model && secrets[l].name == l && secrets[l].Coherent()
    }

    method Get(l: Label, uri: Option<string>) returns (s: CachedSecret?)
      requires Valid()
      requires uri.Some? && l !in model.ctl.labels ==> uri.value in model.ctl.secrets
      modifies this, model
      ensures Valid()
      ensures s != null <==> l in model.ctl.labels
      ensures s != null ==> l in secrets && secrets[l] == s
      ensures fresh(repr - old(repr))
      ensures model.ctl == if l !in old(model.ctl).labels && uri.Some?
                           then old(model.ctl).(labels := old(model.ctl).labels[l := uri.value]) else old(model.ctl)
    {
      if l !in secrets {
        var secret := new CachedSecret(model, l, uri);
        var h := secret.Meta();
        if h.Some? {
          secrets, repr := secrets[l := secret], repr + {secret};
        }
      }
      s := if l in secrets then secrets[l] else null;
    }

    /** Refuses a label it already holds (`None`); the label must be new to Juju as well. */
    method Add(l: Label, content: Fields) returns (added: Option<CachedSecret>)
      requires Valid() && LabelsWF(model.ctl) && content != map[]
      requires l !in secrets ==> l !in model.ctl.labels
      modifies this, model
      ensures Valid()
      ensures added.None? <==> l in old(secrets)
      ensures added.None? ==> secrets == old(secrets) && model.ctl == old(model.ctl)
      ensures added.Some? ==> model.ctl == SecretStore.AddSecret(old(model.ctl), l, content)
      ensures added.Some? ==>
              added.value.meta == Some(NewUri(old(model.ctl))) && l in secrets && secrets[l] == added.value
      ensures fresh(repr - old(repr))
    {
      if l in secrets {
        return None;
      }
      var secret := new CachedSecret(model, l, None);
      AddSecretLabels(model.ctl, l, content);
      secret.AddSecret(content);
      forall q | q in secrets ensures secrets[q].Coherent() {
        assert SameSecret(old(model.ctl), model.ctl, q);
      }
      secrets, repr := secrets[l := secret], repr + {secret};
      added := Some(secret);
    }

    /** Non-empty content for a cached secret; the other cached secrets stay in step with the store. */
    method SetContent(l: Label, content: Fields)
      requires Valid() && LabelsWF(model.ctl) && l in secrets && content != map[]
      modifies model, secrets[l]
      ensures Valid()
      ensures model.ctl == if content == Content(old(model.ctl), l) then old(model.ctl)
                           else SetSecret(old(model.ctl), old(model.ctl).labels[l], content)
    {
      secrets[l].SetContent(content);
      forall q | q in secrets && q != l ensures secrets[q].Coherent() {
        assert UriOf(old(model.ctl), q) == UriOf(model.ctl, q);
        assert q in old(model.ctl).labels ==> old(model.ctl).labels[q] != old(model.ctl).labels[l];
        assert SameSecret(old(model.ctl), model.ctl, q);
      }
    }

    method Remove(l: Label)
      requires Valid() && LabelsWF(model.ctl)
      modifies this, model, repr
      ensures Valid()
      ensures model.ctl == if l in old(model.ctl).labels then RemoveSecret(old(model.ctl), old(model.ctl).labels[l])
                           else old(model.ctl)
      ensures l !in secrets && fresh(repr - old(repr))
    {
      var s := Get(l, None);
      if s != null {
        RemoveSecretLabels(model.ctl, l);
        s.Remove();
        secrets := secrets - {l};
        forall q | q in secrets ensures secrets[q].Coherent() {
          assert SameSecret(old(model.ctl), model.ctl, q);
        }
      }
    }
  }
}
