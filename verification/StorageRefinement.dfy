/**
 Whole update and delete calls, related to the flat map: what the loop over
 secret groups has done part-way, and what the finished call means.
 */
module StorageRefinement {
  import opened Text
  import opened SecretLabels
  import opened FlatRelation
  import opened SecretStore
  import opened StorageSteps

  ghost predicate SamePlain(n: Scheme, m: Fields, m': Fields) {
    forall k :: !IsUriKey(n, k) ==> (k in m' <==> k in m) && (k in m ==> m'[k] == m[k])
  }

  /** Group `g` of relation `q` holds what it held in `c0`, plus its part of `put` once relation `r` has done it. */
  ghost predicate GroupAt(n: Scheme, c0: Controller, c: Controller, r: nat, put: Fields, done: set<Group>, q: nat,
                          g: Group) {
    Content(c, Label(q, g)) ==
    if q == r && g in done then Content(c0, Label(q, g)) + GroupPart(n, put, g) else Content(c0, Label(q, g))
  }

  /** The groups in `done` have received their part of `put`; nothing else differs from `c0`. */
  ghost predicate PutSoFar(n: Scheme, c0: Controller, c: Controller, r: nat, put: Fields, done: set<Group>) {
    && SameSetting(c0, c)
    && OtherBagsSame(c0, c, r)
    && SamePlain(n, Bag(c0, r), Bag(c, r))
    && (forall q, g :: GroupAt(n, c0, c, r, put, done, q, g))
  }

  lemma GroupAfterPut(n: Scheme, c0: Controller, c: Controller, c': Controller, r: nat, put: Fields, done: set<Group>,
                      g: Group, q: nat, h: Group)
    requires Sound(n) && GroupAt(n, c0, c, r, put, done, q, h) && g !in done
    requires Label(q, h) != Label(r, g) ==> SameSecret(c, c', Label(q, h))
    requires Content(c', Label(r, g)) == Content(c, Label(r, g)) + GroupPart(n, put, g)
    ensures GroupAt(n, c0, c', r, put, done + {g}, q, h)
  {
  }

  lemma PutOneMore(n: Scheme, c0: Controller, c: Controller, c': Controller, r: nat, put: Fields, done: set<Group>,
                   g: Group)
    requires Sound(n) && PutSoFar(n, c0, c, r, put, done) && g !in done
    requires OnlySecretChanged(c, c', r, Label(r, g), UriKey(n, g), Content(c, Label(r, g)) + GroupPart(n, put, g))
    ensures PutSoFar(n, c0, c', r, put, done + {g})
  {
    assert IsUriKey(n, UriKey(n, g));
    forall q, h ensures GroupAt(n, c0, c', r, put, done + {g}, q, h) {
      assert GroupAt(n, c0, c, r, put, done, q, h);
      GroupAfterPut(n, c0, c, c', r, put, done, g, q, h);
    }
  }

  /** Rewriting plain databag fields keeps the storage well formed, unless it would split a relation's storage. */
  lemma SetBagKeepsWF(n: Scheme, c: Controller, r: nat, bag: Fields)
    requires KeysMarked(n) && WF(n, c) && r in c.bags
    requires forall k :: IsUriKey(n, k) ==> (k in bag <==> k in Bag(c, r)) && (k in bag ==> bag[k] == Bag(c, r)[k])
    requires bag.Keys !! Req(c, r) || OnDatabag(c, r) || !c.enabled
    ensures WF(n, SetBag(c, r, bag))
  {
    var c' := SetBag(c, r, bag);
    forall q | q in c'.bags ensures RelationWF(n, c', q) {
      assert RelationWF(n, c, q);
      forall g ensures SameSecret(c, c', Label(q, g)) {}
      if q != r {
        RelationFrame(n, c, c', q);
      } else {
        forall g ensures GroupWF(n, c', r, g) {
          assert IsUriKey(n, UriKey(n, g)) && GroupWF(n, c, r, g) && SameSecret(c, c', Label(r, g));
          GroupFrame(n, c, c', r, g);
        }
      }
    }
  }

  /** A relation is seen unchanged when its databag and secret contents are. */
  lemma SameView(n: Scheme, c: Controller, c': Controller, r: nat)
    requires Bag(c', r) == Bag(c, r)
    requires forall g :: Content(c', Label(r, g)) == Content(c, Label(r, g))
    ensures View(n, c', r) == View(n, c, r)
  {
    forall k ensures FieldAt(n, c', r, k) == FieldAt(n, c, r, k) {}
    forall k ensures k in View(n, c, r) <==> k in View(n, c', r)
             ensures k in View(n, c, r) ==> View(n, c, r)[k] == View(n, c', r)[k] {
      ViewAt(n, c, r, k);
      ViewAt(n, c', r, k);
    }
  }

  /** Where one field is after its secret group and the databag have been written. */
  lemma FieldAfterUpdate(n: Scheme, c0: Controller, c: Controller, r: nat, put: Fields, normal: Fields,
                         done: set<Group>, k: string)
    requires PutSoFar(n, c0, c, r, put, done) && !IsUriKey(n, k)
    requires k in put ==> GroupIn(n.labelMap, k) in done && k !in Bag(c0, r) && k !in normal
    ensures FieldAt(n, SetBag(c, r, Bag(c, r) + normal), r, k) ==
            if k in normal then Some(normal[k]) else if k in put then Some(put[k]) else FieldAt(n, c0, r, k)
  {
    var l := Label(r, GroupIn(n.labelMap, k));
    assert Content(SetBag(c, r, Bag(c, r) + normal), l) == Content(c, l);
    assert GroupAt(n, c0, c, r, put, done, r, GroupIn(n.labelMap, k));
  }

  /** Once the requested part is in the secrets and the rest in the databag, the view is the old one plus both. */
  lemma ViewAfterUpdate(n: Scheme, c0: Controller, c: Controller, r: nat, put: Fields, normal: Fields, done: set<Group>)
    requires PutSoFar(n, c0, c, r, put, done)
    requires forall k :: k in put ==>
             GroupIn(n.labelMap, k) in done && !IsUriKey(n, k) && k !in Bag(c0, r) && k !in normal
    requires forall k :: k in normal ==> !IsUriKey(n, k)
    ensures View(n, SetBag(c, r, Bag(c, r) + normal), r) == View(n, c0, r) + (put + normal)
  {
    var c' := SetBag(c, r, Bag(c, r) + normal);
    var m := View(n, c0, r) + (put + normal);
    forall k ensures k in m <==> !IsUriKey(n, k) && FieldAt(n, c', r, k).Some?
             ensures k in m ==> m[k] == FieldAt(n, c', r, k).value {
      ViewAt(n, c0, r, k);
      if !IsUriKey(n, k) {
        FieldAfterUpdate(n, c0, c, r, put, normal, done, k);
      }
    }
    ViewIs(n, c', r, m);
  }

  /** Only relation `r` is seen differently, namely as `m`. */
  ghost predicate OnlyViewChanged(n: Scheme, c: Controller, c': Controller, r: nat, m: Fields) {
    && View(n, c', r) == m
    && (forall q :: q != r ==> View(n, c', q) == View(n, c, q))
    && SameSetting(c, c')
    && OtherBagsSame(c, c', r)
  }

  lemma OthersSeenSame(n: Scheme, c: Controller, c': Controller, r: nat)
    requires OtherBagsSame(c, c', r)
    requires forall q, g :: q != r ==> Content(c', Label(q, g)) == Content(c, Label(q, g))
    ensures forall q :: q != r ==> View(n, c', q) == View(n, c, q)
  {
    forall q | q != r ensures View(n, c', q) == View(n, c, q) {
      SameView(n, c, c', q);
    }
  }

  lemma ViewsAfterUpdate(n: Scheme, c0: Controller, c: Controller, r: nat, put: Fields, normal: Fields,
                         done: set<Group>)
    requires PutSoFar(n, c0, c, r, put, done) && r in c.bags
    requires forall k :: k in put ==>
             GroupIn(n.labelMap, k) in done && !IsUriKey(n, k) && k !in Bag(c0, r) && k !in normal
    requires forall k :: k in normal ==> !IsUriKey(n, k)
    ensures OnlyViewChanged(n, c0, SetBag(c, r, Bag(c, r) + normal), r, View(n, c0, r) + (put + normal))
  {
    var c' := SetBag(c, r, Bag(c, r) + normal);
    ViewAfterUpdate(n, c0, c, r, put, normal, done);
    forall q, g | q != r ensures Content(c', Label(q, g)) == Content(c0, Label(q, g)) {
      assert GroupAt(n, c0, c, r, put, done, q, g);
    }
    OthersSeenSame(n, c0, c', r);
  }

  lemma DataAfter(n: Scheme, c: Controller, c': Controller, r: nat, m: Fields)
    requires OnlyViewChanged(n, c, c', r, m) && r in c.bags
    ensures Abs(n, c').data == Abs(n, c).data[r := m]
  {
  }

  lemma LegacyAfter(c: Controller, c': Controller, r: nat)
    requires SameSetting(c, c') && OtherBagsSame(c, c', r) && r in c.bags
    ensures Legacy(c') == if OnDatabag(c', r) then Legacy(c) + {r} else Legacy(c) - {r}
  {
    forall q | q != r ensures OnDatabag(c', q) <==> OnDatabag(c, q) {}
  }

  /** The flat map of a state in which only relation `r` is seen differently. */
  lemma AbsAfter(n: Scheme, c: Controller, c': Controller, r: nat, m: Fields)
    requires OnlyViewChanged(n, c, c', r, m) && r in c.bags
    ensures Abs(n, c') == Abs(n, c).(
              data := Abs(n, c).data[r := m],
              legacy := if OnDatabag(c', r) then Legacy(c) + {r} else Legacy(c) - {r})
  {
    DataAfter(n, c, c', r, m);
    LegacyAfter(c, c', r);
    assert Ready(n, c') == Ready(n, c);
  }

  lemma AbsParts(n: Scheme, c: Controller, r: nat)
    requires r in c.bags
    ensures Data(Abs(n, c), r) == View(n, c, r)
    ensures Requested(Abs(n, c), r) == Req(c, r)
    ensures r in Abs(n, c).legacy <==> OnDatabag(c, r)
    ensures InSecrets(Abs(n, c), r) <==> c.enabled && !OnDatabag(c, r)
  {
  }

  lemma FlatUpdate(a: Flat, r: nat, put: Fields, onDatabag: bool)
    requires UpdateOutcome(a, r, put) == Done
    requires onDatabag <==> r in a.legacy || (!a.enabled && !(put.Keys !! Requested(a, r)))
    ensures Update(a, r, put) == a.(data := a.data[r := Data(a, r) + put],
                                    legacy := if onDatabag then a.legacy + {r} else a.legacy - {r})
  {
    assert r in a.legacy ==> a.legacy + {r} == a.legacy;
    assert r !in a.legacy ==> a.legacy - {r} == a.legacy;
  }

  /** In secret mode only unrequested fields go to the databag, otherwise all of them do. */
  ghost predicate RightPlace(c: Controller, r: nat, put: Fields, normal: Fields) {
    if c.enabled && !OnDatabag(c, r) then normal.Keys !! Req(c, r) else put == map[]
  }

  lemma ModeAfterUpdate(n: Scheme, c0: Controller, c: Controller, r: nat, put: Fields, normal: Fields, done: set<Group>)
    requires PutSoFar(n, c0, c, r, put, done) && RightPlace(c0, r, put, normal)
    requires forall k :: k in Req(c0, r) ==> !IsUriKey(n, k)
    ensures OnDatabag(c, r) <==> OnDatabag(c0, r)
    ensures OnDatabag(SetBag(c, r, Bag(c, r) + normal), r) <==>
            OnDatabag(c0, r) || (!c0.enabled && !((put + normal).Keys !! Req(c0, r)))
  {
    var c' := SetBag(c, r, Bag(c, r) + normal);
    assert Bag(c', r).Keys == Bag(c, r).Keys + normal.Keys;
    if put == map[] { assert put + normal == normal; }
  }

  /** A finished update is the flat map's update. */
  lemma UpdateRefines(n: Scheme, c0: Controller, c: Controller, r: nat, put: Fields, normal: Fields, done: set<Group>)
    requires KeysMarked(n) && WF(n, c) && r in c.bags && PutSoFar(n, c0, c, r, put, done)
    requires forall k :: k in put ==> GroupIn(n.labelMap, k) in done && k in Req(c0, r) && k !in normal
    requires forall k :: k in normal || k in Req(c0, r) ==> !IsUriKey(n, k)
    requires RightPlace(c0, r, put, normal)
    requires UpdateOutcome(Abs(n, c0), r, put + normal) == Done
    ensures WF(n, SetBag(c, r, Bag(c, r) + normal))
    ensures Abs(n, SetBag(c, r, Bag(c, r) + normal)) == Update(Abs(n, c0), r, put + normal)
  {
    var c' := SetBag(c, r, Bag(c, r) + normal);
    ModeAfterUpdate(n, c0, c, r, put, normal, done);
    SetBagKeepsWF(n, c, r, Bag(c, r) + normal);
    ViewsAfterUpdate(n, c0, c, r, put, normal, done);
    AbsAfter(n, c0, c', r, View(n, c0, r) + (put + normal));
    AbsParts(n, c0, r);
    FlatUpdate(Abs(n, c0), r, put + normal, OnDatabag(c', r));
  }

  /** Popping all of `fields`, one by one, from a secret's content succeeds. */
  predicate Poppable(content: Fields, fields: seq<string>) {
    Distinct(fields) && forall f :: f in fields ==> f in content
  }

  /** A secret-mode group from which every field of the call can be popped is the call's only group. */
  lemma PoppableIsWholeCall(n: Scheme, c: Controller, r: nat, g: Group, fields: seq<string>)
    requires RelationWF(n, c, r) && Poppable(Content(c, Label(r, g)), fields)
    ensures forall f :: f in fields ==> f in Req(c, r) && GroupIn(n.labelMap, f) == g
  {
    assert GroupWF(n, c, r, g);
  }

  /** Stored, requested and in one group: exactly what makes the group's secret poppable. */
  lemma OneStoredGroupMeans(n: Scheme, c: Controller, r: nat, g: Group, fields: seq<string>)
    requires RelationWF(n, c, r) && r in c.bags && !OnDatabag(c, r)
    requires exists f :: f in fields && GroupIn(n.labelMap, f) == g
    ensures Poppable(Content(c, Label(r, g)), fields) <==> OneStoredGroup(Abs(n, c), r, fields, n.labelMap)
  {
    AbsParts(n, c, r);
    assert GroupWF(n, c, r, g);
    forall f ensures f in View(n, c, r) && f in Req(c, r) <==>
                     f in Req(c, r) && f in Content(c, Label(r, GroupIn(n.labelMap, f))) {
      ViewAt(n, c, r, f);
      assert GroupWF(n, c, r, GroupIn(n.labelMap, f));
    }
  }

  /** Where one field is after plain fields have been dropped from the databag. */
  lemma FieldAfterDrop(n: Scheme, c: Controller, r: nat, keys: set<string>, k: string)
    requires GroupWF(n, c, r, GroupIn(n.labelMap, k))
    ensures FieldAt(n, SetBag(c, r, Bag(c, r) - keys), r, k) ==
            if k in keys && (k !in Req(c, r) || OnDatabag(c, r) || !c.enabled) then None else FieldAt(n, c, r, k)
  {
    assert Content(SetBag(c, r, Bag(c, r) - keys), Label(r, GroupIn(n.labelMap, k))) ==
      Content(c, Label(r, GroupIn(n.labelMap, k)));
  }

  /** What dropping `keys` from the databag takes out of the view. */
  function Dropped(c: Controller, r: nat, keys: set<string>): set<string> {
    if c.enabled && !OnDatabag(c, r) then keys - Req(c, r) else keys
  }

  lemma ViewAfterDrop(n: Scheme, c: Controller, r: nat, keys: set<string>)
    requires RelationWF(n, c, r)
    ensures View(n, SetBag(c, r, Bag(c, r) - keys), r) == View(n, c, r) - Dropped(c, r, keys)
  {
    var c' := SetBag(c, r, Bag(c, r) - keys);
    var m := View(n, c, r) - Dropped(c, r, keys);
    forall k ensures k in m <==> !IsUriKey(n, k) && FieldAt(n, c', r, k).Some?
             ensures k in m ==> m[k] == FieldAt(n, c', r, k).value {
      ViewAt(n, c, r, k);
      assert GroupWF(n, c, r, GroupIn(n.labelMap, k));
      FieldAfterDrop(n, c, r, keys, k);
    }
    ViewIs(n, c', r, m);
  }

  lemma ModeAfterDrop(n: Scheme, c: Controller, r: nat, keys: set<string>)
    requires RelationWF(n, c, r)
    ensures OnDatabag(SetBag(c, r, Bag(c, r) - keys), r) <==>
            OnDatabag(c, r) && !((View(n, c, r) - Dropped(c, r, keys)).Keys !! Req(c, r))
  {
    var c' := SetBag(c, r, Bag(c, r) - keys);
    var left := View(n, c, r) - Dropped(c, r, keys);
    if OnDatabag(c, r) {
      forall k | k in Req(c, r) ensures k in Bag(c', r) <==> k in left {
        ViewAt(n, c, r, k);
        assert GroupWF(n, c, r, GroupIn(n.labelMap, k));
      }
    }
  }

  lemma FlatDelete(a: Flat, r: nat, fields: seq<string>, labelMap: map<string, Group>, left: Fields, onDatabag: bool)
    requires Access(a, r) == Done && left == Data(a, r) - Removed(a, r, fields, labelMap)
    requires onDatabag <==> r in a.legacy && !(left.Keys !! Requested(a, r))
    ensures Delete(a, r, fields, labelMap) == a.(data := a.data[r := left],
                                                legacy := if onDatabag then a.legacy + {r} else a.legacy - {r})
  {
    assert r in a.legacy ==> a.legacy + {r} == a.legacy;
    assert r !in a.legacy ==> a.legacy - {r} == a.legacy;
  }

  lemma DeleteMatches(n: Scheme, c: Controller, c': Controller, r: nat, fields: seq<string>, left: Fields)
    requires OnlyViewChanged(n, c, c', r, left) && r in c.bags && c.leader
    requires left == View(n, c, r) - Removed(Abs(n, c), r, fields, n.labelMap)
    requires OnDatabag(c', r) <==> OnDatabag(c, r) && !(left.Keys !! Req(c, r))
    ensures Abs(n, c') == Delete(Abs(n, c), r, fields, n.labelMap)
  {
    AbsAfter(n, c, c', r, left);
    AbsParts(n, c, r);
    FlatDelete(Abs(n, c), r, fields, n.labelMap, left, OnDatabag(c', r));
  }

  lemma ViewsAfterDrop(n: Scheme, c: Controller, r: nat, keys: set<string>)
    requires RelationWF(n, c, r) && r in c.bags
    ensures OnlyViewChanged(n, c, SetBag(c, r, Bag(c, r) - keys), r, View(n, c, r) - Dropped(c, r, keys))
  {
    ViewAfterDrop(n, c, r, keys);
    OtherViews(n, c, r, Bag(c, r) - keys);
  }

  lemma OtherViews(n: Scheme, c: Controller, r: nat, bag: Fields)
    ensures forall q :: q != r ==> View(n, SetBag(c, r, bag), q) == View(n, c, q)
    ensures OtherBagsSame(c, SetBag(c, r, bag), r)
  {
    forall q | q != r ensures View(n, SetBag(c, r, bag), q) == View(n, c, q) {
      SameView(n, c, SetBag(c, r, bag), q);
    }
  }

  /** A delete that leaves the secrets alone is the flat map's delete, unless one group held the whole call. */
  lemma DropRefines(n: Scheme, c: Controller, r: nat, fields: seq<string>)
    requires KeysMarked(n) && WF(n, c) && r in c.bags && c.leader
    requires forall f :: f in fields ==> !IsUriKey(n, f)
    requires c.enabled && !OnDatabag(c, r) ==> fields == [] || !OneStoredGroup(Abs(n, c), r, fields, n.labelMap)
    ensures WF(n, SetBag(c, r, Bag(c, r) - AsSet(fields)))
    ensures Abs(n, SetBag(c, r, Bag(c, r) - AsSet(fields))) == Delete(Abs(n, c), r, fields, n.labelMap)
  {
    var keys := AsSet(fields);
    SetBagKeepsWF(n, c, r, Bag(c, r) - keys);
    DropMeans(n, c, r, fields);
  }

  lemma DropMeans(n: Scheme, c: Controller, r: nat, fields: seq<string>)
    requires RelationWF(n, c, r) && r in c.bags && c.leader
    requires c.enabled && !OnDatabag(c, r) ==> fields == [] || !OneStoredGroup(Abs(n, c), r, fields, n.labelMap)
    ensures Abs(n, SetBag(c, r, Bag(c, r) - AsSet(fields))) == Delete(Abs(n, c), r, fields, n.labelMap)
  {
    var keys := AsSet(fields);
    ViewsAfterDrop(n, c, r, keys);
    ModeAfterDrop(n, c, r, keys);
    DroppedIsRemoved(n, c, r, fields);
    DeleteMatches(n, c, SetBag(c, r, Bag(c, r) - keys), r, fields, View(n, c, r) - Dropped(c, r, keys));
  }

  lemma DroppedIsRemoved(n: Scheme, c: Controller, r: nat, fields: seq<string>)
    requires r in c.bags
    requires c.enabled && !OnDatabag(c, r) ==> fields == [] || !OneStoredGroup(Abs(n, c), r, fields, n.labelMap)
    ensures Dropped(c, r, AsSet(fields)) == Removed(Abs(n, c), r, fields, n.labelMap)
  {
    AbsParts(n, c, r);
    if fields == [] { assert AsSet(fields) == {}; }
  }

  /** Where one field is after some of a group's fields have been popped. */
  lemma FieldAfterPop(n: Scheme, c: Controller, c': Controller, r: nat, g: Group, keys: set<string>, k: string)
    requires KeysMarked(n) && !OnDatabag(c, r) && !IsUriKey(n, k)
    requires OnlySecretChanged(c, c', r, Label(r, g), UriKey(n, g), Content(c, Label(r, g)) - keys)
    requires forall k :: k in keys ==> k in Req(c, r) && GroupIn(n.labelMap, k) == g
    ensures FieldAt(n, c', r, k) == if k in keys then None else FieldAt(n, c, r, k)
  {
    assert IsUriKey(n, UriKey(n, g));
    if GroupIn(n.labelMap, k) != g {
      assert Label(r, GroupIn(n.labelMap, k)) != Label(r, g);
      assert SameSecret(c, c', Label(r, GroupIn(n.labelMap, k)));
    }
  }

  lemma ViewAfterPop(n: Scheme, c: Controller, c': Controller, r: nat, g: Group, keys: set<string>)
    requires Sound(n) && RelationWF(n, c, r) && !OnDatabag(c, r)
    requires OnlySecretChanged(c, c', r, Label(r, g), UriKey(n, g), Content(c, Label(r, g)) - keys)
    requires forall k :: k in keys ==> k in Req(c, r) && GroupIn(n.labelMap, k) == g
    ensures View(n, c', r) == View(n, c, r) - keys
  {
    var m := View(n, c, r) - keys;
    forall k ensures k in m <==> !IsUriKey(n, k) && FieldAt(n, c', r, k).Some?
             ensures k in m ==> m[k] == FieldAt(n, c', r, k).value {
      ViewAt(n, c, r, k);
      if !IsUriKey(n, k) { FieldAfterPop(n, c, c', r, g, keys, k); }
    }
    ViewIs(n, c', r, m);
  }

  lemma ViewsAfterPop(n: Scheme, c: Controller, c': Controller, r: nat, g: Group, keys: set<string>)
    requires Sound(n) && RelationWF(n, c, r) && !OnDatabag(c, r)
    requires OnlySecretChanged(c, c', r, Label(r, g), UriKey(n, g), Content(c, Label(r, g)) - keys)
    requires forall k :: k in keys ==> k in Req(c, r) && GroupIn(n.labelMap, k) == g
    ensures OnlyViewChanged(n, c, c', r, View(n, c, r) - keys)
  {
    ViewAfterPop(n, c, c', r, g, keys);
    forall q, h | q != r ensures Content(c', Label(q, h)) == Content(c, Label(q, h)) {
      assert Label(q, h) != Label(r, g);
      assert SameSecret(c, c', Label(q, h));
    }
    OthersSeenSame(n, c, c', r);
  }

  /** A delete whose fields all sit in one group's secret is the flat map's delete. */
  lemma PopRefines(n: Scheme, c: Controller, r: nat, g: Group, fields: seq<string>)
    requires Sound(n) && WF(n, c) && r in c.bags && c.leader && Label(r, g) in c.labels
    requires Poppable(Content(c, Label(r, g)), fields)
    requires exists f :: f in fields && GroupIn(n.labelMap, f) == g
    ensures WF(n, PopGroup(n, c, r, g, AsSet(fields)))
    ensures SameSetting(c, PopGroup(n, c, r, g, AsSet(fields))) && !OnDatabag(PopGroup(n, c, r, g, AsSet(fields)), r)
    ensures Abs(n, PopGroup(n, c, r, g, AsSet(fields))) == Delete(Abs(n, c), r, fields, n.labelMap)
  {
    var keys := AsSet(fields);
    PopGroupKeepsWF(n, c, r, g, keys);
    assert RelationWF(n, c, r) && GroupWF(n, c, r, g);
    StillInSecrets(n, c, PopGroup(n, c, r, g, keys), r, g);
    PopMeans(n, c, PopGroup(n, c, r, g, keys), r, g, fields);
  }

  lemma PopMeans(n: Scheme, c: Controller, c': Controller, r: nat, g: Group, fields: seq<string>)
    requires Sound(n) && RelationWF(n, c, r) && r in c.bags && c.leader && c.enabled && !OnDatabag(c, r)
    requires Poppable(Content(c, Label(r, g)), fields)
    requires exists f :: f in fields && GroupIn(n.labelMap, f) == g
    requires OnlySecretChanged(c, c', r, Label(r, g), UriKey(n, g), Content(c, Label(r, g)) - AsSet(fields))
    ensures Abs(n, c') == Delete(Abs(n, c), r, fields, n.labelMap)
  {
    PoppableIsWholeCall(n, c, r, g, fields);
    ViewsAfterPop(n, c, c', r, g, AsSet(fields));
    OneStoredGroupMeans(n, c, r, g, fields);
    StillInSecrets(n, c, c', r, g);
    DeleteMatches(n, c, c', r, fields, View(n, c, r) - AsSet(fields));
  }

  lemma StillInSecrets(n: Scheme, c: Controller, c': Controller, r: nat, g: Group)
    requires KeysMarked(n) && !OnDatabag(c, r) && Req(c', r) == Req(c, r)
    requires forall k :: k in Req(c, r) ==> !IsUriKey(n, k)
    requires SameExcept(Bag(c, r), Bag(c', r), UriKey(n, g))
    ensures !OnDatabag(c', r)
  {
    assert IsUriKey(n, UriKey(n, g));
  }
}
