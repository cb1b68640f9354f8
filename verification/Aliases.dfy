/**
 Relation aliases: each live relation of a requirer unit gets one alias out of a
 configured pool (`_assign_relation_alias`).
 */
module Aliases {
  import opened Text
  import opened Collections

  /** Live relations, with the alias each one has been given, if any. */
  type Relations = map<nat, Option<string>>

  ghost predicate Distinct(s: seq<string>) { forall i, j :: 0 <= i < j < |s| ==> s[i] != s[j] }

  predicate Has(rels: Relations, r: nat) { r in rels && rels[r].Some? }

  function Named(rels: Relations): set<nat> { set r | r in rels && rels[r].Some? }

  /** Aliases in use are drawn from the pool and pairwise distinct; the pool is large enough. */
  ghost predicate Valid(pool: seq<string>, rels: Relations) {
    && Distinct(pool) && |rels| <= |pool|
    && (forall r :: Has(rels, r) ==> rels[r].value in pool)
    && (forall r, q :: Has(rels, r) && Has(rels, q) && r != q ==> rels[r].value != rels[q].value)
  }

  predicate Unused(rels: Relations, alias: string) { forall r :: r in rels ==> rels[r] != Some(alias) }

  /** The pool without the aliases of the relations in `done`, in pool order. */
  ghost predicate LeftOver(pool: seq<string>, rels: Relations, done: set<nat>, left: seq<string>) {
    && Distinct(left) && |left| + |done| == |pool|
    && (forall x :: x in left <==> x in pool && forall r :: r in done && Has(rels, r) ==> rels[r].value != x)
    && Ordered(pool, left)
  }

  /** `left` lists its elements in the order of `pool`. */
  ghost predicate Ordered(pool: seq<string>, left: seq<string>) {
    forall i, j, p, q ::
      0 <= i < j < |left| && 0 <= p < |pool| && 0 <= q < |pool| && pool[p] == left[i] && pool[q] == left[j] ==> p < q
  }

  /** `list.remove`: the first occurrence, which must exist. */
  method Remove(s: seq<string>, x: string) returns (r: seq<string>)
    requires x in s
    ensures exists i :: 0 <= i < |s| && s[i] == x && x !in s[..i] && r == s[..i] + s[i + 1..]
  {
    var i := 0;
    while s[i] != x
      invariant 0 <= i < |s| && x !in s[..i]
      decreases |s| - i
    {
      i := i + 1;
    }
    r := s[..i] + s[i + 1..];
  }

  lemma RemoveKeepsOrder(pool: seq<string>, rels: Relations, done: set<nat>, left: seq<string>, r: nat, i: nat)
    requires Valid(pool, rels) && LeftOver(pool, rels, done, left)
    requires Has(rels, r) && r !in done && i < |left| && left[i] == rels[r].value
    ensures LeftOver(pool, rels, done + {r}, left[..i] + left[i + 1..])
  {
    var after := left[..i] + left[i + 1..];
    forall j ensures 0 <= j < i ==> after[j] == left[j]
             ensures i <= j < |after| ==> after[j] == left[j + 1] {}
    forall x ensures x in after <==> x in left && x != left[i] {
      if x in left && x != left[i] {
        var j :| 0 <= j < |left| && left[j] == x;
        assert after[if j < i then j else j - 1] == x;
      }
    }
  }

  /** Pigeonhole: while one live relation has no alias, an alias is left. */
  lemma RoomForOneMore(pool: seq<string>, rels: Relations, id: nat)
    requires |rels| <= |pool| && id in rels && rels[id].None?
    ensures |Named(rels)| < |pool|
  {
    assert Named(rels) <= rels.Keys && id !in Named(rels);
    SubsetCount(Named(rels), rels.Keys);
    assert |rels.Keys| == |rels|;
  }

  /** The first alias of the pool that no live relation has. */
  ghost predicate IsNext(pool: seq<string>, rels: Relations, alias: string) {
    exists i :: 0 <= i < |pool| && pool[i] == alias && Unused(rels, alias)
                && forall j :: 0 <= j < i ==> !Unused(rels, pool[j])
  }

  lemma FirstIsNext(pool: seq<string>, rels: Relations, left: seq<string>)
    requires Distinct(pool) && LeftOver(pool, rels, Named(rels), left) && left != []
    ensures IsNext(pool, rels, left[0])
  {
    assert left[0] in left;
    var i :| 0 <= i < |pool| && pool[i] == left[0];
    assert Unused(rels, pool[i]);
    forall j | 0 <= j < i ensures !Unused(rels, pool[j]) {
      forall k | 0 <= k < |left| ensures left[k] != pool[j] {}
      assert pool[j] !in left;
    }
  }

  ghost function Next(pool: seq<string>, rels: Relations): string {
    if exists x :: IsNext(pool, rels, x) then (var x :| IsNext(pool, rels, x); x) else ""
  }

  lemma NextIsUnique(pool: seq<string>, rels: Relations, x: string)
    requires IsNext(pool, rels, x)
    ensures Next(pool, rels) == x
  {
  }

  ghost function Assign(pool: seq<string>, rels: Relations, id: nat): Relations {
    if id in rels && rels[id].None? && pool != [] then rels[id := Some(Next(pool, rels))] else rels
  }

  datatype Step = Join(r: nat) | Assigned(r: nat) | Break(r: nat)

  ghost function Apply(pool: seq<string>, rels: Relations, step: Step): Relations {
    match step
    case Join(r) => if r !in rels && |rels| < |pool| then rels[r := None] else rels
    case Assigned(r) => Assign(pool, rels, r)
    case Break(r) => rels - {r}
  }

  ghost function Run(pool: seq<string>, rels: Relations, steps: seq<Step>): Relations {
    if steps == [] then rels else Apply(pool, Run(pool, rels, steps[..|steps| - 1]), steps[|steps| - 1])
  }

  /** With room in the pool there is a next alias, so an assignment never fails. */
  lemma AssignKeepsValid(pool: seq<string>, rels: Relations, id: nat)
    requires Valid(pool, rels)
    ensures Valid(pool, Assign(pool, rels, id))
    ensures id in rels && pool != [] ==> Has(Assign(pool, rels, id), id)
    ensures id in rels && rels[id].None? && pool != [] ==> IsNext(pool, rels, Next(pool, rels))
  {
    if id in rels && rels[id].None? && pool != [] {
      RoomForOneMore(pool, rels, id);
      SomethingFree(pool, rels);
      assert IsNext(pool, rels, Next(pool, rels));
    }
  }

  function Used(rels: Relations): set<string> { set r | r in rels && Has(rels, r) :: rels[r].value }

  lemma {:induction false} PoolTooLarge(pool: seq<string>, used: set<string>)
    requires Distinct(pool) && forall i :: 0 <= i < |pool| ==> pool[i] in used
    ensures |pool| <= |used|
  {
    if pool != [] {
      var n := |pool| - 1;
      PoolTooLarge(pool[..n], used - {pool[n]});
    }
  }

  lemma {:induction false} UsedCount(rels: Relations, ids: set<nat>)
    requires ids <= Named(rels)
    ensures |set r | r in ids && Has(rels, r) :: rels[r].value| <= |ids|
  {
    var image := set r | r in ids && Has(rels, r) :: rels[r].value;
    if ids != {} {
      var r :| r in ids && Has(rels, r);
      var fewer := set q | q in ids - {r} && Has(rels, q) :: rels[q].value;
      UsedCount(rels, ids - {r});
      assert image == fewer + {rels[r].value};
    } else {
      assert image == {};
    }
  }

  lemma SomethingFree(pool: seq<string>, rels: Relations)
    requires Distinct(pool) && |Named(rels)| < |pool|
    ensures exists x :: IsNext(pool, rels, x)
  {
    UsedCount(rels, Named(rels));
    assert Used(rels) == set r | r in Named(rels) && Has(rels, r) :: rels[r].value;
    if forall i :: 0 <= i < |pool| ==> pool[i] in Used(rels) {
      PoolTooLarge(pool, Used(rels));
    }
    var i :| 0 <= i < |pool| && pool[i] !in Used(rels);
    FirstFree(pool, rels, i);
  }

  lemma {:induction false} FirstFree(pool: seq<string>, rels: Relations, i: nat)
    requires i < |pool| && pool[i] !in Used(rels)
    ensures exists x :: IsNext(pool, rels, x)
  {
    assert forall r :: r in rels && rels[r].Some? ==> rels[r].value in Used(rels);
    assert Unused(rels, pool[i]);
    if j :| 0 <= j < i && Unused(rels, pool[j]) {
      assert pool[j] !in Used(rels);
      FirstFree(pool, rels, j);
    } else {
      assert IsNext(pool, rels, pool[i]);
    }
  }

  lemma FewerKeepValid(pool: seq<string>, rels: Relations, r: nat)
    requires Valid(pool, rels)
    ensures Valid(pool, rels - {r})
  {
    assert (rels - {r}).Keys <= rels.Keys;
    SubsetCount((rels - {r}).Keys, rels.Keys);
  }

  lemma StepKeepsValid(pool: seq<string>, rels: Relations, step: Step)
    requires Valid(pool, rels)
    ensures Valid(pool, Apply(pool, rels, step))
  {
    match step
    case Assigned(r) => AssignKeepsValid(pool, rels, r);
    case Break(r) => FewerKeepValid(pool, rels, r);
    case Join(r) =>
  }

  /** Every run keeps aliases distinct and from the pool. */
  lemma {:induction false} RunKeepsValid(pool: seq<string>, rels: Relations, steps: seq<Step>)
    requires Valid(pool, rels)
    ensures Valid(pool, Run(pool, rels, steps))
  {
    if steps != [] {
      var n := |steps| - 1;
      RunKeepsValid(pool, rels, steps[..n]);
      StepKeepsValid(pool, Run(pool, rels, steps[..n]), steps[n]);
    }
  }

  /** An alias, once given, stays as long as the relation lives. */
  lemma {:induction false} AliasNeverChanges(pool: seq<string>, rels: Relations, steps: seq<Step>, r: nat)
    requires Has(rels, r) && forall i :: 0 <= i < |steps| ==> steps[i] != Break(r)
    ensures Has(Run(pool, rels, steps), r) && Run(pool, rels, steps)[r] == rels[r]
  {
    if steps != [] {
      var n := |steps| - 1;
      AliasNeverChanges(pool, rels, steps[..n], r);
      assert steps[n] != Break(r);
    }
  }

  class AliasAllocator {
    const pool: seq<string>
    var relations: Relations
    var published: map<nat, string>

    constructor (pool: seq<string>)
      requires Distinct(pool)
      ensures this.pool == pool && relations == map[] && published == map[] && Good()
    {
      this.pool := pool;
      relations, published := map[], map[];
    }

    /** The application databag repeats the alias of a live relation, if anything. */
    ghost predicate Good()
      reads this
    {
      && Valid(pool, relations)
      && (forall r :: r in published ==> r in relations && relations[r] == Some(published[r]))
    }

    /** The pool minus every alias in use; `remove` never meets a missing alias. */
    method AvailableAliases() returns (available: seq<string>)
      requires Valid(pool, relations)
      ensures LeftOver(pool, relations, Named(relations), available)
    {
      available := pool;
      var pending := Named(relations);
      ghost var done: set<nat> := {};
      while pending != {}
        invariant pending + done == Named(relations) && pending !! done
        invariant LeftOver(pool, relations, done, available)
        decreases pending
      {
        var r := Choose(pending);
        ghost var before := available;
        assert relations[r].value in available;
        available := Remove(available, relations[r].value);
        ghost var i :| 0 <= i < |before| && before[i] == relations[r].value
                       && available == before[..i] + before[i + 1..];
        RemoveKeepsOrder(pool, relations, done, before, r, i);
        pending, done := pending - {r}, done + {r};
      }
      assert done == Named(relations);
    }

    /**
     Gives a live relation without alias the first free one, of which there always is one, and lets the
     leader publish it. For a relation that is gone the leader's call fails, and nothing changes.
     */
    method AssignAlias(id: nat, leader: bool) returns (ok: bool)
      requires Good()
      modifies this
      ensures Good()
      ensures ok <==> !(leader && pool != [] && id !in old(relations))
      ensures relations == Assign(pool, old(relations), id)
      ensures forall r :: r != id ==>
              (r in relations <==> r in old(relations)) && (r in relations ==> relations[r] == old(relations)[r])
      ensures pool != [] && id in old(relations) && old(relations)[id].None? ==>
                exists i :: && 0 <= i < |pool| && relations[id] == Some(pool[i]) && Unused(old(relations), pool[i])
                            && forall j :: 0 <= j < i ==> !Unused(old(relations), pool[j])
      ensures published == if leader && pool != [] && id in old(relations) && old(relations)[id].None?
                           then old(published)[id := Next(pool, old(relations))] else old(published)
    {
      if pool == [] || (id in relations && relations[id].Some?) {
        return true;
      }
      var available := AvailableAliases();
      if id in relations {
        RoomForOneMore(pool, relations, id);
        FirstIsNext(pool, relations, available);
        NextIsUnique(pool, relations, available[0]);
        AssignKeepsValid(pool, relations, id);
        relations := relations[id := Some(available[0])];
      }
      if leader {
        if available == [] || id !in relations {
          return false;
        }
        published := published[id := available[0]];
      }
      ok := true;
    }

    method RelationJoins(id: nat)
      requires Good() && id !in relations && |relations| < |pool|
      modifies this
      ensures Good() && relations == old(relations)[id := None] && published == old(published)
    {
      relations := relations[id := None];
    }

    method RelationBreaks(id: nat)
      requires Good()
      modifies this
      ensures Good() && relations == old(relations) - {id} && published == old(published) - {id}
    {
      FewerKeepValid(pool, relations, id);
      relations, published := relations - {id}, published - {id};
    }
  }
}
