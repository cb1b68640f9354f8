/**
 Making scrape-job names unique (`_dedupe_job_names`): jobs sharing a name get a hash
 of the job appended, then equal jobs are dropped.
 */
module JobNames {

  /** A job's name, and the JSON text of what stands before and after it: where the name stands matters. */
  datatype Job = Job(head: string, name: string, tail: string)

  /** SHA-256 of the job's JSON, in hexadecimal. */
  type Hash = Job -> string

  const DIGEST_LENGTH: nat := 64

  function Count(jobs: seq<Job>, name: string): nat {
    if jobs == [] then 0
    else Count(jobs[..|jobs| - 1], name) + (if jobs[|jobs| - 1].name == name then 1 else 0)
  }

  function NewName(j: Job, hash: Hash): string { j.name + "_" + hash(j) }

  function Rename(jobs: seq<Job>, j: Job, hash: Hash): Job {
    if Count(jobs, j.name) > 1 then j.(name := NewName(j, hash)) else j
  }

  /** The names in order of first appearance, as a dict keeps its keys. */
  function Names(jobs: seq<Job>): seq<string> {
    if jobs == [] then []
    else
      var earlier, last := Names(jobs[..|jobs| - 1]), jobs[|jobs| - 1].name;
      if last in earlier then earlier else earlier + [last]
  }

  /** The jobs of one name, renamed, in their order. */
  function Group(jobs: seq<Job>, all: seq<Job>, name: string, hash: Hash): seq<Job> {
    if jobs == [] then []
    else
      var earlier, last := Group(jobs[..|jobs| - 1], all, name, hash), jobs[|jobs| - 1];
      if last.name == name then earlier + [Rename(all, last, hash)] else earlier
  }

  function Groups(names: seq<string>, jobs: seq<Job>, hash: Hash): seq<Job> {
    if names == [] then []
    else Groups(names[..|names| - 1], jobs, hash) + Group(jobs, jobs, names[|names| - 1], hash)
  }

  function Unique(jobs: seq<Job>): seq<Job> {
    if jobs == [] then []
    else
      var earlier, last := Unique(jobs[..|jobs| - 1]), jobs[|jobs| - 1];
      if last in earlier then earlier else earlier + [last]
  }

  function Dedupe(jobs: seq<Job>, hash: Hash): seq<Job> { Unique(Groups(Names(jobs), jobs, hash)) }

  /** Digests have a fixed length and do not collide on the jobs at hand, before or after renaming. */
  ghost predicate GoodHash(jobs: seq<Job>, hash: Hash) {
    && (forall j :: |hash(j)| == DIGEST_LENGTH)
    && (forall i, k :: 0 <= i < |jobs| && 0 <= k < |jobs| && hash(jobs[i]) == hash(jobs[k]) ==> jobs[i] == jobs[k])
    && (forall i, k :: 0 <= i < |jobs| && 0 <= k < |jobs| ==>
          hash(Rename(jobs, jobs[i], hash)) == hash(Rename(jobs, jobs[k], hash)) ==>
            Rename(jobs, jobs[i], hash) == Rename(jobs, jobs[k], hash))
  }

  lemma {:induction false} NamesHold(jobs: seq<Job>, name: string)
    ensures name in Names(jobs) <==> exists i :: 0 <= i < |jobs| && jobs[i].name == name
  {
    if jobs != [] {
      var n := |jobs| - 1;
      NamesHold(jobs[..n], name);
      if name in Names(jobs[..n]) {
        var i :| 0 <= i < n && jobs[..n][i].name == name;
        assert jobs[i].name == name;
      } else if jobs[n].name != name {
        forall i | 0 <= i < |jobs| ensures jobs[i].name != name {
          if i < n { assert jobs[..n][i] == jobs[i]; }
        }
      }
    }
  }

  lemma {:induction false} GroupHolds(jobs: seq<Job>, all: seq<Job>, name: string, hash: Hash, x: Job)
    ensures x in Group(jobs, all, name, hash) <==>
            exists i :: 0 <= i < |jobs| && jobs[i].name == name && Rename(all, jobs[i], hash) == x
  {
    if jobs != [] {
      var n := |jobs| - 1;
      GroupHolds(jobs[..n], all, name, hash, x);
      if x in Group(jobs[..n], all, name, hash) {
        var i :| 0 <= i < n && jobs[..n][i].name == name && Rename(all, jobs[..n][i], hash) == x;
        assert jobs[i] == jobs[..n][i];
      } else if !(jobs[n].name == name && Rename(all, jobs[n], hash) == x) {
        forall i | 0 <= i < |jobs| && jobs[i].name == name ensures Rename(all, jobs[i], hash) != x {
          if i < n { assert jobs[..n][i] == jobs[i]; }
        }
      }
    }
  }

  lemma {:induction false} GroupsHold(names: seq<string>, jobs: seq<Job>, hash: Hash, x: Job)
    ensures x in Groups(names, jobs, hash) <==>
            exists i :: 0 <= i < |jobs| && jobs[i].name in names && Rename(jobs, jobs[i], hash) == x
  {
    if names != [] {
      var n := |names| - 1;
      GroupsHold(names[..n], jobs, hash, x);
      GroupHolds(jobs, jobs, names[n], hash, x);
      assert names == names[..n] + [names[n]];
    }
  }

  lemma {:induction false} UniqueHolds(jobs: seq<Job>)
    ensures forall x :: x in Unique(jobs) <==> x in jobs
    ensures forall i, k :: 0 <= i < k < |Unique(jobs)| ==> Unique(jobs)[i] != Unique(jobs)[k]
  {
    if jobs != [] {
      var n := |jobs| - 1;
      UniqueHolds(jobs[..n]);
      assert jobs == jobs[..n] + [jobs[n]];
    }
  }

  /** Every input job survives up to its name, and nothing else comes out. */
  lemma JobsSurvive(jobs: seq<Job>, hash: Hash, x: Job)
    ensures x in Dedupe(jobs, hash) <==> exists i :: 0 <= i < |jobs| && Rename(jobs, jobs[i], hash) == x
  {
    GroupsHold(Names(jobs), jobs, hash, x);
    UniqueHolds(Groups(Names(jobs), jobs, hash));
    forall i | 0 <= i < |jobs| ensures jobs[i].name in Names(jobs) {
      NamesHold(jobs, jobs[i].name);
    }
  }

  ghost predicate DistinctNames(jobs: seq<Job>) {
    forall i, k :: 0 <= i < k < |jobs| ==> jobs[i].name != jobs[k].name
  }

  /** A job with a name of its own has a generated name, and is not the job it was generated for. */
  ghost predicate Clash(jobs: seq<Job>, hash: Hash) {
    exists i, k :: && 0 <= i < |jobs| && 0 <= k < |jobs|
                   && Count(jobs, jobs[i].name) == 1 && Count(jobs, jobs[k].name) > 1
                   && jobs[i].name == NewName(jobs[k], hash) && jobs[i] != Rename(jobs, jobs[k], hash)
  }

  lemma {:induction false} CountTwo(jobs: seq<Job>, i: nat, k: nat)
    requires i < k < |jobs| && jobs[i].name == jobs[k].name
    ensures Count(jobs, jobs[i].name) >= 2
  {
    var n := |jobs| - 1;
    if k < n {
      CountTwo(jobs[..n], i, k);
    } else {
      CountOne(jobs[..n], i);
    }
  }

  lemma {:induction false} CountOne(jobs: seq<Job>, i: nat)
    requires i < |jobs|
    ensures Count(jobs, jobs[i].name) >= 1
  {
    var n := |jobs| - 1;
    if i < n { CountOne(jobs[..n], i); }
  }

  /** Another job has the same name. */
  ghost predicate Shared(jobs: seq<Job>, i: nat)
    requires i < |jobs|
  {
    exists k :: 0 <= k < |jobs| && k != i && jobs[k].name == jobs[i].name
  }

  lemma {:induction false} CountNone(jobs: seq<Job>, name: string)
    requires forall k :: 0 <= k < |jobs| ==> jobs[k].name != name
    ensures Count(jobs, name) == 0
  {
    if jobs != [] { CountNone(jobs[..|jobs| - 1], name); }
  }

  lemma {:induction false} CountAlone(jobs: seq<Job>, i: nat)
    requires i < |jobs| && !Shared(jobs, i)
    ensures Count(jobs, jobs[i].name) == 1
  {
    var n := |jobs| - 1;
    if i == n {
      CountNone(jobs[..n], jobs[n].name);
    } else {
      assert jobs[n].name != jobs[i].name;
      CountAlone(jobs[..n], i);
    }
  }

  lemma CountShared(jobs: seq<Job>, i: nat)
    requires i < |jobs|
    ensures Count(jobs, jobs[i].name) > 1 <==> Shared(jobs, i)
  {
    if Shared(jobs, i) {
      var k :| 0 <= k < |jobs| && k != i && jobs[k].name == jobs[i].name;
      if i < k { CountTwo(jobs, i, k); } else { CountTwo(jobs, k, i); }
    } else {
      CountAlone(jobs, i);
    }
  }

  /** What becomes of one job: its name is kept if no other job has it, else a digest of the job is appended. */
  ghost predicate BecomesOf(jobs: seq<Job>, i: nat, hash: Hash, x: Job)
    requires i < |jobs|
  {
    && x.head == jobs[i].head && x.tail == jobs[i].tail
    && x.name == if Shared(jobs, i) then jobs[i].name + "_" + hash(jobs[i]) else jobs[i].name
  }

  /** Exactly these come out. */
  lemma OutputExactly(jobs: seq<Job>, hash: Hash, x: Job)
    ensures x in Dedupe(jobs, hash) <==> exists i :: 0 <= i < |jobs| && BecomesOf(jobs, i, hash, x)
  {
    JobsSurvive(jobs, hash, x);
    forall i | 0 <= i < |jobs| ensures BecomesOf(jobs, i, hash, x) <==> Rename(jobs, jobs[i], hash) == x {
      CountShared(jobs, i);
    }
  }

  /** Digests of one length at the end of equal names are equal. */
  lemma NewNameDetermines(a: Job, b: Job, hash: Hash)
    requires |hash(a)| == |hash(b)|
    ensures NewName(a, hash) == NewName(b, hash) ==> hash(a) == hash(b)
  {
    var x, y := NewName(a, hash), NewName(b, hash);
    assert x[|x| - |hash(a)|..] == hash(a) && y[|y| - |hash(b)|..] == hash(b);
  }

  /** Two different jobs with the same new name: one of them had it as its own. */
  lemma SameNewName(jobs: seq<Job>, hash: Hash, i: nat, k: nat)
    requires GoodHash(jobs, hash) && i < |jobs| && k < |jobs|
    requires Rename(jobs, jobs[i], hash).name == Rename(jobs, jobs[k], hash).name
    requires Rename(jobs, jobs[i], hash) != Rename(jobs, jobs[k], hash)
    ensures Clash(jobs, hash)
  {
    var a, b := jobs[i], jobs[k];
    CountOne(jobs, i);
    CountOne(jobs, k);
    NewNameDetermines(a, b, hash);
    if Count(jobs, a.name) == 1 && Count(jobs, b.name) == 1 {
      if i < k { CountTwo(jobs, i, k); } else { CountTwo(jobs, k, i); }
    }
  }

  /** Output names are pairwise distinct exactly when no job brings a generated name as its own. */
  lemma NamesDistinctExactly(jobs: seq<Job>, hash: Hash)
    requires GoodHash(jobs, hash)
    ensures DistinctNames(Dedupe(jobs, hash)) <==> !Clash(jobs, hash)
  {
    var out := Dedupe(jobs, hash);
    if !Clash(jobs, hash) {
      forall p, q | 0 <= p < q < |out| ensures out[p].name != out[q].name {
        UniqueHolds(Groups(Names(jobs), jobs, hash));
        JobsSurvive(jobs, hash, out[p]);
        JobsSurvive(jobs, hash, out[q]);
        var i :| 0 <= i < |jobs| && Rename(jobs, jobs[i], hash) == out[p];
        var k :| 0 <= k < |jobs| && Rename(jobs, jobs[k], hash) == out[q];
        if out[p].name == out[q].name { SameNewName(jobs, hash, i, k); }
      }
    } else {
      var i, k :| && 0 <= i < |jobs| && 0 <= k < |jobs|
                  && Count(jobs, jobs[i].name) == 1 && Count(jobs, jobs[k].name) > 1
                  && jobs[i].name == NewName(jobs[k], hash) && jobs[i] != Rename(jobs, jobs[k], hash);
      JobsSurvive(jobs, hash, Rename(jobs, jobs[i], hash));
      JobsSurvive(jobs, hash, Rename(jobs, jobs[k], hash));
      var p :| 0 <= p < |out| && out[p] == jobs[i];
      var q :| 0 <= q < |out| && out[q] == Rename(jobs, jobs[k], hash);
      assert p != q && out[p].name == out[q].name;
    }
  }

  /** Two jobs of one name, and a third that already carries the name generated for the first. */
  function Clashing(hash: Hash): seq<Job> {
    [Job("", "a", "1"), Job("", "a", "2"), Job("", NewName(Job("", "a", "1"), hash), "3")]
  }

  lemma ClashWitness(hash: Hash)
    ensures Clash(Clashing(hash), hash)
    ensures GoodHash(Clashing(hash), hash) ==> !DistinctNames(Dedupe(Clashing(hash), hash))
  {
    var jobs := Clashing(hash);
    assert |jobs[2].name| > |jobs[0].name|;
    assert jobs[..2][..1] == jobs[..1] && jobs[..1][..0] == [] && jobs[..2][1] == jobs[1] && jobs[..1][0] == jobs[0];
    assert Count(jobs[..1], "a") == 1;
    assert Count(jobs[..2], "a") == 2;
    assert Count(jobs, "a") == 2;
    assert Count(jobs[..1], jobs[2].name) == 0;
    assert Count(jobs[..2], jobs[2].name) == 0;
    assert Count(jobs, jobs[2].name) == 1;
    assert jobs[2] != Rename(jobs, jobs[0], hash);
    if GoodHash(jobs, hash) { NamesDistinctExactly(jobs, hash); }
  }

  lemma {:induction false} AllCountOne(jobs: seq<Job>, name: string)
    requires DistinctNames(jobs)
    ensures Count(jobs, name) <= 1
    ensures Count(jobs, name) == 1 ==> exists i :: 0 <= i < |jobs| && jobs[i].name == name
  {
    if jobs != [] {
      var n := |jobs| - 1;
      AllCountOne(jobs[..n], name);
      if Count(jobs[..n], name) == 1 {
        var i :| 0 <= i < n && jobs[..n][i].name == name;
        assert jobs[i].name == name && jobs[n].name != name;
      }
    }
  }

  /** Distinct names are listed as they come. */
  lemma {:induction false} NamesOfDistinct(jobs: seq<Job>)
    requires DistinctNames(jobs)
    ensures |Names(jobs)| == |jobs| && forall i :: 0 <= i < |jobs| ==> Names(jobs)[i] == jobs[i].name
  {
    if jobs != [] {
      var n := |jobs| - 1;
      NamesOfDistinct(jobs[..n]);
      NamesHold(jobs[..n], jobs[n].name);
    }
  }

  lemma {:induction false} GroupOfDistinct(jobs: seq<Job>, all: seq<Job>, k: nat, hash: Hash)
    requires DistinctNames(all) && jobs <= all && k < |all|
    ensures Group(jobs, all, all[k].name, hash) == if k < |jobs| then [all[k]] else []
  {
    if jobs != [] {
      var n := |jobs| - 1;
      GroupOfDistinct(jobs[..n], all, k, hash);
      AllCountOne(all, all[k].name);
    }
  }

  lemma {:induction false} GroupsOfDistinct(jobs: seq<Job>, k: nat, hash: Hash)
    requires DistinctNames(jobs) && k <= |jobs|
    ensures k <= |Names(jobs)| && Groups(Names(jobs)[..k], jobs, hash) == jobs[..k]
  {
    NamesOfDistinct(jobs);
    if k > 0 {
      GroupsOfDistinct(jobs, k - 1, hash);
      GroupOfDistinct(jobs, jobs, k - 1, hash);
      assert Names(jobs)[..k][..k - 1] == Names(jobs)[..k - 1];
      assert jobs[..k] == jobs[..k - 1] + [jobs[k - 1]];
    } else {
      assert Names(jobs)[..0] == [];
    }
  }

  lemma {:induction false} UniqueOfDistinct(jobs: seq<Job>)
    requires DistinctNames(jobs)
    ensures Unique(jobs) == jobs
  {
    if jobs != [] {
      var n := |jobs| - 1;
      UniqueOfDistinct(jobs[..n]);
      assert jobs == jobs[..n] + [jobs[n]];
      assert jobs[n] !in jobs[..n];
    }
  }

  /** Jobs with distinct names pass through unchanged. */
  lemma DistinctIsFixed(jobs: seq<Job>, hash: Hash)
    requires DistinctNames(jobs)
    ensures Dedupe(jobs, hash) == jobs
  {
    NamesOfDistinct(jobs);
    GroupsOfDistinct(jobs, |jobs|, hash);
    assert Names(jobs)[..|jobs|] == Names(jobs) && jobs[..|jobs|] == jobs;
    UniqueOfDistinct(jobs);
  }

  /** In a fixed point no name is shared: its holders would have come from a shorter shared name. */
  lemma {:induction false} NoSharedName(jobs: seq<Job>, hash: Hash, i: nat)
    requires Dedupe(jobs, hash) == jobs && i < |jobs|
    ensures Count(jobs, jobs[i].name) <= 1
    decreases |jobs[i].name|
  {
    if Count(jobs, jobs[i].name) > 1 {
      JobsSurvive(jobs, hash, jobs[i]);
      var k :| 0 <= k < |jobs| && Rename(jobs, jobs[k], hash) == jobs[i];
      NoSharedName(jobs, hash, k);
    }
  }

  lemma FixedIsDistinct(jobs: seq<Job>, hash: Hash)
    requires Dedupe(jobs, hash) == jobs
    ensures DistinctNames(jobs)
  {
    forall i, k | 0 <= i < k < |jobs| ensures jobs[i].name != jobs[k].name {
      NoSharedName(jobs, hash, i);
      if jobs[i].name == jobs[k].name { CountTwo(jobs, i, k); }
    }
  }

  /** Applying the deduplication again changes nothing, exactly when no job brings a generated name as its own. */
  lemma IdempotentExactly(jobs: seq<Job>, hash: Hash)
    requires GoodHash(jobs, hash)
    ensures Dedupe(Dedupe(jobs, hash), hash) == Dedupe(jobs, hash) <==> !Clash(jobs, hash)
  {
    NamesDistinctExactly(jobs, hash);
    var out := Dedupe(jobs, hash);
    if DistinctNames(out) {
      DistinctIsFixed(out, hash);
    }
    if Dedupe(out, hash) == out {
      FixedIsDistinct(out, hash);
    }
  }

  /** The jobs group by group, renamed where a name is shared. */
  method RenameGroups(jobs: seq<Job>, hash: Hash) returns (renamed: seq<Job>)
    ensures renamed == Groups(Names(jobs), jobs, hash)
  {
    var names := CollectNames(jobs);
    renamed := [];
    for i := 0 to |names|
      invariant renamed == Groups(names[..i], jobs, hash)
    {
      var group := RenameGroup(jobs, names[i], hash);
      assert names[..i + 1][..i] == names[..i];
      renamed := renamed + group;
    }
    assert names[..|names|] == names;
  }

  /** `_dedupe_job_names`, with the dict of groups and the list of seen digests it works with. */
  method DedupeJobNames(jobs: seq<Job>, hash: Hash) returns (deduped: seq<Job>)
    requires GoodHash(jobs, hash)
    ensures deduped == Dedupe(jobs, hash)
  {
    var renamed := RenameGroups(jobs, hash);
    RenamedDoNotCollide(jobs, hash);
    deduped := DropRepeats(renamed, hash);
  }

  method CollectNames(jobs: seq<Job>) returns (names: seq<string>)
    ensures names == Names(jobs)
  {
    names := [];
    for i := 0 to |jobs|
      invariant names == Names(jobs[..i])
    {
      assert jobs[..i + 1][..i] == jobs[..i];
      if jobs[i].name !in names {
        names := names + [jobs[i].name];
      }
    }
    assert jobs[..|jobs|] == jobs;
  }

  method RenameGroup(jobs: seq<Job>, name: string, hash: Hash) returns (group: seq<Job>)
    ensures group == Group(jobs, jobs, name, hash)
  {
    var same: seq<Job> := [];
    for i := 0 to |jobs|
      invariant |same| == Count(jobs[..i], name) && forall k :: 0 <= k < |same| ==> same[k].name == name
      invariant Renamed(same, jobs, hash) == Group(jobs[..i], jobs, name, hash)
    {
      assert jobs[..i + 1][..i] == jobs[..i];
      if jobs[i].name == name {
        assert (same + [jobs[i]])[..|same|] == same;
        same := same + [jobs[i]];
      }
    }
    assert jobs[..|jobs|] == jobs;
    group := [];
    for i := 0 to |same|
      invariant group == Renamed(same[..i], jobs, hash)
    {
      assert same[..i + 1][..i] == same[..i];
      group := group + [if |same| > 1 then same[i].(name := NewName(same[i], hash)) else same[i]];
    }
    assert same[..|same|] == same;
  }

  function Renamed(same: seq<Job>, all: seq<Job>, hash: Hash): seq<Job> {
    if same == [] then [] else Renamed(same[..|same| - 1], all, hash) + [Rename(all, same[|same| - 1], hash)]
  }

  /** Digests do not collide on the jobs of a list. */
  ghost predicate NoCollision(jobs: seq<Job>, hash: Hash) {
    forall i, k :: 0 <= i < |jobs| && 0 <= k < |jobs| && hash(jobs[i]) == hash(jobs[k]) ==> jobs[i] == jobs[k]
  }

  method DropRepeats(renamed: seq<Job>, hash: Hash) returns (kept: seq<Job>)
    requires NoCollision(renamed, hash)
    ensures kept == Unique(renamed)
  {
    kept := [];
    var seen := [];
    for i := 0 to |renamed|
      invariant kept == Unique(renamed[..i]) && |seen| == |kept|
      invariant forall k :: 0 <= k < |kept| ==> seen[k] == hash(kept[k])
    {
      UniqueStep(renamed, i);
      SeenMeansKept(renamed, hash, kept, seen, i);
      if hash(renamed[i]) !in seen {
        seen := seen + [hash(renamed[i])];
        kept := kept + [renamed[i]];
      }
    }
    assert renamed[..|renamed|] == renamed;
  }

  lemma UniqueStep(jobs: seq<Job>, i: nat)
    requires i < |jobs|
    ensures var earlier := Unique(jobs[..i]);
            Unique(jobs[..i + 1]) == if jobs[i] in earlier then earlier else earlier + [jobs[i]]
  {
    assert jobs[..i + 1][..i] == jobs[..i];
  }

  /** A digest was seen exactly when the job itself was kept. */
  lemma SeenMeansKept(renamed: seq<Job>, hash: Hash, kept: seq<Job>, seen: seq<string>, i: nat)
    requires NoCollision(renamed, hash) && i < |renamed|
    requires kept == Unique(renamed[..i]) && |seen| == |kept|
    requires forall k :: 0 <= k < |kept| ==> seen[k] == hash(kept[k])
    ensures hash(renamed[i]) in seen <==> renamed[i] in kept
  {
    UniqueHolds(renamed[..i]);
    if hash(renamed[i]) in seen {
      var k :| 0 <= k < |seen| && seen[k] == hash(renamed[i]);
      assert kept[k] in renamed[..i];
      var p :| 0 <= p < i && renamed[p] == kept[k];
    }
  }

  lemma RenamedDoNotCollide(jobs: seq<Job>, hash: Hash)
    requires GoodHash(jobs, hash)
    ensures NoCollision(Groups(Names(jobs), jobs, hash), hash)
  {
    var renamed := Groups(Names(jobs), jobs, hash);
    forall i, k | 0 <= i < |renamed| && 0 <= k < |renamed| && hash(renamed[i]) == hash(renamed[k])
      ensures renamed[i] == renamed[k]
    {
      GroupsHold(Names(jobs), jobs, hash, renamed[i]);
      GroupsHold(Names(jobs), jobs, hash, renamed[k]);
      var p :| 0 <= p < |jobs| && Rename(jobs, jobs[p], hash) == renamed[i];
      var q :| 0 <= q < |jobs| && Rename(jobs, jobs[q], hash) == renamed[k];
    }
  }
}
