/**
 Listing backups from object storage (`BackupListHelper`): every metadata file with a
 timestamp name is a backup, whose status follows from the files next to it.
 */
module BackupList {
  import opened Collections

  /** A stored object, by the stem and suffix of its file name. */
  datatype Object = Object(stem: string, suffix: string)

  datatype Status = InProgress | Finished | Failed

  datatype Info = Info(id: string, status: Status)

  /** `BackupInfo.from_storage`. */
  function FromStorage(id: string, checksum: bool, logFile: bool): Info {
    if !checksum && !logFile then Info(id, InProgress)
    else if !checksum && logFile then Info(id, Failed)
    else Info(id, Finished)
  }

  /** `stem.removesuffix(".backup")`: logs of older charms are named `<id>.backup.log`. */
  function LogId(stem: string): string {
    if |stem| >= 7 && stem[|stem| - 7..] == ".backup" then stem[..|stem| - 7] else stem
  }

  /** String order. */
  predicate AtMost(a: string, b: string) {
    a == [] || (b != [] && (a[0] < b[0] || (a[0] == b[0] && AtMost(a[1..], b[1..]))))
  }

  lemma {:induction false} AtMostTotal(a: string, b: string)
    ensures AtMost(a, b) || AtMost(b, a)
    ensures AtMost(a, b) && AtMost(b, a) ==> a == b
  {
    if a != [] && b != [] {
      AtMostTotal(a[1..], b[1..]);
      assert a == [a[0]] + a[1..] && b == [b[0]] + b[1..];
    }
  }

  lemma {:induction false} AtMostTransitive(a: string, b: string, c: string)
    requires AtMost(a, b) && AtMost(b, c)
    ensures AtMost(a, c)
  {
    if a != [] && a[0] == b[0] && b[0] == c[0] {
      AtMostTransitive(a[1..], b[1..], c[1..]);
    }
  }

  ghost predicate Sorted(s: seq<Info>) { forall i, j :: 0 <= i < j < |s| ==> AtMost(s[i].id, s[j].id) }

  /** `sorted(..., key=id)`, which keeps entries with equal keys in their order. */
  function Insert(s: seq<Info>, x: Info): seq<Info> {
    if s == [] then [x]
    else if AtMost(s[|s| - 1].id, x.id) then s + [x]
    else Insert(s[..|s| - 1], x) + [s[|s| - 1]]
  }

  function Sort(s: seq<Info>): seq<Info> {
    if s == [] then [] else Insert(Sort(s[..|s| - 1]), s[|s| - 1])
  }

  lemma {:induction false} InsertHolds(s: seq<Info>, x: Info)
    ensures multiset(Insert(s, x)) == multiset(s) + multiset{x}
  {
    if s != [] && !AtMost(s[|s| - 1].id, x.id) {
      InsertHolds(s[..|s| - 1], x);
      assert s == s[..|s| - 1] + [s[|s| - 1]];
    }
  }

  ghost predicate AllAtMost(s: seq<Info>, id: string) { forall i :: 0 <= i < |s| ==> AtMost(s[i].id, id) }

  lemma SortedAppend(s: seq<Info>, x: Info)
    requires Sorted(s) && AllAtMost(s, x.id)
    ensures Sorted(s + [x])
  {
  }

  lemma {:induction false} InsertSorted(s: seq<Info>, x: Info)
    requires Sorted(s)
    ensures Sorted(Insert(s, x))
  {
    if s != [] {
      var n := |s| - 1;
      if AtMost(s[n].id, x.id) {
        forall i | 0 <= i < |s| ensures AtMost(s[i].id, x.id) {
          if i < n { AtMostTransitive(s[i].id, s[n].id, x.id); }
        }
        SortedAppend(s, x);
      } else {
        InsertSorted(s[..n], x);
        InsertBelow(s, x);
        SortedAppend(Insert(s[..n], x), s[n]);
      }
    }
  }

  lemma InsertBelow(s: seq<Info>, x: Info)
    requires Sorted(s) && s != [] && !AtMost(s[|s| - 1].id, x.id)
    ensures AllAtMost(Insert(s[..|s| - 1], x), s[|s| - 1].id)
  {
    var n := |s| - 1;
    var front := Insert(s[..n], x);
    AtMostTotal(s[n].id, x.id);
    InsertHolds(s[..n], x);
    forall i | 0 <= i < |front| ensures AtMost(front[i].id, s[n].id) {
      assert front[i] in multiset(s[..n]) + multiset{x};
      if front[i] != x { var k :| 0 <= k < n && s[..n][k] == front[i]; }
    }
  }

  lemma {:induction false} SortHolds(s: seq<Info>)
    ensures multiset(Sort(s)) == multiset(s)
  {
    if s != [] {
      var n := |s| - 1;
      SortHolds(s[..n]);
      InsertHolds(Sort(s[..n]), s[n]);
      Snoc(s);
    }
  }

  /** Sorting gives a sorted list of the same entries. */
  lemma {:induction false} SortSorted(s: seq<Info>)
    ensures Sorted(Sort(s)) && multiset(Sort(s)) == multiset(s)
  {
    SortHolds(s);
    if s != [] {
      var n := |s| - 1;
      SortSorted(s[..n]);
      InsertSorted(Sort(s[..n]), s[n]);
    }
  }

  /** Entries with the same id are the same entry. */
  ghost predicate KeyDetermines(s: seq<Info>) {
    forall i, j :: 0 <= i < |s| && 0 <= j < |s| && s[i].id == s[j].id ==> s[i] == s[j]
  }

  /** Two sorted lists of the same entries are the same list. */
  lemma {:induction false} SortedIsUnique(a: seq<Info>, b: seq<Info>)
    requires Sorted(a) && Sorted(b) && multiset(a) == multiset(b) && KeyDetermines(a)
    ensures a == b
  {
    if a == [] {
      assert |multiset(b)| == 0;
    } else {
      assert |multiset(a)| == |multiset(b)|;
      HeadsAgree(a, b);
      TailsAgree(a, b);
      SortedIsUnique(a[1..], b[1..]);
      assert a == [a[0]] + a[1..] && b == [b[0]] + b[1..];
    }
  }

  lemma TailsAgree(a: seq<Info>, b: seq<Info>)
    requires multiset(a) == multiset(b) && a != [] && b != [] && a[0] == b[0]
    ensures multiset(a[1..]) == multiset(b[1..])
  {
    assert a == [a[0]] + a[1..] && b == [b[0]] + b[1..];
    assert multiset(a[1..]) == multiset(a) - multiset{a[0]};
    assert multiset(b[1..]) == multiset(b) - multiset{b[0]};
  }

  lemma HeadsAgree(a: seq<Info>, b: seq<Info>)
    requires Sorted(a) && Sorted(b) && multiset(a) == multiset(b) && KeyDetermines(a) && a != [] && b != []
    ensures a[0] == b[0]
  {
    assert a[0] in multiset(b) && b[0] in multiset(a);
    var i :| 0 <= i < |b| && b[i] == a[0];
    var j :| 0 <= j < |a| && a[j] == b[0];
    AtMostTotal(a[0].id, b[0].id);
    assert i > 0 ==> AtMost(b[0].id, b[i].id);
    assert j > 0 ==> AtMost(a[0].id, a[j].id);
  }

  function Ids(objects: seq<Object>, valid: string -> bool): seq<string> {
    if objects == [] then []
    else
      var last := objects[|objects| - 1];
      Ids(objects[..|objects| - 1], valid)
        + (if last.suffix == ".metadata" && valid(last.stem) then [last.stem] else [])
  }

  predicate HasChecksum(objects: seq<Object>, id: string) { Object(id, ".md5") in objects }

  predicate HasLog(objects: seq<Object>, id: string) {
    exists i :: 0 <= i < |objects| && objects[i].suffix == ".log" && LogId(objects[i].stem) == id
  }

  function InfoOf(objects: seq<Object>, id: string): Info {
    FromStorage(id, HasChecksum(objects, id), HasLog(objects, id))
  }

  function Infos(ids: seq<string>, objects: seq<Object>): seq<Info> {
    if ids == [] then [] else Infos(ids[..|ids| - 1], objects) + [InfoOf(objects, ids[|ids| - 1])]
  }

  function Listing(objects: seq<Object>, valid: string -> bool): seq<Info> { Sort(Infos(Ids(objects, valid), objects)) }

  function Flatten(pages: seq<seq<Object>>): seq<Object> {
    if pages == [] then [] else Flatten(pages[..|pages| - 1]) + pages[|pages| - 1]
  }

  lemma {:induction false} InfosAt(ids: seq<string>, objects: seq<Object>)
    ensures |Infos(ids, objects)| == |ids|
    ensures forall i :: 0 <= i < |ids| ==> Infos(ids, objects)[i] == InfoOf(objects, ids[i])
  {
    if ids != [] { InfosAt(ids[..|ids| - 1], objects); }
  }

  /** How often an object counts as a backup of some id. */
  function IdCount(m: multiset<Object>, id: string, valid: string -> bool): nat {
    if valid(id) then m[Object(id, ".metadata")] else 0
  }

  lemma {:induction false} IdsCount(objects: seq<Object>, valid: string -> bool, id: string)
    ensures multiset(Ids(objects, valid))[id] == IdCount(multiset(objects), id, valid)
  {
    if objects != [] {
      var n := |objects| - 1;
      IdsCount(objects[..n], valid, id);
      Snoc(objects);
    }
  }

  lemma WithoutOne(b: seq<string>, k: nat)
    requires k < |b|
    ensures multiset(b[..k] + b[k + 1..]) == multiset(b) - multiset{b[k]}
  {
    assert b == b[..k] + [b[k]] + b[k + 1..];
    assert multiset(b) == multiset(b[..k]) + multiset{b[k]} + multiset(b[k + 1..]);
  }

  lemma {:induction false} InfosMultiset(a: seq<string>, b: seq<string>, objects: seq<Object>)
    requires multiset(a) == multiset(b)
    ensures multiset(Infos(a, objects)) == multiset(Infos(b, objects))
  {
    if a == [] {
      assert |multiset(b)| == 0;
    } else {
      var n := |a| - 1;
      assert a[n] in multiset(b);
      var k :| 0 <= k < |b| && b[k] == a[n];
      assert a == a[..n] + [a[n]];
      assert multiset(a[..n]) == multiset(a) - multiset{a[n]};
      WithoutOne(b, k);
      InfosMultiset(a[..n], b[..k] + b[k + 1..], objects);
      InfosWithoutOne(b, k, objects);
    }
  }

  lemma InfosWithoutOne(b: seq<string>, k: nat, objects: seq<Object>)
    requires k < |b|
    ensures multiset(Infos(b, objects)) ==
            multiset(Infos(b[..k] + b[k + 1..], objects)) + multiset{InfoOf(objects, b[k])}
  {
    InfosAround(b, k, objects);
    InfosSplit(b[..k], b[k + 1..], objects);
    MiddleOut(Infos(b[..k], objects), InfoOf(objects, b[k]), Infos(b[k + 1..], objects));
  }

  lemma InfosAround(b: seq<string>, k: nat, objects: seq<Object>)
    requires k < |b|
    ensures Infos(b, objects) == Infos(b[..k], objects) + [InfoOf(objects, b[k])] + Infos(b[k + 1..], objects)
  {
    InfosSplit(b[..k] + [b[k]], b[k + 1..], objects);
    assert (b[..k] + [b[k]])[..k] == b[..k];
    assert b[..k] + [b[k]] + b[k + 1..] == b;
  }

  lemma MiddleOut(front: seq<Info>, x: Info, back: seq<Info>)
    ensures multiset(front + [x] + back) == multiset(front + back) + multiset{x}
  {
  }

  lemma {:induction false} InfosSplit(a: seq<string>, b: seq<string>, objects: seq<Object>)
    ensures Infos(a + b, objects) == Infos(a, objects) + Infos(b, objects)
  {
    if b == [] {
      assert a + b == a;
    } else {
      assert (a + b)[..|a + b| - 1] == a + b[..|b| - 1];
      InfosSplit(a, b[..|b| - 1], objects);
    }
  }

  lemma SameInfo(a: seq<Object>, b: seq<Object>, id: string)
    requires multiset(a) == multiset(b)
    ensures InfoOf(a, id) == InfoOf(b, id)
  {
    assert Object(id, ".md5") in a <==> Object(id, ".md5") in multiset(a);
    assert Object(id, ".md5") in b <==> Object(id, ".md5") in multiset(b);
    SameLog(a, b, id);
    SameLog(b, a, id);
  }

  lemma SameLog(a: seq<Object>, b: seq<Object>, id: string)
    requires multiset(a) <= multiset(b)
    ensures HasLog(a, id) ==> HasLog(b, id)
  {
    if HasLog(a, id) {
      var i :| 0 <= i < |a| && a[i].suffix == ".log" && LogId(a[i].stem) == id;
      assert a[i] in multiset(a);
      assert a[i] in multiset(b);
      var k :| 0 <= k < |b| && b[k] == a[i];
    }
  }

  lemma {:induction false} SameInfos(ids: seq<string>, a: seq<Object>, b: seq<Object>)
    requires multiset(a) == multiset(b)
    ensures Infos(ids, a) == Infos(ids, b)
  {
    if ids != [] {
      SameInfos(ids[..|ids| - 1], a, b);
      SameInfo(a, b, ids[|ids| - 1]);
    }
  }

  /** The listing does not depend on the order of objects, and hence not on how they are paged. */
  lemma ListingIgnoresOrder(a: seq<Object>, b: seq<Object>, valid: string -> bool)
    requires multiset(a) == multiset(b)
    ensures Listing(a, valid) == Listing(b, valid)
  {
    var x, y := Infos(Ids(a, valid), a), Infos(Ids(b, valid), b);
    forall id ensures multiset(Ids(a, valid))[id] == multiset(Ids(b, valid))[id] {
      IdsCount(a, valid, id);
      IdsCount(b, valid, id);
    }
    InfosMultiset(Ids(a, valid), Ids(b, valid), a);
    SameInfos(Ids(b, valid), a, b);
    SortSorted(x);
    SortSorted(y);
    SortKeepsKeys(Ids(a, valid), a);
    SortedIsUnique(Sort(x), Sort(y));
  }

  lemma SortKeepsKeys(ids: seq<string>, objects: seq<Object>)
    ensures KeyDetermines(Sort(Infos(ids, objects)))
  {
    var s := Infos(ids, objects);
    SortSorted(s);
    InfosAt(ids, objects);
    forall i | 0 <= i < |Sort(s)| ensures Sort(s)[i] == InfoOf(objects, Sort(s)[i].id) {
      assert Sort(s)[i] in multiset(Sort(s));
      var k :| 0 <= k < |s| && s[k] == Sort(s)[i];
    }
  }

  /** A log belongs to a backup when it is named after it, with or without `.backup`. */
  lemma LogIdMeans(stem: string, id: string)
    ensures LogId(stem) == id <==>
            stem == id + ".backup" || (stem == id && !(|id| >= 7 && id[|id| - 7..] == ".backup"))
  {
    if |stem| >= 7 && stem[|stem| - 7..] == ".backup" {
      assert stem == stem[..|stem| - 7] + ".backup";
    }
    assert (id + ".backup")[|id|..] == ".backup" && (id + ".backup")[..|id|] == id;
  }

  lemma HasLogMeans(objects: seq<Object>, id: string)
    ensures HasLog(objects, id) <==>
            || Object(id + ".backup", ".log") in objects
            || (Object(id, ".log") in objects && !(|id| >= 7 && id[|id| - 7..] == ".backup"))
  {
    if HasLog(objects, id) {
      var i :| 0 <= i < |objects| && objects[i].suffix == ".log" && LogId(objects[i].stem) == id;
      LogIdMeans(objects[i].stem, id);
      assert objects[i] in objects && objects[i] == Object(objects[i].stem, ".log");
    }
    LogIdMeans(id, id);
    LogIdMeans(id + ".backup", id);
    if Object(id + ".backup", ".log") in objects {
      var i :| 0 <= i < |objects| && objects[i] == Object(id + ".backup", ".log");
    }
    if Object(id, ".log") in objects {
      var i :| 0 <= i < |objects| && objects[i] == Object(id, ".log");
    }
  }

  /** The status that the files next to a backup's metadata call for. */
  ghost predicate StatusIs(objects: seq<Object>, id: string, status: Status) {
    status ==
    if Object(id, ".md5") in objects then Finished
    else if || Object(id + ".backup", ".log") in objects
            || (Object(id, ".log") in objects && !(|id| >= 7 && id[|id| - 7..] == ".backup"))
    then Failed
    else InProgress
  }

  lemma InfoIs(objects: seq<Object>, id: string)
    ensures InfoOf(objects, id).id == id && StatusIs(objects, id, InfoOf(objects, id).status)
  {
    HasLogMeans(objects, id);
  }

  lemma {:induction false} InfosCount(ids: seq<string>, objects: seq<Object>, x: Info)
    ensures multiset(Infos(ids, objects))[x] == if x == InfoOf(objects, x.id) then multiset(ids)[x.id] else 0
  {
    if ids != [] {
      var n := |ids| - 1;
      InfosCount(ids[..n], objects, x);
      Snoc(ids);
      InfoIs(objects, ids[n]);
    }
  }

  /**
   The listing, entry by entry: an id is listed once per metadata file whose name is a timestamp, with the status
   that its checksum and log files call for, and with no other.
   */
  lemma ListingExactly(objects: seq<Object>, valid: string -> bool, x: Info)
    ensures multiset(Listing(objects, valid))[x] ==
            if valid(x.id) && StatusIs(objects, x.id, x.status) then multiset(objects)[Object(x.id, ".metadata")] else 0
  {
    var ids := Ids(objects, valid);
    SortSorted(Infos(ids, objects));
    InfosCount(ids, objects, x);
    IdsCount(objects, valid, x.id);
    InfoIs(objects, x.id);
  }

  /** The order of ids is that of their first different characters, a beginning coming before what continues it. */
  lemma {:induction false} AtMostAfter(p: string, a: string, b: string)
    ensures AtMost(p + a, p + b) <==> AtMost(a, b)
  {
    if p == [] {
      assert p + a == a && p + b == b;
    } else {
      assert (p + a)[1..] == p[1..] + a && (p + b)[1..] == p[1..] + b;
      AtMostAfter(p[1..], a, b);
    }
  }

  lemma AtMostDiffers(p: string, c: char, a: string, d: char, b: string)
    requires c < d
    ensures AtMost(p + ([c] + a), p + ([d] + b)) && !AtMost(p + ([d] + b), p + ([c] + a))
    ensures AtMost(p, p + ([c] + a)) && !AtMost(p + ([c] + a), p)
  {
    AtMostAfter(p, [c] + a, [d] + b);
    AtMostAfter(p, [d] + b, [c] + a);
    AtMostAfter(p, [], [c] + a);
    AtMostAfter(p, [c] + a, []);
    assert p + [] == p;
  }

  predicate NoWorse(before: Status, after: Status) {
    (before == Finished ==> after == Finished) && (before == Failed ==> after != InProgress)
  }

  /** New objects never turn a finished backup into anything else, nor a failed one back into progress. */
  lemma StatusOnlyAdvances(a: seq<Object>, b: seq<Object>, id: string)
    requires multiset(a) <= multiset(b)
    ensures NoWorse(InfoOf(a, id).status, InfoOf(b, id).status)
  {
    SameLog(a, b, id);
    if HasChecksum(a, id) {
      assert Object(id, ".md5") in multiset(a);
      assert Object(id, ".md5") in multiset(b);
    }
  }

  /** One page of objects, added to the three id lists that `collect_backups` fills. */
  method CollectPage(ghost before: seq<Object>, page: seq<Object>, valid: string -> bool,
                     metadataBefore: seq<string>, checksumsBefore: seq<string>, logsBefore: seq<string>)
      returns (metadataIds: seq<string>, checksumIds: seq<string>, logIds: seq<string>)
    requires Collected(before, valid, metadataBefore, checksumsBefore, logsBefore)
    ensures Collected(before + page, valid, metadataIds, checksumIds, logIds)
  {
    metadataIds, checksumIds, logIds := metadataBefore, checksumsBefore, logsBefore;
    ghost var seen := before;
    for i := 0 to |page|
      invariant seen == before + page[..i]
      invariant Collected(seen, valid, metadataIds, checksumIds, logIds)
    {
      var o := page[i];
      CollectOne(seen, o, valid, metadataIds, checksumIds, logIds);
      if o.suffix == ".metadata" {
        if valid(o.stem) {
          metadataIds := metadataIds + [o.stem];
        }
      } else if o.suffix == ".md5" {
        checksumIds := checksumIds + [o.stem];
      } else if o.suffix == ".log" {
        logIds := logIds + [LogId(o.stem)];
      }
      assert seen + [o] == before + page[..i + 1];
      seen := seen + [o];
    }
    assert page[..|page|] == page;
  }

  /** The three id lists that `collect_backups` fills page by page. */
  method CollectIds(pages: seq<seq<Object>>, valid: string -> bool)
      returns (metadataIds: seq<string>, checksumIds: seq<string>, logIds: seq<string>)
    ensures Collected(Flatten(pages), valid, metadataIds, checksumIds, logIds)
  {
    metadataIds, checksumIds, logIds := [], [], [];
    ghost var seen: seq<Object> := [];
    for p := 0 to |pages|
      invariant seen == Flatten(pages[..p])
      invariant Collected(seen, valid, metadataIds, checksumIds, logIds)
    {
      metadataIds, checksumIds, logIds := CollectPage(seen, pages[p], valid, metadataIds, checksumIds, logIds);
      seen := seen + pages[p];
      assert pages[..p + 1][..p] == pages[..p];
    }
    assert pages[..|pages|] == pages;
  }

  /** `collect_backups`. */
  method CollectBackups(pages: seq<seq<Object>>, valid: string -> bool) returns (backups: seq<Info>)
    ensures backups == Listing(Flatten(pages), valid)
    ensures Sorted(backups)
    ensures forall x :: multiset(backups)[x] == if valid(x.id) && StatusIs(Flatten(pages), x.id, x.status)
                                               then multiset(Flatten(pages))[Object(x.id, ".metadata")] else 0
  {
    var metadataIds, checksumIds, logIds := CollectIds(pages, valid);
    var infos := [];
    for i := 0 to |metadataIds|
      invariant infos == Infos(metadataIds[..i], Flatten(pages))
    {
      var id := metadataIds[i];
      assert metadataIds[..i + 1][..i] == metadataIds[..i];
      infos := infos + [FromStorage(id, id in checksumIds, id in logIds)];
    }
    assert metadataIds[..|metadataIds|] == metadataIds;
    SortSorted(infos);
    backups := Sort(infos);
    forall x ensures multiset(backups)[x] == if valid(x.id) && StatusIs(Flatten(pages), x.id, x.status)
                                            then multiset(Flatten(pages))[Object(x.id, ".metadata")] else 0
    {
      ListingExactly(Flatten(pages), valid, x);
    }
  }

  /** What the three lists hold after some objects. */
  ghost predicate Collected(seen: seq<Object>, valid: string -> bool, ids: seq<string>, checksums: seq<string>,
                            logs: seq<string>) {
    && ids == Ids(seen, valid)
    && (forall id :: id in checksums <==> HasChecksum(seen, id))
    && (forall id :: id in logs <==> HasLog(seen, id))
  }

  lemma CollectOne(seen: seq<Object>, o: Object, valid: string -> bool, ids: seq<string>, checksums: seq<string>,
                   logs: seq<string>)
    requires Collected(seen, valid, ids, checksums, logs)
    ensures o.suffix == ".metadata" ==>
            Collected(seen + [o], valid, if valid(o.stem) then ids + [o.stem] else ids, checksums, logs)
    ensures o.suffix == ".md5" ==> Collected(seen + [o], valid, ids, checksums + [o.stem], logs)
    ensures o.suffix == ".log" ==> Collected(seen + [o], valid, ids, checksums, logs + [LogId(o.stem)])
    ensures o.suffix != ".metadata" && o.suffix != ".md5" && o.suffix != ".log" ==>
            Collected(seen + [o], valid, ids, checksums, logs)
  {
    assert (seen + [o])[..|seen|] == seen;
    forall id ensures HasLog(seen + [o], id) <==> HasLog(seen, id) || (o.suffix == ".log" && LogId(o.stem) == id) {
      if HasLog(seen, id) {
        var i :| 0 <= i < |seen| && seen[i].suffix == ".log" && LogId(seen[i].stem) == id;
        assert (seen + [o])[i] == seen[i];
      }
      if o.suffix == ".log" && LogId(o.stem) == id { assert (seen + [o])[|seen|] == o; }
    }
  }
}
