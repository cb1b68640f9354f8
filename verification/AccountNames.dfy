/**
 Generated account names under MySQL's length limits: the user of a relation
 (`_build_database_relation_username`) and the DBA role of a database
 (`_build_database_dba_role`).
 */
module AccountNames {
  import opened Text

  const USERNAME_LENGTH: nat := 26
  const USERNAME_PREFIX: string := "relation-"

  function Take(s: string, n: nat): string { if |s| <= n then s else s[..n] }

  /** The model id is the model's UUID without dashes. */
  function Username(id: nat, modelId: string): string {
    Take(USERNAME_PREFIX + Decimal(id) + "_" + modelId, USERNAME_LENGTH)
  }

  /** How many digits fit before the name is cut. */
  const ROOM: nat := 17

  /** Both ids are too long to end inside the name, and start alike. */
  predicate SameStart(a: nat, b: nat) {
    |Decimal(a)| >= ROOM && |Decimal(b)| >= ROOM && Decimal(a)[..ROOM] == Decimal(b)[..ROOM]
  }

  /** The name after its prefix: digits, then an underscore if it still fits. */
  lemma UsernameShape(id: nat, modelId: string)
    ensures var u, d := Username(id, modelId), Decimal(id);
            && |u| >= 9 && |u| <= USERNAME_LENGTH
            && (|d| < ROOM ==> |u| > 9 + |d| && u[9..9 + |d|] == d && u[9 + |d|] == '_')
            && (|d| >= ROOM ==> u == USERNAME_PREFIX + d[..ROOM])
  {
    var d := Decimal(id);
    var full := USERNAME_PREFIX + d + "_" + modelId;
    assert |USERNAME_PREFIX| == 9;
    assert full[9..9 + |d|] == d && full[9 + |d|] == '_';
    if |d| >= ROOM {
      assert full[..26] == USERNAME_PREFIX + d[..ROOM];
    } else {
      assert Username(id, modelId)[9..9 + |d|] == d;
    }
  }

  /** Two relations share a user name exactly when both ids have at least 17 digits and agree on the first 17. */
  lemma UsernamesCollideExactly(a: nat, b: nat, modelId: string)
    ensures Username(a, modelId) == Username(b, modelId) <==> a == b || SameStart(a, b)
  {
    UsernameShape(a, modelId);
    UsernameShape(b, modelId);
    var u, v := Username(a, modelId), Username(b, modelId);
    if u == v {
      var da, db := Decimal(a), Decimal(b);
      if |da| < ROOM && |db| < ROOM {
        assert da == db;
        DecimalInjective(a, b);
      } else if |da| >= ROOM && |db| >= ROOM {
        assert u[9..] == da[..ROOM] && v[9..] == db[..ROOM];
      }
    }
  }

  lemma SameFront(digits: string, c: char, d: char)
    requires |digits| >= ROOM
    ensures (digits + [c])[..ROOM] == (digits + [d])[..ROOM]
  {
    assert (digits + [c])[..ROOM] == digits[..ROOM] && (digits + [d])[..ROOM] == digits[..ROOM];
  }

  lemma LongNumeralsStartAlike(n: nat, a: nat, b: nat)
    requires |Decimal(n)| >= ROOM && a == 10 * n && b == 10 * n + 1
    ensures SameStart(a, b)
  {
    DecimalAppend(n, 0);
    DecimalAppend(n, 1);
    SameFront(Decimal(n), Digit(0), Digit(1));
  }

  /** A short id is followed by an underscore and as much of the model id as fits in 26 characters. */
  lemma UsernameExactly(id: nat, modelId: string)
    ensures |Username(id, modelId)| <= 26
    ensures |Decimal(id)| < 17 ==>
              && "relation-" + Decimal(id) + "_" <= Username(id, modelId)
              && Username(id, modelId)[10 + |Decimal(id)|..] <= modelId
              && (|Username(id, modelId)| == 26 || Username(id, modelId)[10 + |Decimal(id)|..] == modelId)
    ensures |Decimal(id)| >= 17 ==> Username(id, modelId) == "relation-" + Decimal(id)[..17]
  {
    UsernameShape(id, modelId);
    var front := "relation-" + Decimal(id) + "_";
    assert |"relation-"| == 9 && |front| == 10 + |Decimal(id)|;
    if |Decimal(id)| < 17 { TakeOf(front, modelId, 26); }
  }

  lemma TakeOf(front: string, back: string, n: nat)
    requires |front| <= n
    ensures front <= Take(front + back, n) && Take(front + back, n)[|front|..] <= back
    ensures |Take(front + back, n)| == n || Take(front + back, n)[|front|..] == back
  {
    var t := Take(front + back, n);
    assert t[|front|..] == back[..|t| - |front|];
  }

  /** Two ids that differ only in a digit after the seventeenth share a user name. */
  lemma LongIdsCollide(n: nat, modelId: string)
    requires |Decimal(n)| >= ROOM
    ensures Username(10 * n, modelId) == Username(10 * n + 1, modelId)
  {
    LongNumeralsStartAlike(n, 10 * n, 10 * n + 1);
    UsernamesCollideExactly(10 * n, 10 * n + 1, modelId);
  }

  lemma SeventeenDigits()
    ensures |Decimal(10_000_000_000_000_000)| >= ROOM
  {
    assert Pow10(4) == 10_000;
    assert Pow10(8) == 100_000_000;
    assert Pow10(12) == 1_000_000_000_000;
    assert Pow10(16) == 10_000_000_000_000_000;
    DecimalLength(10_000_000_000_000_000, 16);
  }

  /** The first two ids of 18 digits share a user name. */
  lemma SharedUsername(modelId: string)
    ensures Username(100_000_000_000_000_000, modelId) == Username(100_000_000_000_000_001, modelId)
  {
    SeventeenDigits();
    LongIdsCollide(10_000_000_000_000_000, modelId);
  }

  /** Below 10^16 every relation has a user name of its own. */
  lemma UsernamesDistinct(a: nat, b: nat, modelId: string)
    requires a != b && a < Pow10(16)
    ensures Username(a, modelId) != Username(b, modelId)
    ensures |Username(a, modelId)| <= USERNAME_LENGTH
  {
    DecimalLength(a, 16);
    UsernamesCollideExactly(a, b, modelId);
    UsernameShape(a, modelId);
  }

  /** An account made for a relation, or one that a relation's user made and marked as its own. */
  datatype Account = OfRelation(r: nat) | Child(creator: string)

  type Accounts = map<string, Account>

  /** How far the deletion of a relation's user and then of the accounts it made gets. */
  datatype Deletion = Failed | UserOnly | Whole

  /** `ok` tells whether the account statement went through. */
  datatype Event =
    | Requested(r: nat, ok: bool)
    | Created(r: nat, name: string)
    | Broken(r: nat, removing: bool, leader: bool, deletion: Deletion)

  /** A unit being removed, or not leading, deletes nothing. */
  predicate Deletes(e: Event) { e.Broken? && !e.removing && e.leader && e.deletion != Failed }

  function WithoutChildren(accounts: Accounts, user: string): Accounts {
    map u | u in accounts && accounts[u] != Child(user) :: accounts[u]
  }

  /** `_set_database_user`, the relation's user making an account, and `_on_relation_broken`. */
  function Handle(accounts: Accounts, e: Event, modelId: string): Accounts {
    var user := Username(e.r, modelId);
    match e
    case Requested(r, ok) => if ok then accounts[user := OfRelation(r)] else accounts
    case Created(_, name) => if user in accounts && name !in accounts then accounts[name := Child(user)] else accounts
    case Broken(_, _, _, deletion) =>
      if !Deletes(e) then accounts
      else if deletion == UserOnly then accounts - {user}
      else WithoutChildren(accounts - {user}, user)
  }

  function HandleAll(accounts: Accounts, run: seq<Event>, modelId: string): Accounts {
    if run == [] then accounts else Handle(HandleAll(accounts, run[..|run| - 1], modelId), run[|run| - 1], modelId)
  }

  /** No two relations have colliding ids, and accounts made by users are not named like relation users. */
  ghost predicate Apart(run: seq<Event>) {
    && (forall i, j :: 0 <= i < |run| && 0 <= j < |run| && SameStart(run[i].r, run[j].r) ==> run[i].r == run[j].r)
    && (forall i :: 0 <= i < |run| && run[i].Created? ==> !(USERNAME_PREFIX <= run[i].name))
  }

  /** The relation was requested with success, and no event has deleted its user since. */
  predicate Undeleted(run: seq<Event>, r: nat) {
    run != [] &&
    var last := run[|run| - 1];
    if last.r == r && last.Requested? && last.ok then true
    else if last.r == r && Deletes(last) then false
    else Undeleted(run[..|run| - 1], r)
  }

  predicate Owned(accounts: Accounts, modelId: string, r: nat) {
    Username(r, modelId) in accounts && accounts[Username(r, modelId)] == OfRelation(r)
  }

  lemma {:induction false} UndeletedOccurs(run: seq<Event>, r: nat)
    requires Undeleted(run, r)
    ensures exists i :: 0 <= i < |run| && run[i].r == r
  {
    var n := |run| - 1;
    if run[n].r != r {
      UndeletedOccurs(run[..n], r);
      var i :| 0 <= i < n && run[..n][i].r == r;
      assert run[i].r == r;
    }
  }

  lemma OtherAccountKept(run: seq<Event>, modelId: string, r: nat)
    requires Apart(run) && run != [] && Undeleted(run, r)
    ensures run[|run| - 1].r != r ==> Username(run[|run| - 1].r, modelId) != Username(r, modelId)
  {
    UndeletedOccurs(run, r);
    var i :| 0 <= i < |run| && run[i].r == r;
    assert SameStart(run[i].r, run[|run| - 1].r) ==> run[i].r == run[|run| - 1].r;
    UsernamesCollideExactly(run[|run| - 1].r, r, modelId);
  }

  lemma NamedLikeRelation(r: nat, modelId: string)
    ensures USERNAME_PREFIX <= Username(r, modelId)
  {
    var full := USERNAME_PREFIX + Decimal(r) + "_" + modelId;
    assert |USERNAME_PREFIX| == 9;
    assert full[..9] == USERNAME_PREFIX && Username(r, modelId)[..9] == full[..9];
  }

  lemma OwnedStays(accounts: Accounts, e: Event, modelId: string, r: nat)
    requires Owned(accounts, modelId, r)
    requires e.r != r ==> Username(e.r, modelId) != Username(r, modelId)
    requires !(e.r == r && Deletes(e)) && (e.Created? ==> !(USERNAME_PREFIX <= e.name))
    ensures Owned(Handle(accounts, e, modelId), modelId, r)
  {
    NamedLikeRelation(r, modelId);
  }

  /**
   In every run the relations' accounts are exactly those requested and not deleted since, each its own:
   breaking one relation never removes the account of another.
   */
  lemma {:induction false} AccountsMatchRelations(run: seq<Event>, modelId: string, u: string)
    requires Apart(run)
    ensures var accounts := HandleAll(map[], run, modelId);
            u in accounts && accounts[u].OfRelation? ==>
              u == Username(accounts[u].r, modelId) && Undeleted(run, accounts[u].r)
    ensures forall r :: Undeleted(run, r) ==> Owned(HandleAll(map[], run, modelId), modelId, r)
  {
    if run != [] {
      var n := |run| - 1;
      AccountsMatchRelations(run[..n], modelId, u);
      forall r | Undeleted(run, r) ensures Owned(HandleAll(map[], run, modelId), modelId, r) {
        OtherAccountKept(run, modelId, r);
        if !(run[n].r == r && run[n].Requested? && run[n].ok) {
          OwnedStays(HandleAll(map[], run[..n], modelId), run[n], modelId, r);
        }
      }
    }
  }

  /** An account named like a relation's user is one. */
  lemma {:induction false} UsersAreUndeleted(run: seq<Event>, modelId: string, user: string)
    requires Apart(run) && user in HandleAll(map[], run, modelId) && USERNAME_PREFIX <= user
    ensures var a := HandleAll(map[], run, modelId)[user];
            a.OfRelation? && user == Username(a.r, modelId) && Undeleted(run, a.r)
  {
    var n := |run| - 1;
    AccountsMatchRelations(run, modelId, user);
    var before := HandleAll(map[], run[..n], modelId);
    if user in before { UsersAreUndeleted(run[..n], modelId, user); }
  }

  // When the account of a relation that is gone stays behind.

  /** The event is the relation's last successful request. */
  ghost predicate LastRequest(run: seq<Event>, r: nat, i: nat) {
    i < |run| && run[i] == Requested(r, true) && forall j :: i < j < |run| ==> run[j] != Requested(r, true)
  }

  /** The relation has been broken since its last request. */
  ghost predicate Gone(run: seq<Event>, r: nat, i: nat) {
    LastRequest(run, r, i) && exists j :: i < j < |run| && run[j].r == r && run[j].Broken?
  }

  ghost predicate NotDeletedSince(run: seq<Event>, r: nat, i: nat) {
    forall j :: i < j < |run| && run[j].r == r ==> !Deletes(run[j])
  }

  lemma {:induction false} UndeletedMeans(run: seq<Event>, r: nat, i: nat)
    requires LastRequest(run, r, i)
    ensures Undeleted(run, r) <==> NotDeletedSince(run, r, i)
  {
    var n := |run| - 1;
    if i < n {
      assert LastRequest(run[..n], r, i);
      UndeletedMeans(run[..n], r, i);
      assert run[n] != Requested(r, true);
      assert NotDeletedSince(run, r, i) <==> NotDeletedSince(run[..n], r, i) && !(run[n].r == r && Deletes(run[n]));
    }
  }

  /**
   The account of a relation that is gone stays behind exactly when none of its breaks deleted it: each was
   handled by a unit being removed or not leading, or its deletion failed.
   */
  lemma LeakedExactly(run: seq<Event>, modelId: string, r: nat, i: nat)
    requires Apart(run) && Gone(run, r, i)
    ensures Username(r, modelId) in HandleAll(map[], run, modelId) <==>
            forall j :: i < j < |run| && run[j].r == r && run[j].Broken? ==>
              run[j].removing || !run[j].leader || run[j].deletion == Failed
  {
    var user := Username(r, modelId);
    UndeletedMeans(run, r, i);
    AccountsMatchRelations(run, modelId, user);
    if user in HandleAll(map[], run, modelId) {
      NamedLikeRelation(r, modelId);
      UsersAreUndeleted(run, modelId, user);
      SameUserSameRelation(run, modelId, HandleAll(map[], run, modelId)[user].r, i);
    }
  }

  lemma SameUserSameRelation(run: seq<Event>, modelId: string, q: nat, i: nat)
    requires Apart(run) && i < |run| && Undeleted(run, q) && Username(q, modelId) == Username(run[i].r, modelId)
    ensures q == run[i].r
  {
    UndeletedOccurs(run, q);
    var k :| 0 <= k < |run| && run[k].r == q;
    UsernamesCollideExactly(q, run[i].r, modelId);
  }

  lemma TwoEvents(modelId: string, first: Event, second: Event)
    ensures HandleAll(map[], [first, second], modelId) == Handle(Handle(map[], first, modelId), second, modelId)
  {
    var run := [first, second];
    assert run[..1] == [first] && [first][..0] == [];
    assert HandleAll(map[], [first], modelId) == Handle(map[], first, modelId);
  }

  /** A deletion that fails is only logged: the relation is gone, its account is not. */
  lemma LeakOnFailure(r: nat, modelId: string)
    ensures var run := [Requested(r, true), Broken(r, false, true, Failed)];
            Gone(run, r, 0) && Username(r, modelId) in HandleAll(map[], run, modelId)
  {
    var run := [Requested(r, true), Broken(r, false, true, Failed)];
    assert run[1].Broken?;
    TwoEvents(modelId, run[0], run[1]);
  }

  /** A leader that is being removed deletes nothing: the relation is gone, its account is not. */
  lemma LeakOnRemoval(r: nat, modelId: string)
    ensures var run := [Requested(r, true), Broken(r, true, true, Whole)];
            Gone(run, r, 0) && Username(r, modelId) in HandleAll(map[], run, modelId)
  {
    var run := [Requested(r, true), Broken(r, true, true, Whole)];
    assert run[1].Broken?;
    TwoEvents(modelId, run[0], run[1]);
  }

  // When the accounts made by a relation's user are left without it.

  ghost predicate HasChild(accounts: Accounts, user: string) {
    exists u :: u in accounts && accounts[u] == Child(user)
  }

  /** The user is gone and accounts it made are not. */
  ghost predicate Orphaned(accounts: Accounts, user: string) { user !in accounts && HasChild(accounts, user) }

  /** No relation of the run collides with `r`, and accounts made by users are not named like relation users. */
  ghost predicate ApartFrom(run: seq<Event>, r: nat) {
    && (forall i :: 0 <= i < |run| && SameStart(run[i].r, r) ==> run[i].r == r)
    && (forall i :: 0 <= i < |run| && run[i].Created? ==> !(USERNAME_PREFIX <= run[i].name))
  }

  predicate StopsHalfWay(e: Event, r: nat) { e.r == r && Deletes(e) && e.deletion == UserOnly }

  /** The event gives the relation a user again, or deletes what its user made. */
  predicate MakesGood(e: Event, r: nat) {
    e.r == r && (e == Requested(r, true) || (Deletes(e) && e.deletion == Whole))
  }

  /** The event deleted the relation's user but not the accounts it had made, and none since has made that good. */
  ghost predicate StoppedAt(run: seq<Event>, modelId: string, r: nat, i: nat) {
    && i < |run| && StopsHalfWay(run[i], r)
    && HasChild(HandleAll(map[], run[..i], modelId), Username(r, modelId))
    && forall j :: i < j < |run| ==> !MakesGood(run[j], r)
  }

  ghost predicate ChildrenApart(accounts: Accounts) {
    forall u :: u in accounts && accounts[u].Child? ==> !(USERNAME_PREFIX <= u)
  }

  lemma {:induction false} RunChildrenApart(run: seq<Event>, modelId: string)
    requires forall i :: 0 <= i < |run| && run[i].Created? ==> !(USERNAME_PREFIX <= run[i].name)
    ensures ChildrenApart(HandleAll(map[], run, modelId))
  {
    if run != [] { RunChildrenApart(run[..|run| - 1], modelId); }
  }

  /** An event of another relation neither adds nor removes this relation's user or what it made. */
  lemma OtherEvent(accounts: Accounts, e: Event, modelId: string, user: string)
    requires ChildrenApart(accounts) && USERNAME_PREFIX <= user && Username(e.r, modelId) != user
    requires e.Created? ==> !(USERNAME_PREFIX <= e.name)
    ensures user in Handle(accounts, e, modelId) <==> user in accounts
    ensures HasChild(Handle(accounts, e, modelId), user) <==> HasChild(accounts, user)
  {
    NamedLikeRelation(e.r, modelId);
    var after := Handle(accounts, e, modelId);
    forall u ensures u in after && after[u] == Child(user) <==> u in accounts && accounts[u] == Child(user) {}
  }

  lemma OwnEvent(accounts: Accounts, e: Event, modelId: string)
    requires ChildrenApart(accounts)
    ensures var user, after := Username(e.r, modelId), Handle(accounts, e, modelId);
            Orphaned(after, user) <==>
            if StopsHalfWay(e, e.r) then HasChild(accounts, user) else Orphaned(accounts, user) && !MakesGood(e, e.r)
  {
    var user, after := Username(e.r, modelId), Handle(accounts, e, modelId);
    NamedLikeRelation(e.r, modelId);
    if StopsHalfWay(e, e.r) {
      forall u ensures u in after && after[u] == Child(user) <==> u in accounts && accounts[u] == Child(user) {}
    }
  }

  lemma OrphanStep(accounts: Accounts, e: Event, modelId: string, r: nat)
    requires ChildrenApart(accounts) && (SameStart(e.r, r) ==> e.r == r)
    requires e.Created? ==> !(USERNAME_PREFIX <= e.name)
    ensures var user := Username(r, modelId);
            Orphaned(Handle(accounts, e, modelId), user) <==>
            if StopsHalfWay(e, r) then HasChild(accounts, user) else Orphaned(accounts, user) && !MakesGood(e, r)
  {
    if e.r == r {
      OwnEvent(accounts, e, modelId);
    } else {
      UsernamesCollideExactly(e.r, r, modelId);
      NamedLikeRelation(r, modelId);
      OtherEvent(accounts, e, modelId, Username(r, modelId));
    }
  }

  lemma StoppedEarlier(run: seq<Event>, modelId: string, r: nat, i: nat)
    requires run != [] && i < |run| - 1
    ensures StoppedAt(run, modelId, r, i) <==>
            StoppedAt(run[..|run| - 1], modelId, r, i) && !MakesGood(run[|run| - 1], r)
  {
    assert run[..|run| - 1][..i] == run[..i];
  }

  /**
   In every run, accounts made by a relation's user are left without it exactly when some deletion stopped after
   the user while such accounts were there, and no later event of the relation has made that good.
   */
  lemma {:induction false} OrphanedExactly(run: seq<Event>, modelId: string, r: nat)
    requires ApartFrom(run, r)
    ensures Orphaned(HandleAll(map[], run, modelId), Username(r, modelId)) <==>
            exists i :: StoppedAt(run, modelId, r, i)
  {
    if run != [] {
      var n := |run| - 1;
      OrphanedExactly(run[..n], modelId, r);
      RunChildrenApart(run[..n], modelId);
      OrphanStep(HandleAll(map[], run[..n], modelId), run[n], modelId, r);
      forall i | 0 <= i < n
        ensures StoppedAt(run, modelId, r, i) <==> StoppedAt(run[..n], modelId, r, i) && !MakesGood(run[n], r)
      {
        StoppedEarlier(run, modelId, r, i);
      }
      assert StoppedAt(run, modelId, r, n) <==>
        StopsHalfWay(run[n], r) && HasChild(HandleAll(map[], run[..n], modelId), Username(r, modelId));
    }
  }

  lemma {:induction false} MakerOccurs(run: seq<Event>, modelId: string, u: string)
    requires u in HandleAll(map[], run, modelId) && HandleAll(map[], run, modelId)[u].Child?
    ensures exists i :: 0 <= i < |run| && HandleAll(map[], run, modelId)[u].creator == Username(run[i].r, modelId)
  {
    var n := |run| - 1;
    var before, now := HandleAll(map[], run[..n], modelId), HandleAll(map[], run, modelId);
    if u in before && before[u] == now[u] {
      MakerOccurs(run[..n], modelId, u);
      var i :| 0 <= i < n && now[u].creator == Username(run[..n][i].r, modelId);
      assert run[i] == run[..n][i];
    }
  }

  /**
   In every run an account made by a relation's user either has its maker, whose relation was requested and not
   deleted since, or was orphaned by a deletion that stopped half-way and has not been made good.
   */
  lemma ChildrenMatchRelations(run: seq<Event>, modelId: string, u: string)
    requires Apart(run)
    requires u in HandleAll(map[], run, modelId) && HandleAll(map[], run, modelId)[u].Child?
    ensures exists k :: 0 <= k < |run| && HandleAll(map[], run, modelId)[u].creator == Username(run[k].r, modelId)
                        && (Undeleted(run, run[k].r) || exists i :: StoppedAt(run, modelId, run[k].r, i))
  {
    var accounts := HandleAll(map[], run, modelId);
    MakerOccurs(run, modelId, u);
    var k :| 0 <= k < |run| && accounts[u].creator == Username(run[k].r, modelId);
    var user := accounts[u].creator;
    if user in accounts {
      NamedLikeRelation(run[k].r, modelId);
      UsersAreUndeleted(run, modelId, user);
      SameUserSameRelation(run, modelId, accounts[user].r, k);
    } else {
      assert ApartFrom(run, run[k].r);
      assert Orphaned(accounts, user);
      OrphanedExactly(run, modelId, run[k].r);
    }
  }

  /** Breaking other relations leaves an account made by this relation's user in place, in every run. */
  lemma {:induction false} ChildStays(accounts: Accounts, run: seq<Event>, modelId: string, r: nat, u: string)
    requires u in accounts && accounts[u] == Child(Username(r, modelId)) && !(USERNAME_PREFIX <= u)
    requires forall i :: 0 <= i < |run| && Deletes(run[i]) ==> run[i].r != r && !SameStart(run[i].r, r)
    ensures u in HandleAll(accounts, run, modelId) && HandleAll(accounts, run, modelId)[u] == accounts[u]
  {
    if run != [] {
      var n := |run| - 1;
      ChildStays(accounts, run[..n], modelId, r, u);
      NamedLikeRelation(run[n].r, modelId);
      if Deletes(run[n]) { UsernamesCollideExactly(run[n].r, r, modelId); }
    }
  }

  /** A deletion that stops after the user leaves the accounts it made without a maker. */
  lemma OrphanedChild(r: nat, modelId: string, name: string)
    requires !(USERNAME_PREFIX <= name)
    ensures var run := [Requested(r, true), Created(r, name), Broken(r, false, true, UserOnly)];
            name in HandleAll(map[], run, modelId) && !Undeleted(run, r)
  {
    var run := [Requested(r, true), Created(r, name), Broken(r, false, true, UserOnly)];
    NamedLikeRelation(r, modelId);
    assert run[..2][..1] == run[..1] && run[..1][..0] == [];
    assert HandleAll(map[], run[..1], modelId) == map[Username(r, modelId) := OfRelation(r)];
    assert name in HandleAll(map[], run[..2], modelId);
  }

  const ROLE_LENGTH: nat := 32
  const ROLE_PREFIX: string := "charmed_dba"

  /** What is left for the database name: 32 minus the prefix, two separators and a two-digit suffix. */
  const NAME_ROOM: nat := ROLE_LENGTH - |ROLE_PREFIX| - 2 - 2

  function Trim(database: string): string { Take(database, NAME_ROOM) }

  function Suffix(n: nat): string { ZeroFill(Decimal(n), 2) }

  function Stem(name: string): string { ROLE_PREFIX + "_" + name + "_" }

  function RoleName(name: string, n: nat): string { Stem(name) + Suffix(n) }

  /** SQL LIKE: `_` is any character, `%` any text, a backslash takes the next character literally. */
  predicate Like(pattern: string, s: string)
    decreases |pattern| + |s|
  {
    if pattern == [] then s == []
    else if pattern[0] == '%' then Like(pattern[1..], s) || (s != [] && Like(pattern, s[1..]))
    else if pattern[0] == '_' then s != [] && Like(pattern[1..], s[1..])
    else if pattern[0] == '\\' && |pattern| > 1 then s != [] && s[0] == pattern[1] && Like(pattern[2..], s[1..])
    else s != [] && s[0] == pattern[0] && Like(pattern[1..], s[1..])
  }

  lemma {:induction false} PercentMatchesAll(s: string)
    ensures Like("%", s)
  {
    if s != [] {
      PercentMatchesAll(s[1..]);
    } else {
      assert "%"[1..] == [];
    }
  }

  /** A text without backslashes, followed by `%`, matches whatever begins with that text. */
  lemma {:induction false} LikeCoversPrefix(p: string, s: string)
    requires p <= s && Free(p, '\\')
    ensures Like(p + "%", s)
  {
    if p == [] {
      assert p + "%" == "%";
      PercentMatchesAll(s);
    } else {
      assert (p + "%")[1..] == p[1..] + "%" && (p + "%")[0] == p[0] && s[0] == p[0];
      LikeCoversPrefix(p[1..], s[1..]);
    }
  }

  /** What a pattern of plain characters and underscores before a final `%` matches, exactly. */
  lemma {:induction false} LikeExactly(p: string, s: string)
    requires Free(p, '\\') && Free(p, '%')
    ensures Like(p + "%", s) <==> |p| <= |s| && forall i :: 0 <= i < |p| ==> p[i] == '_' || p[i] == s[i]
  {
    if p == [] {
      assert p + "%" == "%";
      PercentMatchesAll(s);
    } else {
      assert (p + "%")[1..] == p[1..] + "%" && (p + "%")[0] == p[0];
      if s != [] {
        LikeExactly(p[1..], s[1..]);
        assert (forall i :: 0 <= i < |p| ==> |p| <= |s| && (p[i] == '_' || p[i] == s[i])) <==>
          && |p| <= |s| && (p[0] == '_' || p[0] == s[0])
          && forall i :: 0 <= i < |p[1..]| ==> p[1..][i] == '_' || p[1..][i] == s[1..][i];
      }
    }
  }

  /** `search_instance_roles` for the roles of one trimmed name. */
  function Found(name: string, roles: set<string>): set<string> { set r | r in roles && Like(Stem(name) + "%", r) }

  /** `_build_database_dba_role`. */
  function NextRole(database: string, roles: set<string>): string {
    RoleName(Trim(database), |Found(Trim(database), roles)|)
  }

  /**
   How a role is spelt: the prefix, the first 17 characters of the database name, and the count in two digits
   or more.
   */
  lemma RoleExactly(database: string, roles: set<string>)
    ensures var n := |Found(Trim(database), roles)|;
            && NextRole(database, roles) ==
              "charmed_dba_" + (if |database| <= 17 then database else database[..17]) + "_"
                                            + (if n < 10 then "0" + Decimal(n) else Decimal(n))
  {
    var n := |Found(Trim(database), roles)|;
    DecimalLength(n, 1);
    assert Pow10(1) == 10 * Pow10(0);
    assert |ROLE_PREFIX| == 11 && NAME_ROOM == 17;
    assert ROLE_PREFIX + "_" == "charmed_dba_";
    SuffixIs(n);
  }

  lemma SuffixIs(n: nat)
    ensures Suffix(n) == if n < 10 then "0" + Decimal(n) else Decimal(n)
  {
    if n < 10 {
      assert ZeroFill(Decimal(n), 2) == ZeroFill(['0'] + Decimal(n), 2);
    }
  }

  lemma SuffixInjective(m: nat, n: nat)
    requires Suffix(m) == Suffix(n)
    ensures m == n
  {
    ValueOfZeroFill(Decimal(m), 2);
    ValueOfZeroFill(Decimal(n), 2);
    ValueOfDecimal(m);
    ValueOfDecimal(n);
  }

  /** What follows the last separator is all digits, so a text can be cut there in one way only. */
  lemma CutAtSeparator(a: string, x: string, b: string, y: string)
    requires a + "_" + x == b + "_" + y && AllDigits(x) && AllDigits(y)
    ensures a == b && x == y
  {
    var s := a + "_" + x;
    assert s[|a|] == '_' && s[|b|] == '_';
    assert s[|a| + 1..] == x && s[|b| + 1..] == y;
    assert s[..|a|] == a && s[..|b|] == b;
  }

  /** A role name tells its trimmed database name and its number. */
  lemma RoleNameInjective(name: string, n: nat, name': string, n': nat)
    requires RoleName(name, n) == RoleName(name', n')
    ensures name == name' && n == n'
  {
    var a, b := ROLE_PREFIX + "_" + name, ROLE_PREFIX + "_" + name';
    assert RoleName(name, n) == a + "_" + Suffix(n) && RoleName(name', n') == b + "_" + Suffix(n');
    CutAtSeparator(a, Suffix(n), b, Suffix(n'));
    SuffixInjective(n, n');
    assert a[|ROLE_PREFIX| + 1..] == name && b[|ROLE_PREFIX| + 1..] == name';
  }

  /** Every numbered role of a trimmed name in use has a number below the count of matching roles. */
  ghost predicate Numbered(roles: set<string>, names: set<string>) {
    forall name, n: nat :: name in names && RoleName(name, n) in roles ==> n < |Found(name, roles)|
  }

  lemma FoundGrows(name: string, roles: set<string>, role: string)
    requires role !in roles
    ensures |Found(name, roles + {role})| == |Found(name, roles)| + (if Like(Stem(name) + "%", role) then 1 else 0)
  {
    if Like(Stem(name) + "%", role) {
      assert Found(name, roles + {role}) == Found(name, roles) + {role};
    } else {
      assert Found(name, roles + {role}) == Found(name, roles);
    }
  }

  lemma StemFree(name: string)
    requires Free(name, '\\')
    ensures Free(Stem(name), '\\')
  {
  }

  /** The next role is new, even where another database name was cut to the same text, and numbering goes on. */
  lemma NextRoleIsFresh(database: string, roles: set<string>, names: set<string>)
    requires Numbered(roles, names) && Trim(database) in names && Free(Trim(database), '\\')
    ensures NextRole(database, roles) !in roles
    ensures Numbered(roles + {NextRole(database, roles)}, names)
  {
    var name := Trim(database);
    var n := |Found(name, roles)|;
    var role := RoleName(name, n);
    assert role !in roles;
    StemFree(name);
    LikeCoversPrefix(Stem(name), role);
    forall other, m: nat | other in names && RoleName(other, m) in roles + {role}
      ensures m < |Found(other, roles + {role})|
    {
      FoundGrows(other, roles, role);
      if RoleName(other, m) == role {
        RoleNameInjective(other, m, name, n);
      }
    }
  }

  /** Databases created one after another; `ok` tells whether the role was created. */
  datatype Creation = Creation(database: string, ok: bool)

  function Roles(roles: set<string>, run: seq<Creation>): set<string> {
    if run == [] then roles
    else
      var before, last := Roles(roles, run[..|run| - 1]), run[|run| - 1];
      if last.ok then before + {NextRole(last.database, before)} else before
  }

  /** In every run that drops no role, each role created is new. */
  lemma {:induction false} RolesNeverCollide(roles: set<string>, run: seq<Creation>, names: set<string>)
    requires Numbered(roles, names)
    requires forall i :: 0 <= i < |run| ==> Trim(run[i].database) in names && Free(Trim(run[i].database), '\\')
    ensures Numbered(Roles(roles, run), names)
    ensures forall i :: 0 <= i < |run| ==> Fresh(roles, run, i)
  {
    if run != [] {
      var n := |run| - 1;
      RolesNeverCollide(roles, run[..n], names);
      NextRoleIsFresh(run[n].database, Roles(roles, run[..n]), names);
      forall i | 0 <= i < |run| ensures Fresh(roles, run, i) {
        if i < n {
          assert run[..n][..i] == run[..i] && run[..n][i] == run[i];
          assert Fresh(roles, run[..n], i);
        }
      }
    }
  }

  /** The role built at step `i` does not exist yet. */
  predicate Fresh(roles: set<string>, run: seq<Creation>, i: nat)
    requires i < |run|
  {
    NextRole(run[i].database, Roles(roles, run[..i])) !in Roles(roles, run[..i])
  }

  ghost predicate OnlyFor(run: seq<Creation>, names: set<string>) {
    forall i :: 0 <= i < |run| ==> Trim(run[i].database) in names
  }

  ghost predicate AllFresh(roles: set<string>, run: seq<Creation>) {
    forall i :: 0 <= i < |run| ==> Fresh(roles, run, i)
  }

  lemma {:induction false} RolesOneBefore(roles: set<string>, c: Creation, run: seq<Creation>)
    ensures Roles(roles, [c] + run) == Roles(Roles(roles, [c]), run)
  {
    if run == [] {
      assert [c] + run == [c];
    } else {
      var n := |run| - 1;
      assert ([c] + run)[..n + 1] == [c] + run[..n];
      RolesOneBefore(roles, c, run[..n]);
    }
  }

  lemma StaleLater(roles: set<string>, c: Creation, run: seq<Creation>)
    requires !AllFresh(Roles(roles, [c]), run)
    ensures !AllFresh(roles, [c] + run)
  {
    var i :| 0 <= i < |run| && !Fresh(Roles(roles, [c]), run, i);
    var longer := [c] + run;
    assert longer[..i + 1] == [c] + run[..i] && longer[i + 1] == run[i];
    RolesOneBefore(roles, c, run[..i]);
    assert !Fresh(roles, longer, i + 1);
  }

  lemma StaleNow(roles: set<string>, c: Creation)
    requires NextRole(c.database, roles) in roles
    ensures !AllFresh(roles, [c])
  {
    assert [c][..0] == [];
    assert Roles(roles, [c][..0]) == roles;
    assert !Fresh(roles, [c], 0);
  }

  /**
   A role numbered at or above the count of matching roles is met again by creating the same database often
   enough.
   */
  lemma {:induction false} EventuallyStale(roles: set<string>, name: string, number: nat) returns (run: seq<Creation>)
    requires Trim(name) == name && Free(name, '\\')
    requires RoleName(name, number) in roles && number >= |Found(name, roles)|
    ensures OnlyFor(run, {name}) && !AllFresh(roles, run)
    decreases number - |Found(name, roles)|
  {
    var c := Creation(name, true);
    var role := NextRole(name, roles);
    if role in roles {
      StaleNow(roles, c);
      run := [c];
    } else {
      StemFree(name);
      LikeCoversPrefix(Stem(name), role);
      FoundGrows(name, roles, role);
      assert number != |Found(name, roles)|;
      var later := EventuallyStale(roles + {role}, name, number);
      assert [c][..0] == [];
      assert Roles(roles, [c][..0]) == roles;
      assert Roles(roles, [c]) == roles + {role};
      StaleLater(roles, c, later);
      run := [c] + later;
    }
  }

  /**
   Every run creates new roles only, exactly when each role in use is numbered below the count of roles
   matching its name.
   */
  lemma RolesNeverCollideExactly(roles: set<string>, names: set<string>)
    requires forall name :: name in names ==> Trim(name) == name && Free(name, '\\')
    ensures (forall run :: OnlyFor(run, names) ==> AllFresh(roles, run)) <==> Numbered(roles, names)
  {
    if Numbered(roles, names) {
      forall run | OnlyFor(run, names) ensures AllFresh(roles, run) {
        RolesNeverCollide(roles, run, names);
      }
    } else {
      var name, n: nat :| name in names && RoleName(name, n) in roles && n >= |Found(name, roles)|;
      var run := EventuallyStale(roles, name, n);
      assert OnlyFor(run, names);
    }
  }

  /** A role name fits in 32 characters while fewer than 100 roles match; a full-length name fits only then. */
  lemma RoleFits(database: string, roles: set<string>)
    ensures |Found(Trim(database), roles)| < 100 ==> |NextRole(database, roles)| <= ROLE_LENGTH
    ensures |database| >= NAME_ROOM && |NextRole(database, roles)| <= ROLE_LENGTH ==>
            |Found(Trim(database), roles)| < 100
  {
    var n := |Found(Trim(database), roles)|;
    DecimalLength(n, 2);
    assert Pow10(2) == 10 * Pow10(1) && Pow10(1) == 10 * Pow10(0);
    assert |ROLE_PREFIX| == 11;
  }

  /** Dropping a role breaks the numbering: with only role 01 left, the next one is 01 again. */
  lemma DroppedRoleIsReused(database: string)
    requires Free(Trim(database), '\\')
    ensures var roles := {RoleName(Trim(database), 1)}; NextRole(database, roles) in roles
  {
    var name := Trim(database);
    var roles := {RoleName(name, 1)};
    StemFree(name);
    LikeCoversPrefix(Stem(name), RoleName(name, 1));
    assert Found(name, roles) == roles;
  }
}
