/**
 Rolling restarts: units wait for their callback, one grant is given at a time, and a
 primary hands its turn back while a peer still waits (`RollingHelper`).
 */
module RollingRestart {
  import opened Text
  import opened Collections

  type Unit = string

  datatype Kind = Replication | Restart

  datatype Op = Op(unit: Unit, kind: Kind)

  datatype Result = Release | RetryRelease

  datatype State = State(waiting: set<Op>, primary: Unit)

  /**
   One grant and what its callback finds: whether the server runs, the other units of
   the peer relation (if there is one), and who would be primary after a primary's restart.
   */
  datatype Turn = Turn(op: Op, running: bool, peers: Option<seq<Unit>>, successor: Unit)

  predicate PeerWaits(s: State, t: Turn) {
    t.peers.Some? && exists u :: u in t.peers.value && Op(u, t.op.kind) in s.waiting
  }

  function Outcome(s: State, t: Turn): Result {
    if !t.running || t.peers.None? then RetryRelease
    else if t.op.unit == s.primary && PeerWaits(s, t) then RetryRelease
    else Release
  }

  /** An operation leaves the queue when released; the role moves only when the primary restarts. */
  function Next(s: State, t: Turn): State {
    if t.op !in s.waiting || Outcome(s, t) == RetryRelease then s
    else State(s.waiting - {t.op}, if t.op.unit == s.primary then t.successor else s.primary)
  }

  class RollingHelper {
    var waiting: set<Op>
    var primary: Unit

    constructor (s: State)
      ensures Now() == s
    {
      waiting, primary := s.waiting, s.primary;
    }

    function Now(): State
      reads this
    {
      State(waiting, primary)
    }

    /** `_check_cluster_waiting_ops` and `_check_instance_waiting_ops`. */
    method CheckWaitingOps(kind: Kind, peers: seq<Unit>) returns (found: bool)
      ensures found <==> exists u :: u in peers && Op(u, kind) in waiting
    {
      for i := 0 to |peers|
        invariant forall j :: 0 <= j < i ==> Op(peers[j], kind) !in waiting
      {
        if Op(peers[i], kind) in waiting {
          return true;
        }
      }
      found := false;
    }

    /** `restart_cluster` and `restart_instance`, which differ only in the kind they look for. */
    method Callback(t: Turn) returns (result: Result)
      requires t.op in waiting
      modifies this
      ensures result == Outcome(old(Now()), t) && Now() == Next(old(Now()), t)
    {
      if !t.running {
        return RetryRelease;
      }
      if t.peers.None? {
        return RetryRelease;
      }
      if t.op.unit == primary {
        var found := CheckWaitingOps(t.op.kind, t.peers.value);
        if found {
          return RetryRelease;
        }
      }
      waiting := waiting - {t.op};
      if t.op.unit == primary {
        primary := t.successor;
      }
      result := Release;
    }
  }

  /**
   What one turn does: an operation leaves the queue exactly when its server runs, the peer relation is there and,
   for the primary, no listed peer waits for the same kind; the role moves exactly with the primary's own operation;
   otherwise the turn changes nothing.
   */
  lemma TurnExactly(s: State, t: Turn)
    ensures var s' := Next(s, t);
            if && t.op in s.waiting && t.running && t.peers.Some?
               && (t.op.unit == s.primary ==> forall u :: u in t.peers.value ==> Op(u, t.op.kind) !in s.waiting)
            then s'.waiting == s.waiting - {t.op} && s'.primary ==
              (if t.op.unit == s.primary then t.successor else s.primary)
            else s' == s
    ensures !t.running || t.peers.None? ==> Outcome(s, t) == RetryRelease
  {
  }

  function After(s: State, run: seq<Turn>): State {
    if run == [] then s else Next(After(s, run[..|run| - 1]), run[|run| - 1])
  }

  /** The peer relation lists every other unit that waits. */
  ghost predicate SeesPeers(s: State, t: Turn) {
    t.peers.Some? ==> forall o :: o in s.waiting && o.unit != t.op.unit ==> o.unit in t.peers.value
  }

  /** A peer relation lists other units only, and a callback can do its work. */
  ghost predicate Healthy(t: Turn) { t.running && t.peers.Some? && t.op.unit !in t.peers.value }

  predicate Released(s: State, t: Turn) { t.op in s.waiting && Outcome(s, t) == Release }

  predicate RoleMoves(s: State, t: Turn) { Released(s, t) && t.op.unit == s.primary }

  lemma {:induction false} WaitingShrinks(s: State, run: seq<Turn>)
    ensures After(s, run).waiting <= s.waiting
  {
    if run != [] { WaitingShrinks(s, run[..|run| - 1]); }
  }

  lemma {:induction false} AfterConcat(s: State, a: seq<Turn>, b: seq<Turn>)
    ensures After(s, a + b) == After(After(s, a), b)
  {
    if b == [] {
      assert a + b == a;
    } else {
      var n := |b| - 1;
      assert (a + b)[..|a| + n] == a + b[..n];
      AfterConcat(s, a, b[..n]);
    }
  }

  function OfKind(ops: set<Op>, kind: Kind): set<Op> { set o | o in ops && o.kind == kind }

  /** A primary restarts only when nobody else waits for the same kind of operation. */
  lemma PrimaryGoesLast(s: State, t: Turn)
    requires RoleMoves(s, t) && SeesPeers(s, t)
    ensures OfKind(s.waiting, t.op.kind) == {t.op} && OfKind(Next(s, t).waiting, t.op.kind) == {}
  {
    forall o | o in s.waiting && o.kind == t.op.kind ensures o == t.op {
      assert o == Op(o.unit, t.op.kind);
    }
  }

  /** Turns of a run at which the role moves because of an operation of one kind. */
  function Moves(s: State, run: seq<Turn>, kind: Kind): nat {
    if run == [] then 0
    else
      var n := |run| - 1;
      Moves(s, run[..n], kind) + (if run[n].op.kind == kind && RoleMoves(After(s, run[..n]), run[n]) then 1 else 0)
  }

  /** Over any run without new requests, the role moves at most once per kind of operation. */
  lemma {:induction false} RoleMovesOncePerKind(s: State, run: seq<Turn>, kind: Kind)
    requires forall i :: 0 <= i < |run| ==> SeesPeers(After(s, run[..i]), run[i])
    ensures Moves(s, run, kind) <= 1
    ensures Moves(s, run, kind) == 1 ==> OfKind(After(s, run).waiting, kind) == {}
  {
    if run != [] {
      var n := |run| - 1;
      forall i | 0 <= i < n ensures SeesPeers(After(s, run[..n][..i]), run[..n][i]) {
        assert run[..n][..i] == run[..i];
      }
      RoleMovesOncePerKind(s, run[..n], kind);
      var before := After(s, run[..n]);
      if run[n].op.kind == kind && RoleMoves(before, run[n]) {
        PrimaryGoesLast(before, run[n]);
        assert run[n].op in OfKind(before.waiting, kind);
      }
    }
  }

  /** Turns at which an operation is released. */
  function Releases(s: State, run: seq<Turn>): nat {
    if run == [] then 0
    else
      var n := |run| - 1;
      Releases(s, run[..n]) + (if Released(After(s, run[..n]), run[n]) then 1 else 0)
  }

  /** Every waiting operation is executed exactly once: released and still waiting add up. */
  lemma {:induction false} EachRunsOnce(s: State, run: seq<Turn>)
    ensures Releases(s, run) + |After(s, run).waiting| == |s.waiting|
  {
    if run != [] {
      EachRunsOnce(s, run[..|run| - 1]);
    }
  }

  /** A full round: every operation waiting at its start is granted in a healthy turn. */
  ghost predicate FullRound(s: State, run: seq<Turn>) {
    && (forall i :: 0 <= i < |run| ==> SeesPeers(After(s, run[..i]), run[i]))
    && (forall o :: o in s.waiting ==> exists i :: 0 <= i < |run| && run[i].op == o && Healthy(run[i]))
  }

  lemma {:induction false} NoReleaseNoChange(s: State, run: seq<Turn>, i: nat)
    requires i <= |run| && After(s, run).waiting == s.waiting
    ensures After(s, run[..i]) == s
  {
    if i > 0 {
      NoReleaseNoChange(s, run, i - 1);
      assert run[..i][..i - 1] == run[..i - 1];
      assert run == run[..i] + run[i..];
      AfterConcat(s, run[..i], run[i..]);
      WaitingShrinks(After(s, run[..i]), run[i..]);
      assert s.waiting <= After(s, run[..i]).waiting;
    } else {
      assert run[..0] == [];
    }
  }

  /** Every full round of grants strictly shrinks a non-empty waiting set. */
  lemma RoundShrinks(s: State, run: seq<Turn>)
    requires FullRound(s, run) && s.waiting != {}
    ensures After(s, run).waiting < s.waiting
  {
    WaitingShrinks(s, run);
    if After(s, run).waiting == s.waiting {
      forall i | 0 <= i < |run| ensures After(s, run[..i]) == s && Next(s, run[i]) == s {
        NoReleaseNoChange(s, run, i);
        NoReleaseNoChange(s, run, i + 1);
        assert run[..i + 1][..i] == run[..i];
      }
      StuckMeansEmpty(s, run);
    }
  }

  /** In a state no healthy turn changes, nobody waits. */
  lemma StuckMeansEmpty(s: State, run: seq<Turn>)
    requires FullRound(s, run)
    requires forall i :: 0 <= i < |run| ==> After(s, run[..i]) == s && Next(s, run[i]) == s
    ensures s.waiting == {}
  {
    forall o | o in s.waiting ensures o.unit == s.primary && exists p :: p in s.waiting && p.unit != s.primary {
      var i :| 0 <= i < |run| && run[i].op == o && Healthy(run[i]);
      assert Outcome(s, run[i]) == RetryRelease;
      var u :| u in run[i].peers.value && Op(u, o.kind) in s.waiting;
      assert Op(u, o.kind).unit != s.primary;
    }
  }

  /** A run made of consecutive full rounds. */
  ghost predicate Rounds(s: State, rounds: seq<seq<Turn>>) {
    forall i :: 0 <= i < |rounds| ==> FullRound(AfterRounds(s, rounds[..i]), rounds[i])
  }

  function AfterRounds(s: State, rounds: seq<seq<Turn>>): State {
    if rounds == [] then s else After(AfterRounds(s, rounds[..|rounds| - 1]), rounds[|rounds| - 1])
  }

  /** As many full rounds as there are waiting operations empty the queue. */
  lemma {:induction false} QueueEmpties(s: State, rounds: seq<seq<Turn>>)
    requires Rounds(s, rounds)
    ensures |AfterRounds(s, rounds).waiting| <= (if |s.waiting| > |rounds| then |s.waiting| - |rounds| else 0)
  {
    if rounds != [] {
      var n := |rounds| - 1;
      forall i | 0 <= i < n ensures FullRound(AfterRounds(s, rounds[..n][..i]), rounds[..n][i]) {
        assert rounds[..n][..i] == rounds[..i];
      }
      QueueEmpties(s, rounds[..n]);
      var before := AfterRounds(s, rounds[..n]);
      WaitingShrinks(before, rounds[n]);
      SubsetCount(After(before, rounds[n]).waiting, before.waiting);
      if before.waiting != {} {
        RoundShrinks(before, rounds[n]);
      }
    }
  }

  ghost predicate OneKind(s: State, kind: Kind) { forall o :: o in s.waiting ==> o.kind == kind }

  /** In a batch of one kind, the role stays where it was as long as anybody waits. */
  lemma {:induction false} PrimaryStays(s: State, run: seq<Turn>, kind: Kind)
    requires OneKind(s, kind) && forall i :: 0 <= i < |run| ==> SeesPeers(After(s, run[..i]), run[i])
    requires After(s, run).waiting != {}
    ensures After(s, run).primary == s.primary
  {
    if run != [] {
      var n := |run| - 1;
      forall i | 0 <= i < n ensures SeesPeers(After(s, run[..n][..i]), run[..n][i]) {
        assert run[..n][..i] == run[..i];
      }
      WaitingShrinks(s, run[..n]);
      var before := After(s, run[..n]);
      PrimaryStays(s, run[..n], kind);
      if RoleMoves(before, run[n]) {
        PrimaryGoesLast(before, run[n]);
      }
    }
  }

  /** After one full round of a one-kind batch, at most the primary still waits. */
  lemma RoundLeavesPrimary(s: State, run: seq<Turn>, kind: Kind)
    requires OneKind(s, kind) && FullRound(s, run)
    ensures forall o :: o in After(s, run).waiting ==> o == Op(s.primary, kind)
    ensures After(s, run).waiting != {} ==> After(s, run).primary == s.primary
  {
    WaitingShrinks(s, run);
    forall o | o in After(s, run).waiting ensures o == Op(s.primary, kind) {
      LeftIsPrimary(s, run, kind, o);
    }
    if After(s, run).waiting != {} {
      PrimaryStays(s, run, kind);
    }
  }

  lemma LeftIsPrimary(s: State, run: seq<Turn>, kind: Kind, o: Op)
    requires OneKind(s, kind) && FullRound(s, run) && o in After(s, run).waiting && o in s.waiting
    ensures o.unit == s.primary
  {
    var i :| 0 <= i < |run| && run[i].op == o && Healthy(run[i]);
    StillWaiting(s, run, i, o);
    StillWaiting(s, run, i + 1, o);
    PrimaryStaysUpTo(s, run, kind, i);
    NotReleased(s, run, i);
  }

  /** An operation still waiting after its healthy turn belongs to the primary. */
  lemma NotReleased(s: State, run: seq<Turn>, i: nat)
    requires i < |run| && Healthy(run[i])
    requires run[i].op in After(s, run[..i]).waiting && run[i].op in After(s, run[..i + 1]).waiting
    ensures run[i].op.unit == After(s, run[..i]).primary
  {
    assert run[..i + 1][..i] == run[..i];
  }

  lemma PrimaryStaysUpTo(s: State, run: seq<Turn>, kind: Kind, i: nat)
    requires OneKind(s, kind) && forall i :: 0 <= i < |run| ==> SeesPeers(After(s, run[..i]), run[i])
    requires i <= |run| && After(s, run[..i]).waiting != {}
    ensures After(s, run[..i]).primary == s.primary
  {
    forall j | 0 <= j < i ensures SeesPeers(After(s, run[..i][..j]), run[..i][j]) {
      assert run[..i][..j] == run[..j];
    }
    PrimaryStays(s, run[..i], kind);
  }

  lemma StillWaiting(s: State, run: seq<Turn>, i: nat, o: Op)
    requires i <= |run| && o in After(s, run).waiting
    ensures o in After(s, run[..i]).waiting
  {
    assert run == run[..i] + run[i..];
    AfterConcat(s, run[..i], run[i..]);
    WaitingShrinks(After(s, run[..i]), run[i..]);
  }

  /** Two full rounds finish a batch of one kind, however many units wait. */
  lemma TwoRoundsSuffice(s: State, first: seq<Turn>, second: seq<Turn>, kind: Kind)
    requires OneKind(s, kind) && FullRound(s, first) && FullRound(After(s, first), second)
    ensures After(After(s, first), second).waiting == {}
  {
    var between := After(s, first);
    RoundLeavesPrimary(s, first, kind);
    if between.waiting == {} {
      WaitingShrinks(between, second);
    } else {
      RoundShrinks(between, second);
      assert forall o :: o in After(between, second).waiting ==> o == Op(s.primary, kind);
      var gone :| gone in between.waiting && gone !in After(between, second).waiting;
    }
  }

  lemma {:induction false} PrimaryFixed(s: State, run: seq<Turn>, i: nat)
    requires Moves(s, run, Replication) == 0 && Moves(s, run, Restart) == 0 && i <= |run|
    ensures After(s, run[..i]).primary == s.primary
  {
    if i < |run| {
      PrimaryFixed(s, run[..|run| - 1], i);
      assert run[..|run| - 1][..i] == run[..i];
    } else if run != [] {
      var n := |run| - 1;
      PrimaryFixed(s, run[..n], n);
      assert run[..n][..n] == run[..n] && run[..i] == run;
      assert run[n].op.kind == Replication || run[n].op.kind == Restart;
    }
  }

  /** A full round in which the role does not move leaves only the primary's operations. */
  lemma QuietRound(s: State, run: seq<Turn>)
    requires FullRound(s, run) && Moves(s, run, Replication) == 0 && Moves(s, run, Restart) == 0
    ensures After(s, run).primary == s.primary
    ensures forall o :: o in After(s, run).waiting ==> o.unit == s.primary
  {
    WaitingShrinks(s, run);
    PrimaryFixed(s, run, |run|);
    assert run[..|run|] == run;
    forall o | o in After(s, run).waiting ensures o.unit == s.primary {
      var i :| 0 <= i < |run| && run[i].op == o && Healthy(run[i]);
      StillWaiting(s, run, i, o);
      StillWaiting(s, run, i + 1, o);
      PrimaryFixed(s, run, i);
      NotReleased(s, run, i);
    }
  }

  /** Where one unit's operations are all that waits, none of them has to give way. */
  lemma NobodyInTheWay(s: State, t: Turn, u: Unit)
    requires Healthy(t) && forall o :: o in s.waiting ==> o.unit == u
    ensures t.op !in Next(s, t).waiting
  {
  }

  /** An operation that is not waiting part-way through a run is not waiting at its end. */
  lemma GoneStays(s: State, run: seq<Turn>, i: nat, o: Op)
    requires i <= |run| && o !in After(s, run[..i]).waiting
    ensures o !in After(s, run).waiting
  {
    assert run == run[..i] + run[i..];
    AfterConcat(s, run[..i], run[i..]);
    WaitingShrinks(After(s, run[..i]), run[i..]);
  }

  lemma TurnReleases(s: State, run: seq<Turn>, i: nat, u: Unit)
    requires i < |run| && Healthy(run[i]) && forall o :: o in s.waiting ==> o.unit == u
    ensures run[i].op !in After(s, run).waiting
  {
    WaitingShrinks(s, run[..i]);
    NobodyInTheWay(After(s, run[..i]), run[i], u);
    assert run[..i + 1][..i] == run[..i];
    GoneStays(s, run, i + 1, run[i].op);
  }

  /** A full round over the operations of one unit empties the queue. */
  lemma OneUnitRound(s: State, run: seq<Turn>, u: Unit)
    requires FullRound(s, run) && forall o :: o in s.waiting ==> o.unit == u
    ensures After(s, run).waiting == {}
  {
    WaitingShrinks(s, run);
    forall o | o in s.waiting ensures o !in After(s, run).waiting {
      var i :| 0 <= i < |run| && run[i].op == o && Healthy(run[i]);
      TurnReleases(s, run, i, u);
    }
  }

  lemma EmptyStays(s: State, run: seq<Turn>)
    requires s.waiting == {}
    ensures After(s, run).waiting == {}
  {
    WaitingShrinks(s, run);
  }

  /** Three full rounds empty the queue, whatever operations of either kind wait. */
  lemma ThreeRoundsSuffice(s: State, first: seq<Turn>, second: seq<Turn>, third: seq<Turn>)
    requires FullRound(s, first) && FullRound(After(s, first), second)
    requires FullRound(After(After(s, first), second), third)
    ensures After(After(After(s, first), second), third).waiting == {}
  {
    var after := After(s, first);
    RoleMovesOncePerKind(s, first, Replication);
    RoleMovesOncePerKind(s, first, Restart);
    if Moves(s, first, Replication) == 1 {
      OtherKind(after, Replication, Restart);
      TwoRoundsSuffice(after, second, third, Restart);
    } else if Moves(s, first, Restart) == 1 {
      OtherKind(after, Restart, Replication);
      TwoRoundsSuffice(after, second, third, Replication);
    } else {
      QuietRound(s, first);
      OneUnitRound(after, second, s.primary);
      EmptyStays(After(after, second), third);
    }
  }

  lemma OtherKind(s: State, done: Kind, left: Kind)
    requires OfKind(s.waiting, done) == {} && done != left
    ensures OneKind(s, left)
  {
    forall o | o in s.waiting ensures o.kind == left {
      assert o.kind == done ==> o in OfKind(s.waiting, done);
    }
  }
}
