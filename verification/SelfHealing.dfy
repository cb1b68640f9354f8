/**
 The self-healing handler: from what a unit sees of its server, its cluster and its
 peers, which recovery actions it takes, in which order.
 */
module SelfHealing {
  import opened Text

  /** A member state; peers publish theirs as text, so any other text may appear. */
  datatype Member = Online | Offline | Waiting | Other(text: string)

  /**
   A query for the number of cluster members in some state: how many the instance asked shows in its own view,
   unless the query fails, and how many there are in the cluster.
   */
  datatype Count = Counted(shown: nat, actual: nat) | QueryFailed(actual: nat)

  /** `count_cluster_members`: a failed query counts as none. */
  function Number(c: Count): nat { if c.Counted? then c.shown else 0 }

  /** The view of the instance asked is that of the cluster. */
  predicate Accurate(c: Count) { c.Counted? ==> c.shown == c.actual }

  /** Everything a unit finds out during one self-healing event, and how its actions would end. */
  datatype Sight = Sight(
    running: bool, initialized: bool, refreshing: bool,
    state: Option<Member>, leader: bool, noQuorum: bool,
    peers: Option<seq<Member>>, online: Count, unreachable: Count,
    rebootOk: bool, dropOk: bool, createOk: bool,
    primaryFound: bool, listed: bool, rejoinOk: bool)

  datatype Action =
    | CountOnline(found: Count) | CountUnreachable(found: Count)
    | StartServer | StopReplication | Reboot(ok: bool) | DropMetadata(ok: bool) | CreateCluster(ok: bool)
    | Rejoin(ok: bool) | Block | SetStatus | UpdateEndpoints

  /** Peers are all gone, all offline, or all waiting. */
  predicate NobodyElse(peers: seq<Member>) {
    || peers == []
    || (forall i :: 0 <= i < |peers| ==> peers[i] == Offline)
    || (forall i :: 0 <= i < |peers| ==> peers[i] == Waiting)
  }

  function PeerStates(s: Sight): seq<Member> { if s.peers.Some? then s.peers.value else [] }

  lemma StatesAsSet(peers: seq<Member>, states: set<Member>)
    requires states == set m | m in peers
    ensures Online in states <==> Online in peers
    ensures states == {} || states == {Offline} || states == {Waiting} <==> NobodyElse(peers)
  {
    assert forall i :: 0 <= i < |peers| ==> peers[i] in states;
    if peers != [] { assert peers[0] in states; }
    if forall i :: 0 <= i < |peers| ==> peers[i] == Offline { assert peers == [] || states == {Offline}; }
    if forall i :: 0 <= i < |peers| ==> peers[i] == Waiting { assert peers == [] || states == {Waiting}; }
  }

  function Rejoining(s: Sight): seq<Action> {
    if PeerStates(s) != [] && s.primaryFound && s.listed then [Rejoin(s.rejoinOk)] else []
  }

  /** An OFFLINE leader that sees no peer at work goes on to count the ONLINE members. */
  predicate SeesNobody(s: Sight) {
    s.leader && s.state == Some(Offline) && Online !in PeerStates(s) && NobodyElse(PeerStates(s))
  }

  /** A leader may bring the cluster back: it lost quorum, or nothing of it seems left. */
  predicate MayRecover(s: Sight) {
    (s.leader && s.state == Some(Online) && s.noQuorum) || (SeesNobody(s) && Number(s.online) == 0)
  }

  predicate Reboots(s: Sight) { MayRecover(s) && Number(s.unreachable) == 0 }

  predicate Recreates(s: Sight) { Reboots(s) && s.state == Some(Offline) && !s.rebootOk }

  /** What follows stopping replication when the cluster may be recovered. */
  function Rescue(s: Sight): seq<Action> {
    [CountUnreachable(s.unreachable)] +
    if !Reboots(s) then [SetStatus]
    else if s.rebootOk then [Reboot(true), SetStatus]
    else if s.state == Some(Online) then [Reboot(false), Block]
    else [Reboot(false), DropMetadata(s.dropOk)] + (if s.dropOk then [CreateCluster(s.createOk)] else [])
  }

  function Recovery(s: Sight): seq<Action> {
    if s.state == Some(Offline) && Online in PeerStates(s) then Rejoining(s)
    else
      (if SeesNobody(s) then [CountOnline(s.online)] else []) +
      if MayRecover(s) then [StopReplication] + Rescue(s)
      else if s.state == Some(Online) && s.noQuorum then [StopReplication, SetStatus]
      else []
  }

  predicate Raises(s: Sight) {
    || (Recreates(s) && !(s.dropOk && s.createOk))
    || (s.state == Some(Offline) && Online in PeerStates(s) && Rejoining(s) != [] && !s.rejoinOk)
  }

  function Trace(s: Sight): seq<Action> {
    if !s.running then [StartServer]
    else if !s.initialized || s.refreshing then []
    else Recovery(s) + (if Raises(s) then [] else [UpdateEndpoints])
  }

  predicate Attends(s: Sight) { s.running && s.initialized && !s.refreshing }

  /** The action takes the cluster back up or apart. */
  predicate Restores(a: Action) { a.Reboot? || a.DropMetadata? || a.CreateCluster? }

  predicate TakesReboot(s: Sight) { exists a :: a in Trace(s) && a.Reboot? }

  predicate TakesDrop(s: Sight) { exists a :: a in Trace(s) && a.DropMetadata? }

  /** What is done before replication is stopped. */
  function Before(s: Sight): seq<Action> { if SeesNobody(s) then [CountOnline(s.online)] else [] }

  /**
   The cluster is rebooted exactly when an attending leader may recover it and counted no unreachable
   member, and then that count is the last thing done after stopping replication and before the reboot.
   */
  lemma RebootsExactly(s: Sight)
    ensures TakesReboot(s) <==> Attends(s) && Reboots(s)
    ensures Attends(s) && Reboots(s) ==>
              Before(s) + [StopReplication, CountUnreachable(s.unreachable), Reboot(s.rebootOk)] <= Trace(s)
  {
    if Attends(s) && Reboots(s) {
      var start := [CountUnreachable(s.unreachable), Reboot(s.rebootOk)];
      assert start <= Rescue(s);
      assert Recovery(s) == Before(s) + ([StopReplication] + Rescue(s));
      PrefixUnder(Before(s) + [StopReplication], start, Rescue(s));
      var whole := Before(s) + [StopReplication] + start;
      assert whole <= Recovery(s) by { assert Before(s) + [StopReplication] + Rescue(s) == Recovery(s); }
      assert whole == Before(s) + [StopReplication, CountUnreachable(s.unreachable), Reboot(s.rebootOk)];
      assert whole[|Before(s)| + 2] == Reboot(s.rebootOk);
      assert Trace(s)[|Before(s)| + 2] == Reboot(s.rebootOk);
    }
  }

  lemma PrefixUnder<T>(front: seq<T>, a: seq<T>, b: seq<T>)
    requires a <= b
    ensures front + a <= front + b
  {
  }

  /**
   Metadata is dropped exactly by an attending OFFLINE leader that saw no ONLINE peer, counted no
   ONLINE and then no UNREACHABLE member, and whose reboot, attempted just before, failed.
   */
  lemma DropsExactly(s: Sight)
    ensures TakesDrop(s) <==> Attends(s) && Recreates(s)
    ensures Attends(s) && Recreates(s) ==> DropTrace(s) <= Trace(s)
  {
    if Attends(s) && Recreates(s) {
      RecreationTrace(s);
      assert DropTrace(s)[4] == DropMetadata(s.dropOk) && Trace(s)[4] == DropTrace(s)[4];
    }
  }

  function DropTrace(s: Sight): seq<Action> {
    [CountOnline(s.online), StopReplication, CountUnreachable(s.unreachable), Reboot(false), DropMetadata(s.dropOk)]
  }

  lemma RecreationTrace(s: Sight)
    requires Attends(s) && Recreates(s)
    ensures DropTrace(s) + (if s.dropOk then [CreateCluster(s.createOk)] else []) <= Trace(s)
  {
    assert Recovery(s) == DropTrace(s) + (if s.dropOk then [CreateCluster(s.createOk)] else []);
  }

  /** A cluster is created exactly after its metadata was dropped with success. */
  lemma CreatesExactly(s: Sight)
    ensures (exists a :: a in Trace(s) && a.CreateCluster?) <==> Attends(s) && Recreates(s) && s.dropOk
  {
    if Attends(s) && Recreates(s) && s.dropOk {
      RecreationTrace(s);
      assert Trace(s)[5] == CreateCluster(s.createOk);
    }
  }

  /**
   The guard against rebooting beside an unreachable member: with such a member there, the reboot happens iff an
   attending leader may recover and the query failed or the instance, whose replication was stopped just before,
   no longer shows the member. Only where its view is that of the cluster does this come down to the failed query.
   */
  lemma RebootBesideUnreachable(s: Sight)
    requires s.unreachable.actual > 0
    ensures TakesReboot(s) <==>
            Attends(s) && MayRecover(s) && (s.unreachable.QueryFailed? || s.unreachable.shown == 0)
    ensures Accurate(s.unreachable) ==>
              (TakesReboot(s) <==> Attends(s) && MayRecover(s) && s.unreachable.QueryFailed?)
  {
    RebootsExactly(s);
  }

  /**
   With an ONLINE member there, metadata is dropped iff an attending OFFLINE leader whose peers look gone
   got no answer to the ONLINE count or one that does not show it, none or zero to the UNREACHABLE one, and failed
   to reboot. Where the instance's view is that of the cluster, the ONLINE count must have failed.
   */
  lemma DropBesideOnline(s: Sight)
    requires s.online.actual > 0
    ensures TakesDrop(s) <==>
            && Attends(s) && SeesNobody(s) && (s.online.QueryFailed? || s.online.shown == 0)
            && Number(s.unreachable) == 0 && !s.rebootOk
    ensures Accurate(s.online) ==>
              (TakesDrop(s) <==> && Attends(s) && SeesNobody(s) && s.online.QueryFailed?
                                 && Number(s.unreachable) == 0 && !s.rebootOk)
  {
    DropsExactly(s);
  }

  /** An OFFLINE leader without peers, both of whose counts go unanswered while a member is there. */
  const BLIND: Sight := Sight(
    true, true, false, Some(Offline), true, false, None, QueryFailed(1), QueryFailed(1),
    false, true, true, false, false, false)

  /** The same leader, whose counts are answered from a view that shows nobody. */
  const STALE: Sight := BLIND.(online := Counted(0, 1), unreachable := Counted(0, 1))

  /** The cluster is rebooted beside an unreachable member, because of a failed query or of a stale view. */
  lemma BlindReboot()
    ensures BLIND.unreachable.actual > 0 && Accurate(BLIND.unreachable) && TakesReboot(BLIND)
    ensures STALE.unreachable.actual > 0 && STALE.unreachable.Counted? && TakesReboot(STALE)
  {
    RebootBesideUnreachable(BLIND);
    RebootBesideUnreachable(STALE);
  }

  /** The metadata is dropped while a member is ONLINE, because of a failed query or of a stale view. */
  lemma BlindDrop()
    ensures BLIND.online.actual > 0 && Accurate(BLIND.online) && TakesDrop(BLIND)
    ensures STALE.online.actual > 0 && STALE.online.Counted? && TakesDrop(STALE)
  {
    DropBesideOnline(BLIND);
    DropBesideOnline(STALE);
  }

  // The same, told by what the unit sees alone.

  lemma MayRecoverOnSight(s: Sight)
    ensures Reboots(s) <==>
            var peers := if s.peers.Some? then s.peers.value else [];
            && s.leader && (s.unreachable.QueryFailed? || s.unreachable.shown == 0)
            && (|| (s.state == Some(Online) && s.noQuorum)
                || (&& s.state == Some(Offline) && Online !in peers
                    && (|| peers == []
                        || (forall i :: 0 <= i < |peers| ==> peers[i] == Offline)
                        || (forall i :: 0 <= i < |peers| ==> peers[i] == Waiting))
                    && (s.online.QueryFailed? || s.online.shown == 0)))
  {
  }

  /** When a unit reboots the cluster. */
  lemma RebootsOnSight(s: Sight)
    ensures TakesReboot(s) <==>
            var peers := if s.peers.Some? then s.peers.value else [];
            && s.running && s.initialized && !s.refreshing && s.leader
            && (s.unreachable.QueryFailed? || s.unreachable.shown == 0)
            && (|| (s.state == Some(Online) && s.noQuorum)
                || (&& s.state == Some(Offline) && Online !in peers
                    && (|| peers == []
                        || (forall i :: 0 <= i < |peers| ==> peers[i] == Offline)
                        || (forall i :: 0 <= i < |peers| ==> peers[i] == Waiting))
                    && (s.online.QueryFailed? || s.online.shown == 0)))
  {
    RebootsExactly(s);
    MayRecoverOnSight(s);
  }

  /** When a unit drops the metadata. */
  lemma DropsOnSight(s: Sight)
    ensures TakesDrop(s) <==>
            var peers := if s.peers.Some? then s.peers.value else [];
            && s.running && s.initialized && !s.refreshing && s.leader
            && (s.unreachable.QueryFailed? || s.unreachable.shown == 0) && !s.rebootOk
            && s.state == Some(Offline) && Online !in peers
            && (|| peers == []
                || (forall i :: 0 <= i < |peers| ==> peers[i] == Offline)
                || (forall i :: 0 <= i < |peers| ==> peers[i] == Waiting))
            && (s.online.QueryFailed? || s.online.shown == 0)
  {
    DropsExactly(s);
    MayRecoverOnSight(s);
  }

  /** A stopped server is started, a unit that is not set up or refreshing waits, other states are left alone. */
  lemma IdleOnSight(s: Sight)
    ensures !s.running ==> Trace(s) == [StartServer]
    ensures s.running && (!s.initialized || s.refreshing) ==> Trace(s) == []
    ensures s.running && s.initialized && !s.refreshing && s.state != Some(Online) && s.state != Some(Offline) ==>
              Trace(s) == [UpdateEndpoints]
  {
  }

  /**
   All an ONLINE unit does: without quorum it stops replicating, and a leader reboots unless members are
   unreachable.
   */
  lemma OnlineOnSight(s: Sight)
    requires s.running && s.initialized && !s.refreshing && s.state == Some(Online)
    ensures !s.noQuorum ==> Trace(s) == [UpdateEndpoints]
    ensures s.noQuorum && !s.leader ==> Trace(s) == [StopReplication, SetStatus, UpdateEndpoints]
    ensures s.noQuorum && s.leader && s.unreachable.Counted? && s.unreachable.shown > 0 ==>
              Trace(s) == [StopReplication, CountUnreachable(s.unreachable), SetStatus, UpdateEndpoints]
    ensures s.noQuorum && s.leader && (s.unreachable.QueryFailed? || s.unreachable.shown == 0) ==>
              Trace(s) == [StopReplication, CountUnreachable(s.unreachable), Reboot(s.rebootOk),
                           if s.rebootOk then SetStatus else Block, UpdateEndpoints]
  {
  }

  /** All an OFFLINE unit does beside an ONLINE peer: it rejoins if a primary is found that lists it. */
  lemma RejoinsOnSight(s: Sight)
    requires s.running && s.initialized && !s.refreshing && s.state == Some(Offline)
    requires s.peers.Some? && Online in s.peers.value
    ensures Trace(s) == if !(s.primaryFound && s.listed) then [UpdateEndpoints]
                        else if s.rejoinOk then [Rejoin(true), UpdateEndpoints] else [Rejoin(false)]
  {
  }

  /** All an OFFLINE unit does otherwise, where `gone` tells whether its peers are all gone, OFFLINE or waiting. */
  lemma OfflineOnSight(s: Sight, gone: bool)
    requires s.running && s.initialized && !s.refreshing && s.state == Some(Offline)
    requires s.peers.Some? ==> Online !in s.peers.value
    requires gone <==> || s.peers.None? || s.peers.value == []
                       || (forall i :: 0 <= i < |s.peers.value| ==> s.peers.value[i] == Offline)
                       || (forall i :: 0 <= i < |s.peers.value| ==> s.peers.value[i] == Waiting)
    ensures !s.leader || !gone ==> Trace(s) == [UpdateEndpoints]
    ensures s.leader && gone && Number(s.online) > 0 ==> Trace(s) == [CountOnline(s.online), UpdateEndpoints]
    ensures s.leader && gone && Number(s.online) == 0 ==> Trace(s) == RescueTrace(s)
  {
    if s.leader && gone && Number(s.online) == 0 { RescueOnSight(s); }
  }

  /** Counting, stopping, counting again, rebooting, and on failure starting over. */
  function RescueTrace(s: Sight): seq<Action> {
    [CountOnline(s.online), StopReplication, CountUnreachable(s.unreachable)] +
    if Number(s.unreachable) > 0 then [SetStatus, UpdateEndpoints]
    else if s.rebootOk then [Reboot(true), SetStatus, UpdateEndpoints]
    else if !s.dropOk then [Reboot(false), DropMetadata(false)]
    else if !s.createOk then [Reboot(false), DropMetadata(true), CreateCluster(false)]
    else [Reboot(false), DropMetadata(true), CreateCluster(true), UpdateEndpoints]
  }

  lemma RescueOnSight(s: Sight)
    requires Attends(s) && SeesNobody(s) && Number(s.online) == 0
    ensures Trace(s) == RescueTrace(s)
  {
    var first := [CountOnline(s.online)] + [StopReplication] + [CountUnreachable(s.unreachable)];
    assert first == [CountOnline(s.online), StopReplication, CountUnreachable(s.unreachable)];
  }

  /** Only a leader reboots, drops or creates. */
  lemma RestoringNeedsLeader(s: Sight)
    requires exists a :: a in Trace(s) && Restores(a)
    ensures s.leader && Attends(s) && Reboots(s)
  {
    RebootsExactly(s);
    DropsExactly(s);
    CreatesExactly(s);
  }

  class SelfHealingHandler {
    var log: seq<Action>

    method CollectPeerStates(s: Sight) returns (states: set<Member>)
      ensures states == set m | m in PeerStates(s)
    {
      states := {};
      if s.peers.Some? {
        for i := 0 to |s.peers.value|
          invariant states == set m | m in s.peers.value[..i]
        {
          states := states + {s.peers.value[i]};
          assert s.peers.value[..i + 1] == s.peers.value[..i] + [s.peers.value[i]];
        }
        assert s.peers.value[..|s.peers.value|] == s.peers.value;
      }
    }

    /**
     `recover_cluster_quorum`: refuses silently when a member was counted unreachable; false when the reboot
     raised.
     */
    method RecoverClusterQuorum(s: Sight) returns (ok: bool)
      modifies this
      ensures log == old(log) + [CountUnreachable(s.unreachable)]
                     + (if Number(s.unreachable) > 0 then [] else [Reboot(s.rebootOk)])
      ensures ok <==> Number(s.unreachable) > 0 || s.rebootOk
    {
      log := log + [CountUnreachable(s.unreachable)];
      if Number(s.unreachable) > 0 {
        return true;
      }
      log := log + [Reboot(s.rebootOk)];
      ok := s.rebootOk;
    }

    /** `recreate_cluster`: creates nothing when dropping the metadata raised. */
    method RecreateCluster(s: Sight) returns (ok: bool)
      modifies this
      ensures log == old(log) + [DropMetadata(s.dropOk)] + (if s.dropOk then [CreateCluster(s.createOk)] else [])
      ensures ok <==> s.dropOk && s.createOk
    {
      log := log + [DropMetadata(s.dropOk)];
      if !s.dropOk {
        return false;
      }
      log := log + [CreateCluster(s.createOk)];
      ok := s.createOk;
    }

    method RejoinInstance(s: Sight) returns (ok: bool)
      modifies this
      ensures log == old(log) + Rejoining(s)
      ensures ok <==> Rejoining(s) == [] || s.rejoinOk
    {
      if PeerStates(s) == [] || !s.primaryFound || !s.listed {
        return true;
      }
      log := log + [Rejoin(s.rejoinOk)];
      ok := s.rejoinOk;
    }

    method RecoverFromOnline(s: Sight) returns (ok: bool)
      requires s.state == Some(Online)
      modifies this
      ensures log == old(log) + Recovery(s) && ok == !Raises(s)
    {
      ok := true;
      if !s.noQuorum {
        return;
      }
      log := log + [StopReplication];
      if s.leader {
        var recovered := RecoverClusterQuorum(s);
        log := log + (if recovered then [SetStatus] else [Block]);
      } else {
        log := log + [SetStatus];
      }
    }

    method RecoverFromOffline(s: Sight) returns (ok: bool)
      requires s.state == Some(Offline)
      modifies this
      ensures log == old(log) + Recovery(s) && ok == !Raises(s)
    {
      ok := true;
      var states := CollectPeerStates(s);
      StatesAsSet(PeerStates(s), states);
      if Online in states {
        ok := RejoinInstance(s);
        return;
      }
      if !s.leader || !(states == {} || states == {Offline} || states == {Waiting}) {
        return;
      }
      log := log + [CountOnline(s.online)];
      if Number(s.online) > 0 {
        return;
      }
      log := log + [StopReplication];
      var recovered := RecoverClusterQuorum(s);
      if recovered {
        log := log + [SetStatus];
      } else {
        ok := RecreateCluster(s);
      }
    }

    /** `_on_self_healing`. */
    method OnSelfHealing(s: Sight)
      modifies this
      ensures log == old(log) + Trace(s)
    {
      if !s.running {
        log := log + [StartServer];
        return;
      }
      if !s.initialized || s.refreshing {
        return;
      }
      var ok := true;
      if s.state == Some(Online) {
        ok := RecoverFromOnline(s);
      } else if s.state == Some(Offline) {
        ok := RecoverFromOffline(s);
      }
      if ok {
        log := log + [UpdateEndpoints];
      }
    }
  }
}
