/**
 Self-healing by several units: each unit takes the actions of its event one at a time, the
 actions of different units interleave, and leadership moves between terms. A unit reads once,
 when its event begins, whether it leads; the answers in its sight are those its queries get
 when they are made.
 */
module HealingRuns {
  import opened Text
  import opened SelfHealing

  type Unit = string

  /** An event under way: the actions it is made of, and how many of them have been taken. */
  datatype Open = Open(sight: Sight, began: nat, plan: seq<Action>, at: nat)

  /** An action taken: by whom, in which event, in which term the event began and the action was taken. */
  datatype Done = Done(unit: Unit, action: Action, sight: Sight, began: nat, term: nat)

  /** The leader of every term so far, the events under way, and the actions taken. */
  datatype Cluster = Cluster(leaders: seq<Option<Unit>>, open: map<Unit, Open>, log: seq<Done>)

  datatype Step = Elect(to: Option<Unit>) | Begin(u: Unit, sight: Sight) | Act(u: Unit)

  const START := Cluster([None], map[], [])

  function Term(c: Cluster): nat { if c.leaders == [] then 0 else |c.leaders| - 1 }

  function LeaderOf(c: Cluster, term: nat): Option<Unit> { if term < |c.leaders| then c.leaders[term] else None }

  function Leader(c: Cluster): Option<Unit> { LeaderOf(c, Term(c)) }

  predicate Busy(c: Cluster, u: Unit) { u in c.open && c.open[u].at < |c.open[u].plan| }

  /** A unit begins an event when its last one is over; it then learns whether it leads. */
  function Next(c: Cluster, step: Step): Cluster {
    match step
    case Elect(to) => c.(leaders := c.leaders + [to])
    case Begin(u, sight) =>
      if Busy(c, u) then c
      else
        var s := sight.(leader := Leader(c) == Some(u));
        c.(open := c.open[u := Open(s, Term(c), Trace(s), 0)])
    case Act(u) => if Busy(c, u) then TakeAction(c, u, c.open[u]) else c
  }

  function TakeAction(c: Cluster, u: Unit, o: Open): Cluster
    requires o.at < |o.plan|
  {
    c.(open := c.open[u := o.(at := o.at + 1)],
       log := c.log + [Done(u, o.plan[o.at], o.sight, o.began, Term(c))])
  }

  function After(c: Cluster, run: seq<Step>): Cluster {
    if run == [] then c else Next(After(c, run[..|run| - 1]), run[|run| - 1])
  }

  // What the log of a run tells.

  ghost predicate Logged(c: Cluster, u: Unit, a: Action, o: Open) {
    exists k :: 0 <= k < |c.log| && Same(c.log[k], u, a, o.sight, o.began)
  }

  predicate Same(d: Done, u: Unit, a: Action, s: Sight, began: nat) {
    d.unit == u && d.action == a && d.sight == s && d.began == began
  }

  ghost predicate RebootFirst(plan: seq<Action>) {
    forall n :: 0 <= n < |plan| && plan[n].DropMetadata? ==> exists i :: 0 <= i < n && plan[i] == Reboot(false)
  }

  /** An event under way began in a term whose leader it knows, and has logged what it has done. */
  ghost predicate OpenRecorded(c: Cluster, u: Unit, o: Open) {
    && o.began <= Term(c) && (o.sight.leader <==> LeaderOf(c, o.began) == Some(u))
    && RebootFirst(o.plan)
    && (forall i :: 0 <= i < o.at && i < |o.plan| ==> Logged(c, u, o.plan[i], o))
  }

  /** A logged action belongs to an event that knew its term's leader, and a drop to one with a failed reboot. */
  ghost predicate DoneRecorded(c: Cluster, k: nat, d: Done) {
    && d.began <= d.term <= Term(c) && (d.sight.leader <==> LeaderOf(c, d.began) == Some(d.unit))
    && (d.action.DropMetadata? ==>
          exists i :: 0 <= i < k && i < |c.log| && Same(c.log[i], d.unit, Reboot(false), d.sight, d.began))
  }

  ghost predicate Recorded(c: Cluster) {
    && c.leaders != []
    && (forall u :: u in c.open ==> OpenRecorded(c, u, c.open[u]))
    && (forall k :: 0 <= k < |c.log| ==> DoneRecorded(c, k, c.log[k]))
  }

  lemma LoggedStays(c: Cluster, c': Cluster, u: Unit, a: Action, o: Open, o': Open)
    requires Logged(c, u, a, o) && c.log <= c'.log && o'.sight == o.sight && o'.began == o.began
    ensures Logged(c', u, a, o')
  {
    var k :| 0 <= k < |c.log| && Same(c.log[k], u, a, o.sight, o.began);
    assert c'.log[k] == c.log[k];
  }

  lemma OpenStays(c: Cluster, c': Cluster, u: Unit, o: Open)
    requires OpenRecorded(c, u, o) && c.leaders != [] && c.leaders <= c'.leaders && c.log <= c'.log
    ensures OpenRecorded(c', u, o)
  {
    forall i | 0 <= i < o.at && i < |o.plan| ensures Logged(c', u, o.plan[i], o) {
      LoggedStays(c, c', u, o.plan[i], o, o);
    }
  }

  lemma DoneStays(c: Cluster, c': Cluster, k: nat, d: Done)
    requires DoneRecorded(c, k, d) && c.leaders != [] && c.leaders <= c'.leaders && c.log <= c'.log
    ensures DoneRecorded(c', k, d)
  {
    if d.action.DropMetadata? {
      var i :| 0 <= i < k && i < |c.log| && Same(c.log[i], d.unit, Reboot(false), d.sight, d.began);
      assert c'.log[i] == c.log[i];
    }
  }

  lemma ActKeepsOpen(c: Cluster, u: Unit, o: Open)
    requires OpenRecorded(c, u, o) && o.at < |o.plan|
    ensures OpenRecorded(TakeAction(c, u, o), u, o.(at := o.at + 1))
  {
    var c', o' := TakeAction(c, u, o), o.(at := o.at + 1);
    forall i | 0 <= i < o'.at ensures Logged(c', u, o.plan[i], o') {
      if i < o.at {
        LoggedStays(c, c', u, o.plan[i], o, o');
      } else {
        assert Same(c'.log[|c.log|], u, o.plan[i], o.sight, o.began);
      }
    }
  }

  lemma ActIsRecorded(c: Cluster, u: Unit, o: Open)
    requires OpenRecorded(c, u, o) && o.at < |o.plan|
    ensures DoneRecorded(TakeAction(c, u, o), |c.log|, TakeAction(c, u, o).log[|c.log|])
  {
    var c' := TakeAction(c, u, o);
    if o.plan[o.at].DropMetadata? {
      var i :| 0 <= i < o.at && o.plan[i] == Reboot(false);
      assert Logged(c, u, o.plan[i], o);
      var k :| 0 <= k < |c.log| && Same(c.log[k], u, Reboot(false), o.sight, o.began);
      assert c'.log[k] == c.log[k];
    }
  }

  lemma TraceRebootsFirst(s: Sight)
    ensures RebootFirst(Trace(s))
  {
    var t := Trace(s);
    forall n | 0 <= n < |t| && t[n].DropMetadata? ensures exists i :: 0 <= i < n && t[i] == Reboot(false) {
      assert t[n] in t;
      DropsExactly(s);
      assert forall i :: 0 <= i < 5 ==> t[i] == DropTrace(s)[i];
      assert n >= 4;
      assert t[3] == Reboot(false);
    }
  }

  lemma BeginIsRecorded(c: Cluster, u: Unit, s: Sight)
    requires c.leaders != [] && (s.leader <==> Leader(c) == Some(u))
    ensures OpenRecorded(c, u, Open(s, Term(c), Trace(s), 0))
  {
    TraceRebootsFirst(s);
  }

  lemma StepKeepsRecords(c: Cluster, step: Step)
    requires Recorded(c)
    ensures Recorded(Next(c, step))
  {
    var c' := Next(c, step);
    if step.Act? && Busy(c, step.u) {
      ActKeepsOpen(c, step.u, c.open[step.u]);
      ActIsRecorded(c, step.u, c.open[step.u]);
    }
    if step.Begin? {
      var s := step.sight.(leader := Leader(c) == Some(step.u));
      BeginIsRecorded(c, step.u, s);
      OpenStays(c, c', step.u, Open(s, Term(c), Trace(s), 0));
    }
    forall u | u in c'.open ensures OpenRecorded(c', u, c'.open[u]) {
      if u in c.open && c'.open[u] == c.open[u] { OpenStays(c, c', u, c.open[u]); }
    }
    forall k | 0 <= k < |c'.log| ensures DoneRecorded(c', k, c'.log[k]) {
      if k < |c.log| { DoneStays(c, c', k, c.log[k]); }
    }
  }

  /** Every event is made of the actions that its sight calls for. */
  ghost predicate Planned(c: Cluster) {
    && (forall u :: u in c.open ==> c.open[u].plan == Trace(c.open[u].sight))
    && (forall k :: 0 <= k < |c.log| ==> c.log[k].action in Trace(c.log[k].sight))
  }

  lemma StepKeepsPlans(c: Cluster, step: Step)
    requires Planned(c)
    ensures Planned(Next(c, step))
  {
    if step.Act? && Busy(c, step.u) {
      var o := c.open[step.u];
      assert o.plan[o.at] in o.plan;
    }
  }

  lemma {:induction false} RunKeepsRecords(run: seq<Step>)
    ensures Recorded(After(START, run)) && Planned(After(START, run))
  {
    if run != [] {
      RunKeepsRecords(run[..|run| - 1]);
      StepKeepsRecords(After(START, run[..|run| - 1]), run[|run| - 1]);
      StepKeepsPlans(After(START, run[..|run| - 1]), run[|run| - 1]);
    }
  }

  /** A count that let the unit go on. */
  predicate NobodyShown(c: Count) {
    && (c.QueryFailed? || c.shown == 0)
    && (Accurate(c) ==> c.actual == 0 || c.QueryFailed?)
  }

  /**
   In every run, every reboot, drop or creation is taken by the leader of the term in which its event
   began, after a count of unreachable members that showed none or failed; a drop or creation moreover by an
   OFFLINE unit after an ONLINE count that showed none or failed. Where the views asked are those of the
   cluster, a member can have been there only if the query failed.
   */
  lemma RunSafety(run: seq<Step>, k: nat)
    requires k < |After(START, run).log|
    requires var a := After(START, run).log[k].action; a.Reboot? || a.DropMetadata? || a.CreateCluster?
    ensures var c := After(START, run); var d := c.log[k];
            && LeaderOf(c, d.began) == Some(d.unit)
            && NobodyShown(d.sight.unreachable)
            && (!d.action.Reboot? ==>
                  && d.sight.state == Some(Offline) && Online !in PeerStates(d.sight)
                  && NobodyShown(d.sight.online))
  {
    var c := After(START, run);
    RunKeepsRecords(run);
    assert DoneRecorded(c, k, c.log[k]);
    RestoringNeedsLeader(c.log[k].sight);
    RebootsExactly(c.log[k].sight);
    DropsExactly(c.log[k].sight);
  }

  /** In every run, metadata is dropped only after a reboot that failed in the same event, earlier in the run. */
  lemma DropFollowsReboot(run: seq<Step>, k: nat)
    requires k < |After(START, run).log| && After(START, run).log[k].action.DropMetadata?
    ensures var c := After(START, run); var d := c.log[k];
            exists i :: 0 <= i < k && Same(c.log[i], d.unit, Reboot(false), d.sight, d.began)
  {
    RunKeepsRecords(run);
    assert DoneRecorded(After(START, run), k, After(START, run).log[k]);
  }

  /**
   In every run, the restoring actions of events begun in one term are all taken by one unit; two units
   restore within one term only if the event of one of them was carried over an election.
   */
  lemma OneRestorerPerTerm(run: seq<Step>, i: nat, k: nat)
    requires i < |After(START, run).log| && k < |After(START, run).log|
    requires var a := After(START, run).log[i].action; a.Reboot? || a.DropMetadata? || a.CreateCluster?
    requires var a := After(START, run).log[k].action; a.Reboot? || a.DropMetadata? || a.CreateCluster?
    ensures var a, b := After(START, run).log[i], After(START, run).log[k];
            && (a.began == b.began ==> a.unit == b.unit)
            && (a.term == b.term && a.unit != b.unit ==> a.began < a.term || b.began < b.term)
  {
    var c := After(START, run);
    RunKeepsRecords(run);
    assert DoneRecorded(c, i, c.log[i]) && DoneRecorded(c, k, c.log[k]);
    RunSafety(run, i);
    RunSafety(run, k);
  }

  // When two units can be restoring at once.

  ghost predicate Ahead(o: Open) { exists i :: o.at <= i < |o.plan| && Restores(o.plan[i]) }

  /** The unit's event has a reboot, drop or creation ahead of it. */
  ghost predicate Pending(c: Cluster, u: Unit) { u in c.open && Ahead(c.open[u]) }

  ghost predicate Alone(c: Cluster) { forall u, v :: Pending(c, u) && Pending(c, v) ==> u == v }

  /** The unit is about to restore, or could begin to. */
  ghost predicate Claims(c: Cluster, u: Unit) { Pending(c, u) || Leader(c) == Some(u) }

  ghost predicate Settled(c: Cluster) { forall u, v :: Claims(c, u) && Claims(c, v) ==> u == v }

  predicate NoElection(run: seq<Step>) { forall i :: 0 <= i < |run| ==> !run[i].Elect? }

  lemma AheadOfNew(s: Sight, began: nat)
    requires Ahead(Open(s, began, Trace(s), 0))
    ensures s.leader
  {
    var i :| 0 <= i < |Trace(s)| && Restores(Trace(s)[i]);
    assert Trace(s)[i] in Trace(s);
    RestoringNeedsLeader(s);
  }

  lemma PendingAfter(c: Cluster, step: Step, u: Unit)
    requires Pending(Next(c, step), u) && !step.Elect?
    ensures Claims(c, u)
  {
    if step.u == u && step.Begin? && !Busy(c, u) {
      AheadOfNew(step.sight.(leader := Leader(c) == Some(u)), Term(c));
    }
  }

  lemma StepKeepsSettled(c: Cluster, step: Step)
    requires Settled(c) && !step.Elect?
    ensures Settled(Next(c, step))
  {
    var c' := Next(c, step);
    assert Leader(c') == Leader(c);
    forall u | Claims(c', u) ensures Claims(c, u) {
      if Pending(c', u) { PendingAfter(c, step, u); }
    }
  }

  lemma {:induction false} RunKeepsSettled(c: Cluster, run: seq<Step>)
    requires Settled(c) && NoElection(run)
    ensures Settled(After(c, run))
  {
    if run != [] {
      RunKeepsSettled(c, run[..|run| - 1]);
      StepKeepsSettled(After(c, run[..|run| - 1]), run[|run| - 1]);
    }
  }

  lemma {:induction false} AfterConcat(c: Cluster, a: seq<Step>, b: seq<Step>)
    ensures After(c, a + b) == After(After(c, a), b)
  {
    if b == [] {
      assert a + b == a;
    } else {
      var n := |b| - 1;
      assert (a + b)[..|a| + n] == a + b[..n];
      AfterConcat(c, a, b[..n]);
    }
  }

  lemma AfterOne(c: Cluster, step: Step)
    ensures After(c, [step]) == Next(c, step)
  {
    assert [step][..0] == [];
    assert After(c, [step][..0]) == c;
  }

  /** The events of all units but `v` are as before. */
  ghost predicate SameBut(c: Cluster, c': Cluster, v: Unit) {
    forall u :: u != v ==> (u in c'.open <==> u in c.open) && (u in c.open ==> c'.open[u] == c.open[u])
  }

  /** A unit can always finish its event, the others waiting meanwhile. */
  lemma {:induction false} Finishes(c: Cluster, v: Unit) returns (run: seq<Step>)
    ensures NoElection(run) && !Busy(After(c, run), v) && Leader(After(c, run)) == Leader(c)
    ensures SameBut(c, After(c, run), v)
    decreases if Busy(c, v) then |c.open[v].plan| - c.open[v].at else 0
  {
    if !Busy(c, v) {
      run := [];
    } else {
      var c' := Next(c, Act(v));
      var rest := Finishes(c', v);
      run := [Act(v)] + rest;
      AfterOne(c, Act(v));
      AfterConcat(c, [Act(v)], rest);
    }
  }

  /** A leader may find the cluster gone at any time. */
  lemma MayBegin(c: Cluster, v: Unit)
    requires Leader(c) == Some(v) && !Busy(c, v)
    ensures Pending(Next(c, Begin(v, BLIND)), v)
    ensures SameBut(c, Next(c, Begin(v, BLIND)), v)
  {
    BlindReboot();
    var a :| a in Trace(BLIND) && a.Reboot?;
    var i :| 0 <= i < |Trace(BLIND)| && Trace(BLIND)[i] == a;
    assert BLIND.(leader := true) == BLIND;
    assert Restores(Trace(BLIND)[i]);
    assert Ahead(Open(BLIND, Term(c), Trace(BLIND), 0));
  }

  /** Beside a unit about to restore, a leader other than it can come to be about to restore too. */
  lemma LeaderCatchesUp(c: Cluster, u: Unit, v: Unit) returns (run: seq<Step>)
    requires u != v && Pending(c, u) && Leader(c) == Some(v)
    ensures NoElection(run) && !Alone(After(c, run))
  {
    var first := Finishes(c, v);
    var between := After(c, first);
    var step := Begin(v, BLIND);
    run := first + [step];
    AfterConcat(c, first, [step]);
    AfterOne(between, step);
    MayBegin(between, v);
    assert Pending(between, u) && Pending(Next(between, step), u);
  }

  /**
   Until the next election no two units are ever about to restore at once, exactly when nobody
   but the leader, or a single unit where there is no leader, is about to restore now.
   */
  lemma ExclusiveExactly(c: Cluster)
    ensures (forall run :: NoElection(run) ==> Alone(After(c, run))) <==> Settled(c)
  {
    if Settled(c) {
      forall run | NoElection(run) ensures Alone(After(c, run)) {
        RunKeepsSettled(c, run);
        assert forall u :: Pending(After(c, run), u) ==> Claims(After(c, run), u);
      }
    } else {
      var u, v :| Claims(c, u) && Claims(c, v) && u != v;
      if Pending(c, u) && Pending(c, v) {
        assert After(c, []) == c;
        assert NoElection([]) && !Alone(After(c, []));
      } else if Pending(c, u) {
        var run := LeaderCatchesUp(c, u, v);
      } else {
        var run := LeaderCatchesUp(c, v, u);
      }
    }
  }

  /** The election takes the lead from nobody who is about to restore. */
  ghost predicate Calm(c: Cluster, to: Option<Unit>) { forall u :: Pending(c, u) ==> to == None || to == Some(u) }

  /** An election keeps restoring exclusive exactly when it is calm. */
  lemma ElectionExactly(c: Cluster, to: Option<Unit>)
    requires Settled(c)
    ensures (forall run :: NoElection(run) ==> Alone(After(Next(c, Elect(to)), run))) <==> Calm(c, to)
  {
    var c' := Next(c, Elect(to));
    assert Leader(c') == to;
    assert forall u :: Pending(c', u) <==> Pending(c, u);
    assert forall u :: Pending(c, u) ==> Claims(c, u);
    assert Settled(c') <==> Calm(c, to) by {
      if Settled(c') && to.Some? {
        assert Claims(c', to.value);
        assert forall u :: Pending(c, u) ==> Claims(c', u);
      }
    }
    ExclusiveExactly(c');
  }

  ghost predicate CalmRun(run: seq<Step>) {
    forall i :: 0 <= i < |run| && run[i].Elect? ==> Calm(After(START, run[..i]), run[i].to)
  }

  /** In every run with calm elections, no two units are ever about to restore at once. */
  lemma {:induction false} CalmRunsAreExclusive(run: seq<Step>)
    requires CalmRun(run)
    ensures Settled(After(START, run)) && Alone(After(START, run))
  {
    if run != [] {
      var n := |run| - 1;
      forall i | 0 <= i < n && run[..n][i].Elect? ensures Calm(After(START, run[..n][..i]), run[..n][i].to) {
        assert run[..n][..i] == run[..i];
      }
      CalmRunsAreExclusive(run[..n]);
      var before := After(START, run[..n]);
      if run[n].Elect? {
        ElectionExactly(before, run[n].to);
        ExclusiveExactly(After(START, run));
      } else {
        StepKeepsSettled(before, run[n]);
      }
    }
    assert forall u :: Pending(After(START, run), u) ==> Claims(After(START, run), u);
  }

  /** Leadership that moves during an event lets two units restore at once. */
  lemma TwoRestorers(a: Unit, b: Unit) returns (run: seq<Step>)
    requires a != b
    ensures !Alone(After(START, run))
  {
    var c1 := Next(START, Elect(Some(a)));
    var c2 := Next(c1, Begin(a, BLIND));
    var c3 := Next(c2, Elect(Some(b)));
    AfterOne(START, Elect(Some(a)));
    AfterOne(c1, Begin(a, BLIND));
    AfterOne(c2, Elect(Some(b)));
    AfterConcat(START, [Elect(Some(a))], [Begin(a, BLIND)]);
    AfterConcat(START, [Elect(Some(a))] + [Begin(a, BLIND)], [Elect(Some(b))]);
    MayBegin(c1, a);
    var rest := LeaderCatchesUp(c3, a, b);
    run := [Elect(Some(a))] + [Begin(a, BLIND)] + [Elect(Some(b))] + rest;
    AfterConcat(START, [Elect(Some(a))] + [Begin(a, BLIND)] + [Elect(Some(b))], rest);
  }
}
