/**
 The cluster-level lock around adding, rejoining and removing instances
 (`MySQLClusterClient`), as a machine in which every SQL round trip of every client is
 one step. A lock table holds at most one row per task; acquiring writes the row only if
 it is free or already the caller's, releasing drops it only if it is the caller's.
 */
module ClusterLocks {

  datatype Task = Addition | Removal

  /** What a client sets out to do; `clone` tells the recovery method asked for. */
  datatype Job = Add(clone: bool) | Rejoin | Remove

  function TaskOf(job: Job): Task { if job.Remove? then Removal else Addition }

  const MAX_ATTEMPTS: nat := 10

  datatype Pc =
    | Idle
    | Acquiring(job: Job, attempts: nat)
    | Working(job: Job, retried: bool)
    | Releasing(job: Job, failed: bool)
    | Finished(failed: bool)

  type Pid = nat

  /** The lock rows, where each client is, and how often it entered its section and attempted a release. */
  datatype State = State(rows: map<Task, string>, pcs: map<Pid, Pc>, entries: map<Pid, nat>, releases: map<Pid, nat>)

  /** How an SQL call ends: answered, or failed before or after taking effect. */
  datatype Reply = Answered | LostBefore | LostAfter

  datatype Step =
    | Start(p: Pid, job: Job, isPrimary: bool)
    | Acquire(p: Pid, reply: Reply)
    | Work(p: Pid, ok: bool)
    | Release(p: Pid, reply: Reply)

  type Labels = map<Pid, string>

  function At(s: State, p: Pid): Pc { if p in s.pcs then s.pcs[p] else Idle }

  function Count(m: map<Pid, nat>, p: Pid): nat { if p in m then m[p] else 0 }

  function LabelOf(names: Labels, p: Pid): string { if p in names then names[p] else "" }

  predicate Holds(s: State, t: Task, who: string) { t in s.rows && s.rows[t] == who }

  function Take(rows: map<Task, string>, t: Task, who: string): map<Task, string> {
    if t in rows then rows else rows[t := who]
  }

  function Drop(rows: map<Task, string>, t: Task, who: string): map<Task, string> {
    if t in rows && rows[t] == who then rows - {t} else rows
  }

  function Move(s: State, p: Pid, pc: Pc): State { s.(pcs := s.pcs[p := pc]) }

  /** `tenacity` gives up after the tenth failed attempt. */
  function FailAttempt(s: State, p: Pid, job: Job, attempts: nat): State {
    Move(s, p, if attempts + 1 >= MAX_ATTEMPTS then Finished(true) else Acquiring(job, attempts + 1))
  }

  function Begin(s: State, p: Pid, job: Job, isPrimary: bool): State {
    match At(s, p)
    case Idle => Move(s, p, if job.Remove? && isPrimary then Finished(false) else Acquiring(job, 0))
    case Finished(_) => Move(s, p, if job.Remove? && isPrimary then Finished(false) else Acquiring(job, 0))
    case _ => s
  }

  function TryAcquire(s: State, names: Labels, p: Pid, reply: Reply): State {
    match At(s, p)
    case Acquiring(job, attempts) =>
      var t, who := TaskOf(job), LabelOf(names, p);
      var rows := if reply == LostBefore then s.rows else Take(s.rows, t, who);
      if reply == Answered && t in rows && rows[t] == who
      then Move(s.(rows := rows, entries := s.entries[p := Count(s.entries, p) + 1]), p, Working(job, false))
      else FailAttempt(s.(rows := rows), p, job, attempts)
    case _ => s
  }

  /** A failed first attempt to add is repeated with `clone`; any other end leads to the release. */
  function AfterCall(pc: Pc, ok: bool): Pc {
    match pc
    case Working(job, retried) =>
      if !ok && job.Add? && !job.clone && !retried then Working(job, true) else Releasing(job, !ok)
    case _ => pc
  }

  function DoWork(s: State, p: Pid, ok: bool): State {
    if At(s, p).Working? then Move(s, p, AfterCall(At(s, p), ok)) else s
  }

  function TryRelease(s: State, names: Labels, p: Pid, reply: Reply): State {
    match At(s, p)
    case Releasing(job, failed) =>
      var rows := if reply == LostBefore then s.rows else Drop(s.rows, TaskOf(job), LabelOf(names, p));
      Move(s.(rows := rows, releases := s.releases[p := Count(s.releases, p) + 1]), p,
           Finished(failed || reply != Answered))
    case _ => s
  }

  function Next(s: State, names: Labels, step: Step): State {
    match step
    case Start(p, job, isPrimary) => Begin(s, p, job, isPrimary)
    case Acquire(p, reply) => TryAcquire(s, names, p, reply)
    case Work(p, ok) => DoWork(s, p, ok)
    case Release(p, reply) => TryRelease(s, names, p, reply)
  }

  function Run(s: State, names: Labels, steps: seq<Step>): State {
    if steps == [] then s else Next(Run(s, names, steps[..|steps| - 1]), names, steps[|steps| - 1])
  }

  const START := State(map[], map[], map[], map[])

  predicate Inside(s: State, p: Pid, t: Task) {
    match At(s, p)
    case Working(job, _) => TaskOf(job) == t
    case Releasing(job, _) => TaskOf(job) == t
    case _ => false
  }

  /** No two clients carry the same label. */
  ghost predicate OwnLabels(names: Labels, pids: set<Pid>) {
    forall p, q :: p in pids && q in pids && LabelOf(names, p) == LabelOf(names, q) ==> p == q
  }

  ghost predicate Among(steps: seq<Step>, pids: set<Pid>) {
    forall i :: 0 <= i < |steps| ==> steps[i].p in pids
  }

  /** Whoever is inside a section holds its row. */
  ghost predicate InsideHolds(s: State, names: Labels, pids: set<Pid>) {
    && (forall p :: p in s.pcs ==> p in pids)
    && (forall p, t :: Inside(s, p, t) ==> Holds(s, t, LabelOf(names, p)))
  }

  ghost predicate Exclusive(s: State) {
    forall p, q, t :: Inside(s, p, t) && Inside(s, q, t) ==> p == q
  }

  lemma StepKeepsHolding(s: State, names: Labels, pids: set<Pid>, step: Step)
    requires InsideHolds(s, names, pids) && OwnLabels(names, pids) && step.p in pids
    ensures InsideHolds(Next(s, names, step), names, pids)
  {
    var s' := Next(s, names, step);
    forall p, t | Inside(s', p, t) ensures Holds(s', t, LabelOf(names, p)) {
      if p != step.p {
        assert At(s', p) == At(s, p);
        assert Inside(s, p, t) && p in s.pcs && Holds(s, t, LabelOf(names, p));
        assert LabelOf(names, p) != LabelOf(names, step.p);
      } else if step.Work? {
        assert Inside(s, p, t) && Holds(s, t, LabelOf(names, p));
      } else if Inside(s, p, t) {
        assert Holds(s, t, LabelOf(names, p));
      }
    }
  }

  lemma {:induction false} RunKeepsHolding(names: Labels, pids: set<Pid>, steps: seq<Step>)
    requires OwnLabels(names, pids) && Among(steps, pids)
    ensures InsideHolds(Run(START, names, steps), names, pids)
  {
    if steps != [] {
      var n := |steps| - 1;
      RunKeepsHolding(names, pids, steps[..n]);
      assert steps[n].p in pids;
      StepKeepsHolding(Run(START, names, steps[..n]), names, pids, steps[n]);
    }
  }

  /**
   In every interleaving at most one client is in a section of each task, exactly when no
   two clients share a label: the row knows labels, not clients.
   */
  lemma MutualExclusion(names: Labels, pids: set<Pid>)
    ensures (forall steps :: Among(steps, pids) ==> Exclusive(Run(START, names, steps))) <==> OwnLabels(names, pids)
  {
    if OwnLabels(names, pids) {
      forall steps | Among(steps, pids) ensures Exclusive(Run(START, names, steps)) {
        RunKeepsHolding(names, pids, steps);
      }
    } else {
      var p, q :| p in pids && q in pids && LabelOf(names, p) == LabelOf(names, q) && p != q;
      SharedLabelEntersTwice(names, p, q);
      assert Among(Both(p, q), pids);
    }
  }

  function Both(p: Pid, q: Pid): seq<Step> {
    [Start(p, Rejoin, false), Acquire(p, Answered), Start(q, Rejoin, false), Acquire(q, Answered)]
  }

  lemma SharedLabelEntersTwice(names: Labels, p: Pid, q: Pid)
    requires LabelOf(names, p) == LabelOf(names, q) && p != q
    ensures var s := Run(START, names, Both(p, q)); Inside(s, p, Addition) && Inside(s, q, Addition)
  {
    var steps := Both(p, q);
    var s1 := Next(START, names, steps[0]);
    var s2 := Next(s1, names, steps[1]);
    var s3 := Next(s2, names, steps[2]);
    var s4 := Next(s3, names, steps[3]);
    assert steps[..3][..2] == steps[..2] && steps[..2][..1] == steps[..1] && steps[..1][..0] == [];
    assert Run(START, names, steps[..0]) == START;
    assert Run(START, names, steps[..1]) == s1;
    assert Run(START, names, steps[..2]) == s2;
    assert Run(START, names, steps[..3]) == s3;
    assert Run(START, names, steps) == s4;
  }

  /**
   Over every run: of clients adding or rejoining an instance at most one is in its section, and of clients
   removing one at most one.
   */
  lemma JobsExclude(names: Labels, pids: set<Pid>, steps: seq<Step>, p: Pid, q: Pid)
    requires OwnLabels(names, pids) && Among(steps, pids)
    requires var s := Run(START, names, steps);
             && (At(s, p).Working? || At(s, p).Releasing?) && (At(s, q).Working? || At(s, q).Releasing?)
             && (((At(s, p).job.Add? || At(s, p).job.Rejoin?) && (At(s, q).job.Add? || At(s, q).job.Rejoin?))
                 || (At(s, p).job.Remove? && At(s, q).job.Remove?))
    ensures p == q
  {
    var s := Run(START, names, steps);
    RunKeepsHolding(names, pids, steps);
    var t := TaskOf(At(s, p).job);
    assert Inside(s, p, t) && Inside(s, q, t);
  }

  /** Adding and removing do not exclude each other. */
  lemma AddBesideRemove(names: Labels, p: Pid, q: Pid)
    requires p != q
    ensures var s := Run(START, names, [Start(p, Add(false), false)] + [Acquire(p, Answered)]
                                       + [Start(q, Remove, false)] + [Acquire(q, Answered)]);
            At(s, p) == Working(Add(false), false) && At(s, q) == Working(Remove, false)
  {
    var a, b := Start(p, Add(false), false), Acquire(p, Answered);
    var c, d := Start(q, Remove, false), Acquire(q, Answered);
    RunOne(START, names, a);
    RunConcat(START, names, [a], [b]);
    RunOne(Run(START, names, [a]), names, b);
    RunConcat(START, names, [a] + [b], [c]);
    RunOne(Run(START, names, [a] + [b]), names, c);
    RunConcat(START, names, [a] + [b] + [c], [d]);
    RunOne(Run(START, names, [a] + [b] + [c]), names, d);
  }

  predicate InSection(s: State, p: Pid) { At(s, p).Working? || At(s, p).Releasing? }

  /** Every section entered is left by exactly one attempt to release. */
  ghost predicate Balanced(s: State) {
    && (forall p :: Count(s.entries, p) == Count(s.releases, p) + (if InSection(s, p) then 1 else 0))
    && (forall p :: At(s, p).Acquiring? ==> At(s, p).attempts < MAX_ATTEMPTS)
  }

  lemma StepKeepsBalance(s: State, names: Labels, step: Step)
    requires Balanced(s)
    ensures Balanced(Next(s, names, step))
  {
    var s' := Next(s, names, step);
    forall p ensures Count(s'.entries, p) == Count(s'.releases, p) + (if InSection(s', p) then 1 else 0)
             ensures At(s', p).Acquiring? ==> At(s', p).attempts < MAX_ATTEMPTS {
      assert Count(s.entries, p) == Count(s.releases, p) + (if InSection(s, p) then 1 else 0);
      assert p != step.p ==> At(s', p) == At(s, p);
    }
  }

  /**
   In every run, a release is attempted on every way out of a section, the failed retry
   with `clone` included: a client that is done has attempted as many releases as entries.
   */
  lemma {:induction false} ReleaseOnEveryExit(names: Labels, steps: seq<Step>)
    ensures Balanced(Run(START, names, steps))
    ensures forall p :: At(Run(START, names, steps), p).Finished? ==>
              Count(Run(START, names, steps).entries, p) == Count(Run(START, names, steps).releases, p)
  {
    if steps != [] {
      var n := |steps| - 1;
      ReleaseOnEveryExit(names, steps[..n]);
      StepKeepsBalance(Run(START, names, steps[..n]), names, steps[n]);
    }
  }

  /** How often a client has called the cluster from inside its sections. */
  function Calls(names: Labels, steps: seq<Step>, p: Pid): nat {
    if steps == [] then 0
    else
      var n := |steps| - 1;
      Calls(names, steps[..n], p) +
      (if steps[n].Work? && steps[n].p == p && At(Run(START, names, steps[..n]), p).Working? then 1 else 0)
  }

  /** The calls that the section a client is in may still make. */
  function CallsLeft(pc: Pc): nat { if pc.Working? then (if pc.retried then 1 else 2) else 0 }

  /** In every run a section calls the cluster at most twice: the second try, with `clone`, is the last. */
  lemma {:induction false} AtMostTwoCalls(names: Labels, steps: seq<Step>, p: Pid)
    ensures var s := Run(START, names, steps);
            Calls(names, steps, p) + CallsLeft(At(s, p)) <= 2 * Count(s.entries, p)
  {
    if steps != [] {
      var n := |steps| - 1;
      AtMostTwoCalls(names, steps[..n], p);
      var before, step := Run(START, names, steps[..n]), steps[n];
      if step.p != p { assert At(Next(before, names, step), p) == At(before, p); }
    }
  }

  /** A held row stays with its holder whatever others do, and they cannot enter meanwhile. */
  lemma OthersCannotEnter(s: State, names: Labels, step: Step, t: Task, who: string)
    requires Holds(s, t, who) && LabelOf(names, step.p) != who
    ensures Holds(Next(s, names, step), t, who)
    ensures !Inside(s, step.p, t) ==> !Inside(Next(s, names, step), step.p, t)
  {
  }

  /** Nobody is inside the task's section but clients labelled `who`. */
  ghost predicate OnlyInside(s: State, names: Labels, t: Task, who: string) {
    forall p :: Inside(s, p, t) ==> LabelOf(names, p) == who
  }

  ghost predicate Without(steps: seq<Step>, names: Labels, who: string) {
    forall i :: 0 <= i < |steps| ==> LabelOf(names, steps[i].p) != who
  }

  /**
   A row blocks its section for good: in any run in which no client of the row's label acts, the row
   stays and no client of another label is ever inside.
   */
  lemma {:induction false} RowBlocks(s: State, names: Labels, steps: seq<Step>, t: Task, who: string)
    requires Holds(s, t, who) && OnlyInside(s, names, t, who) && Without(steps, names, who)
    ensures Holds(Run(s, names, steps), t, who) && OnlyInside(Run(s, names, steps), names, t, who)
  {
    if steps != [] {
      var n := |steps| - 1;
      RowBlocks(s, names, steps[..n], t, who);
      var before, step := Run(s, names, steps[..n]), steps[n];
      OthersCannotEnter(before, names, step, t, who);
      forall p | Inside(Next(before, names, step), p, t) ensures LabelOf(names, p) == who {
        if p != step.p { assert Inside(before, p, t); }
      }
    }
  }

  /** After any run, a row whose client is done blocks every other client until that client acts again. */
  lemma OrphanBlocks(names: Labels, pids: set<Pid>, steps: seq<Step>, p: Pid, t: Task, later: seq<Step>)
    requires OwnLabels(names, pids) && Among(steps, pids) && p in pids
    requires At(Run(START, names, steps), p).Finished? && Holds(Run(START, names, steps), t, LabelOf(names, p))
    requires Among(later, pids) && Others(later, p)
    ensures Holds(Run(Run(START, names, steps), names, later), t, LabelOf(names, p))
    ensures forall q :: !Inside(Run(Run(START, names, steps), names, later), q, t)
  {
    var s := Run(START, names, steps);
    RunKeepsHolding(names, pids, steps);
    assert OnlyInside(s, names, t, LabelOf(names, p));
    forall i | 0 <= i < |later| ensures LabelOf(names, later[i].p) != LabelOf(names, p) {
      assert later[i].p in pids && later[i].p != p;
    }
    RowBlocks(s, names, later, t, LabelOf(names, p));
    OthersLeaveMe(s, names, later, p);
    RunConcat(START, names, steps, later);
    forall i | 0 <= i < |steps + later| ensures (steps + later)[i].p in pids {
      if i >= |steps| { assert (steps + later)[i] == later[i - |steps|]; }
    }
    RunKeepsHolding(names, pids, steps + later);
    assert forall q :: Inside(Run(s, names, later), q, t) ==> q in pids;
  }

  lemma {:induction false} RunConcat(s: State, names: Labels, a: seq<Step>, b: seq<Step>)
    ensures Run(s, names, a + b) == Run(Run(s, names, a), names, b)
  {
    if b == [] {
      assert a + b == a;
    } else {
      var n := |b| - 1;
      assert (a + b)[..|a| + n] == a + b[..n];
      RunConcat(s, names, a, b[..n]);
    }
  }

  ghost predicate Others(steps: seq<Step>, p: Pid) { forall i :: 0 <= i < |steps| ==> steps[i].p != p }

  lemma {:induction false} OthersLeaveMe(s: State, names: Labels, steps: seq<Step>, p: Pid)
    requires Others(steps, p)
    ensures At(Run(s, names, steps), p) == At(s, p)
    ensures Count(Run(s, names, steps).entries, p) == Count(s.entries, p)
  {
    if steps != [] {
      OthersLeaveMe(s, names, steps[..|steps| - 1], p);
      assert steps[|steps| - 1].p != p;
    }
  }

  /** A rejoin that goes well but for its release, which is lost on the way. */
  function LostRelease(p: Pid): seq<Step> {
    [Start(p, Rejoin, false)] + [Acquire(p, Answered)] + [Work(p, true)] + [Release(p, LostBefore)]
  }

  lemma RunOne(s: State, names: Labels, step: Step)
    ensures Run(s, names, [step]) == Next(s, names, step)
  {
    assert [step][..0] == [];
    assert Run(s, names, [step][..0]) == s;
  }

  lemma LostReleaseLeavesRow(names: Labels, p: Pid)
    ensures var s := Run(START, names, LostRelease(p)); At(s, p).Finished? && Holds(s, Addition, LabelOf(names, p))
  {
    var a, b, c, d := Start(p, Rejoin, false), Acquire(p, Answered), Work(p, true), Release(p, LostBefore);
    RunOne(START, names, a);
    RunConcat(START, names, [a], [b]);
    RunOne(Run(START, names, [a]), names, b);
    RunConcat(START, names, [a] + [b], [c]);
    RunOne(Run(START, names, [a] + [b]), names, c);
    RunConcat(START, names, [a] + [b] + [c], [d]);
    RunOne(Run(START, names, [a] + [b] + [c]), names, d);
  }

  /** Attempts to acquire whose answers are all lost. */
  function Unanswered(p: Pid, n: nat): seq<Step> {
    if n == 0 then [Start(p, Rejoin, false)] else Unanswered(p, n - 1) + [Acquire(p, LostAfter)]
  }

  lemma {:induction false} GivingUpLeavesRow(names: Labels, p: Pid, n: nat)
    requires n <= 10
    ensures At(Run(START, names, Unanswered(p, n)), p) == if n == 10 then Finished(true) else Acquiring(Rejoin, n)
    ensures n > 0 ==> Holds(Run(START, names, Unanswered(p, n)), Addition, LabelOf(names, p))
    ensures Run(START, names, Unanswered(p, n)).rows.Keys <= {Addition}
  {
    if n == 0 {
      RunOne(START, names, Start(p, Rejoin, false));
    } else {
      var before := Unanswered(p, n - 1);
      GivingUpLeavesRow(names, p, n - 1);
      RunConcat(START, names, before, [Acquire(p, LostAfter)]);
      RunOne(Run(START, names, before), names, Acquire(p, LostAfter));
      if n == 1 { RunOne(START, names, Start(p, Rejoin, false)); }
    }
  }

  // When exactly a call leaves its row behind.

  /** The step takes a free row without being answered. */
  predicate Leaks(s: State, step: Step, p: Pid, t: Task) {
    step == Acquire(p, LostAfter) && At(s, p).Acquiring? && t !in s.rows
  }

  /** The step is a release lost before taking effect. */
  predicate Loses(s: State, step: Step, p: Pid) { step == Release(p, LostBefore) && At(s, p).Releasing? }

  /** Some acquisition among the steps takes the free row without being answered. */
  predicate TookUnanswered(s: State, names: Labels, steps: seq<Step>, p: Pid, t: Task) {
    steps != [] &&
    var n := |steps| - 1;
    TookUnanswered(s, names, steps[..n], p, t) || Leaks(Run(s, names, steps[..n]), steps[n], p, t)
  }

  /** Some release among the steps is lost before taking effect. */
  predicate LostItsRelease(s: State, names: Labels, steps: seq<Step>, p: Pid) {
    steps != [] &&
    var n := |steps| - 1;
    LostItsRelease(s, names, steps[..n], p) || Loses(Run(s, names, steps[..n]), steps[n], p)
  }

  /** One call of a client and whatever others, of other labels, do meanwhile. */
  ghost predicate OneCall(s: State, names: Labels, steps: seq<Step>, p: Pid, job: Job) {
    && (At(s, p).Idle? || At(s, p).Finished?)
    && steps != [] && steps[0].Start? && steps[0].p == p && steps[0].job == job
    && (forall i :: 1 <= i < |steps| && steps[i].p == p ==> !steps[i].Start?)
    && (forall i :: 0 <= i < |steps| && steps[i].p != p ==> LabelOf(names, steps[i].p) != LabelOf(names, p))
  }

  function JobAt(pc: Pc, otherwise: Job): Job {
    match pc
    case Acquiring(job, _) => job
    case Working(job, _) => job
    case Releasing(job, _) => job
    case _ => otherwise
  }

  /**
   Where a call begun in `s` stands: before its section, inside, or done; and whether the row is its
   client's, given whether an acquisition took it unanswered and whether the release was lost.
   */
  ghost predicate Stands(s: State, now: State, names: Labels, p: Pid, job: Job, took: bool, lost: bool) {
    var held := Holds(now, TaskOf(job), LabelOf(names, p));
    var entered := Count(now.entries, p) > Count(s.entries, p);
    && JobAt(At(now, p), job) == job && !At(now, p).Idle?
    && Count(now.entries, p) == Count(s.entries, p) + (if entered then 1 else 0)
    && (At(now, p).Acquiring? ==> !entered)
    && (InSection(now, p) ==> entered && held && !lost)
    && (!entered ==> !lost && (held <==> Holds(s, TaskOf(job), LabelOf(names, p)) || took))
    && (entered && At(now, p).Finished? ==> (held <==> lost))
  }

  /** What one step of a client with another label leaves as it is. */
  lemma OtherStep(s: State, names: Labels, step: Step, p: Pid, t: Task)
    requires step.p != p && LabelOf(names, step.p) != LabelOf(names, p)
    ensures var s' := Next(s, names, step);
            && At(s', p) == At(s, p) && Count(s'.entries, p) == Count(s.entries, p)
            && (Holds(s', t, LabelOf(names, p)) <==> Holds(s, t, LabelOf(names, p)))
  {
  }

  lemma OwnStep(s: State, now: State, names: Labels, step: Step, p: Pid, job: Job, took: bool, lost: bool)
    requires Stands(s, now, names, p, job, took, lost) && step.p == p && !step.Start?
    ensures Stands(s, Next(now, names, step), names, p, job,
                   took || Leaks(now, step, p, TaskOf(job)), lost || Loses(now, step, p))
  {
  }

  lemma {:induction false} CallStands(s: State, names: Labels, steps: seq<Step>, p: Pid, job: Job)
    requires OneCall(s, names, steps, p, job)
    ensures Stands(s, Run(s, names, steps), names, p, job,
                   TookUnanswered(s, names, steps, p, TaskOf(job)), LostItsRelease(s, names, steps, p))
  {
    var n, t := |steps| - 1, TaskOf(job);
    if n == 0 {
      assert Run(s, names, steps[..0]) == s;
    } else {
      var before := steps[..n];
      CallStands(s, names, before, p, job);
      if steps[n].p != p {
        OtherStep(Run(s, names, before), names, steps[n], p, t);
      } else {
        OwnStep(s, Run(s, names, before), names, steps[n], p, job,
                TookUnanswered(s, names, before, p, t), LostItsRelease(s, names, before, p));
      }
    }
  }

  /**
   A call that is over leaves its row in the table exactly when: having entered its section, its release was
   lost before taking effect; or, having given up, the row was its own before or an acquisition took it unanswered.
   */
  lemma RowRemainsExactly(s: State, names: Labels, steps: seq<Step>, p: Pid, job: Job)
    requires OneCall(s, names, steps, p, job) && At(Run(s, names, steps), p).Finished?
    ensures var now, t := Run(s, names, steps), TaskOf(job);
            Holds(now, t, LabelOf(names, p)) <==>
            if Count(now.entries, p) > Count(s.entries, p) then LostItsRelease(s, names, steps, p)
            else Holds(s, t, LabelOf(names, p)) || TookUnanswered(s, names, steps, p, t)
  {
    CallStands(s, names, steps, p, job);
  }

  /**
   One client's code, run while other clients take their own steps in between. The methods
   work on the lock rows; `trace` records every step, so that each call is shown to be a
   stretch of a run of the machine, and what holds of all runs holds of it.
   */
  class ClusterClient {
    const names: Labels
    const me: Pid
    var rows: map<Task, string>
    var trace: seq<Step>

    constructor (names: Labels, me: Pid)
      ensures this.names == names && this.me == me && trace == [] && Valid()
    {
      this.names, this.me := names, me;
      rows, trace := map[], [];
    }

    ghost function Now(): State
      reads this
    {
      Run(START, names, trace)
    }

    ghost function Here(): Pc
      reads this
    {
      At(Now(), me)
    }

    ghost predicate Valid()
      reads this
    {
      rows == Now().rows
    }

    /** How often this client has entered a section. */
    ghost function Entries(): nat
      reads this
    {
      Count(Now().entries, me)
    }

    ghost predicate Free()
      reads this
    {
      Here().Idle? || Here().Finished?
    }

    /** What other clients do before our next step. */
    method Meanwhile(others: seq<Step>)
      requires Valid() && Others(others, me)
      modifies this
      ensures Valid() && trace == old(trace) + others && Here() == old(Here()) && Entries() == old(Entries())
    {
      RunConcat(START, names, trace, others);
      OthersLeaveMe(Now(), names, others, me);
      trace := trace + others;
      rows := Run(START, names, trace).rows;
    }

    method Record(step: Step)
      modifies this`trace
      ensures trace == old(trace) + [step] && Now() == Next(old(Now()), names, step)
    {
      assert (trace + [step])[..|trace|] == trace;
      trace := trace + [step];
    }

    /** `_acquire_lock`: false when it raises. */
    method AcquireLock(job: Job, others: seq<Step>, reply: Reply) returns (ok: bool)
      requires Valid() && Others(others, me) && Here().Acquiring? && Here().job == job
      modifies this
      ensures Valid() && old(trace) <= trace
      ensures ok <==> reply == Answered && Holds(Now(), if job.Remove? then Removal else Addition, LabelOf(names, me))
      ensures Entries() == old(Entries()) + (if ok then 1 else 0)
      ensures Here() == if ok then Working(job, false)
                        else if old(Here()).attempts + 1 >= MAX_ATTEMPTS then Finished(true)
                        else Acquiring(job, old(Here()).attempts + 1)
    {
      Meanwhile(others);
      var task, who := TaskOf(job), LabelOf(names, me);
      if reply != LostBefore {
        rows := Take(rows, task, who);
      }
      Record(Acquire(me, reply));
      if reply != Answered {
        return false;
      }
      ok := task in rows && rows[task] == who;
    }

    /** `_release_lock`: false when it raises. */
    method ReleaseLock(job: Job, others: seq<Step>, reply: Reply) returns (ok: bool)
      requires Valid() && Others(others, me) && Here().Releasing? && Here().job == job
      modifies this
      ensures Valid() && old(trace) <= trace && Entries() == old(Entries())
      ensures ok <==> reply == Answered
      ensures ok ==> !Holds(Now(), if job.Remove? then Removal else Addition, LabelOf(names, me))
      ensures Here() == Finished(old(Here()).failed || !ok)
    {
      Meanwhile(others);
      var task, who := TaskOf(job), LabelOf(names, me);
      if reply != LostBefore {
        rows := Drop(rows, task, who);
      }
      Record(Release(me, reply));
      if reply != Answered {
        return false;
      }
      ok := !(task in rows && rows[task] == who);
    }

    /** The retry loop at the head of `_locking`. */
    method EnterSection(job: Job, others: nat -> seq<Step>, replies: nat -> Reply) returns (entered: bool)
      requires Valid() && Here() == Acquiring(job, 0) && forall k :: Others(others(k), me)
      modifies this
      ensures Valid() && old(trace) <= trace && Entries() == old(Entries()) + (if entered then 1 else 0)
      ensures Here() == if entered then Working(job, false) else Finished(true)
    {
      var attempt := 0;
      entered := false;
      while attempt < MAX_ATTEMPTS && !entered
        invariant attempt <= MAX_ATTEMPTS && Valid() && old(trace) <= trace
        invariant Entries() == old(Entries()) + (if entered then 1 else 0)
        invariant Here() == if entered then Working(job, false)
                            else if attempt == MAX_ATTEMPTS then Finished(true) else Acquiring(job, attempt)
      {
        entered := AcquireLock(job, others(attempt), replies(attempt));
        attempt := attempt + 1;
      }
    }

    method Begin(job: Job, isPrimary: bool)
      requires Valid() && Free()
      modifies this`trace
      ensures Valid() && old(trace) <= trace && Entries() == old(Entries())
      ensures Here() == if job.Remove? && isPrimary then Finished(false) else Acquiring(job, 0)
    {
      Record(Start(me, job, isPrimary));
    }

    /** The call to the cluster inside the section; `ok` is how it ends. */
    method CallCluster(others: seq<Step>, ok: bool)
      requires Valid() && Others(others, me) && Here().Working?
      modifies this
      ensures Valid() && old(trace) <= trace && Entries() == old(Entries())
      ensures Here() == AfterCall(old(Here()), ok)
    {
      Meanwhile(others);
      Record(Work(me, ok));
    }

    /**
     `add_instance`. Whatever the replies and whatever others do, it ends with as many
     releases attempted as sections entered, and raises exactly when the machine says so.
     */
    method AddInstance(clone: bool, others: nat -> seq<Step>, replies: nat -> Reply, attached: bool, cloned: bool,
                       release: Reply)
        returns (ok: bool)
      requires Valid() && Free() && forall k :: Others(others(k), me)
      modifies this
      ensures Valid() && old(trace) <= trace && Here() == Finished(!ok)
      ensures ok <==> Entries() > old(Entries()) && (attached || (!clone && cloned)) && release == Answered
      ensures Entries() == Count(Now().releases, me)
    {
      Begin(Add(clone), false);
      var entered := EnterSection(Add(clone), others, replies);
      ok := false;
      if entered {
        CallCluster(others(MAX_ATTEMPTS), attached);
        ok := attached;
        if !attached && !clone {
          CallCluster(others(MAX_ATTEMPTS + 1), cloned);
          ok := cloned;
        }
        var released := ReleaseLock(Add(clone), others(MAX_ATTEMPTS + 2), release);
        ok := ok && released;
      }
      ReleaseOnEveryExit(names, trace);
    }

    /** `rejoin_instance`. */
    method RejoinInstance(others: nat -> seq<Step>, replies: nat -> Reply, rejoined: bool, release: Reply)
        returns (ok: bool)
      requires Valid() && Free() && forall k :: Others(others(k), me)
      modifies this
      ensures Valid() && old(trace) <= trace && Here() == Finished(!ok)
      ensures ok <==> Entries() > old(Entries()) && rejoined && release == Answered
      ensures Entries() == Count(Now().releases, me)
    {
      Begin(Rejoin, false);
      var entered := EnterSection(Rejoin, others, replies);
      ok := false;
      if entered {
        CallCluster(others(MAX_ATTEMPTS), rejoined);
        var released := ReleaseLock(Rejoin, others(MAX_ATTEMPTS + 1), release);
        ok := rejoined && released;
      }
      ReleaseOnEveryExit(names, trace);
    }

    /** `remove_instance`; the primary is not removed, and no lock is taken for it. */
    method RemoveInstance(isPrimary: bool, others: nat -> seq<Step>, replies: nat -> Reply, detached: bool,
                          release: Reply)
        returns (ok: bool)
      requires Valid() && Free() && forall k :: Others(others(k), me)
      modifies this
      ensures Valid() && old(trace) <= trace && Here() == Finished(!ok)
      ensures isPrimary ==> ok && rows == old(rows)
      ensures !isPrimary ==> (ok <==> Entries() > old(Entries()) && detached && release == Answered)
      ensures Entries() == Count(Now().releases, me)
    {
      Begin(Remove, isPrimary);
      ok := isPrimary;
      if !isPrimary {
        var entered := EnterSection(Remove, others, replies);
        if entered {
          CallCluster(others(MAX_ATTEMPTS), detached);
          var released := ReleaseLock(Remove, others(MAX_ATTEMPTS + 1), release);
          ok := detached && released;
        }
      }
      ReleaseOnEveryExit(names, trace);
    }
  }
}
