/**
  What the records of the outgoing queue stand for: which steps of the run
  delivered to a recipient, and why a recipient was given up. The statements
  are about the steps themselves, crashes included.
 */
module QueueRecords {
  import opened Wrappers
  import opened Recipients
  import opened Deliverer
  import opened RecipientList
  import opened Sorting
  import opened OutgoingQueue

  /** The inbox is on this server, but the actor has no account here. */
  predicate LacksAccount(cfg: Config, r: Recipient) {
    cfg.isLocal(r.inbox) && !cfg.hasAccount(r.id)
  }

  // ---------------------------------------------------------------------
  // What a step does to one recipient

  datatype Happening = Arrival | NoInbox | Answered410 | Rejection | FoundGone | FoundDead

  /** The step is one of a worker on this activity, and its working copy has the recipient. */
  ghost predicate Concerns(s: State, step: Step, lineage: nat, i: nat) {
    && Enabled(s, step) && !step.Enqueue? && !step.PickUp?
    && step.w in s.workers && s.workers[step.w].job.lineage == lineage && i < |s.workers[step.w].rs|
  }

  /** The step does this to the recipient. */
  ghost predicate Occurs(cfg: Config, s: State, step: Step, what: Happening, lineage: nat, i: nat) {
    && Concerns(s, step, lineage, i)
    && var x := s.workers[step.w];
       match what
       case Arrival =>
         || (Requests(cfg, x, step, i) && step.net(i) == Success)
         || (HandlesLocal(cfg, x, step, i) && cfg.hasAccount(x.rs[i].id))
       case NoInbox => HandlesLocal(cfg, x, step, i) && !cfg.hasAccount(x.rs[i].id)
       case Answered410 => Requests(cfg, x, step, i) && step.net(i) == HttpError(HTTP_410_GONE)
       case Rejection =>
         step.Filter? && cfg.federationEnabled && !x.rs[i].IsFinished() && step.blocked(x.rs[i].inbox)
       case FoundGone => step.Judge? && x.job.failureCount == 0 && !x.rs[i].isDelivered && x.rs[i].isGone
       case FoundDead => step.Judge? && x.job.failureCount == 0 && !x.rs[i].isDelivered && step.dead(i)
  }

  /** A request is sent to the recipient. */
  ghost predicate Requests(cfg: Config, x: Worker, step: Step, i: nat)
    requires i < |x.rs|
  {
    step.Send? && AllHostsKnown(x.rs, cfg.hostnameOf) && !x.rs[i].IsFinished()
  }

  /** The recipient's local inbox has its turn. */
  ghost predicate HandlesLocal(cfg: Config, x: Worker, step: Step, i: nat)
    requires i < |x.rs|
  {
    step.LocalStep? && x.phase == Local(i) && cfg.isLocal(x.rs[i].inbox) && !x.rs[i].isDelivered
  }

  /** Some step of the run did this to the recipient. */
  ghost predicate Occurred(cfg: Config, steps: seq<Step>, what: Happening, lineage: nat, i: nat) {
    steps != [] &&
    var n := |steps| - 1;
    || Occurred(cfg, steps[..n], what, lineage, i)
    || (Exec(cfg, steps[..n]).Some? && Occurs(cfg, Exec(cfg, steps[..n]).value, steps[n], what, lineage, i))
  }

  // ---------------------------------------------------------------------
  // What a step changes

  /** The working copy after a step of its worker. */
  ghost function CopyAfter(cfg: Config, x: Worker, step: Step): seq<Recipient> {
    match step
    case LocalStep(_) =>
      if x.phase.Local? && x.phase.next < |x.rs| && HandlesLocal(cfg, x, step, x.phase.next)
      then x.rs[x.phase.next := x.rs[x.phase.next].(isDelivered := true)] else x.rs
    case Filter(_, blocked) => if cfg.federationEnabled then MarkBlocked(x.rs, blocked) else x.rs
    case Send(_, net) => if AllHostsKnown(x.rs, cfg.hostnameOf) then AfterAttempt(x.rs, net) else x.rs
    case Judge(_, dead) => if x.job.failureCount == 0 then MarkUnreachable(x.rs, dead) else x.rs
    case _ => x.rs
  }

  predicate OfWorker(step: Step) {
    !step.Enqueue? && !step.PickUp?
  }

  /** Only the memory of this worker changed: its working copy, and its phase. */
  ghost predicate Moved(cfg: Config, before: map<nat, Worker>, after: map<nat, Worker>, step: Step)
    requires OfWorker(step) && step.w in before
  {
    var x := before[step.w];
    && step.w in after && after == before[step.w := after[step.w]]
    && after[step.w].job == x.job && after[step.w].rs == CopyAfter(cfg, x, step)
    && (if step.LocalStep? then x.phase.Local? && after[step.w].phase == Local(x.phase.next + 1)
        else !after[step.w].phase.Local?)
  }

  /** A step of a worker changes the memory of this worker alone, or ends it. */
  lemma WorkersAfter(cfg: Config, s: State, step: Step)
    requires Enabled(s, step) && OfWorker(step) && step.w in s.workers
    ensures if step.Delete? || step.Crash? then Next(cfg, s, step).workers == s.workers - {step.w}
      else Moved(cfg, s.workers, Next(cfg, s, step).workers, step)
  {
    match step {
      case LocalStep(w) => LocalMoves(cfg, s, w);
      case Filter(w, blocked) => FilterMoves(cfg, s, w, blocked);
      case Send(w, net) => SendMoves(cfg, s, w, net);
      case Judge(w, dead) => JudgeMoves(cfg, s, w, dead);
      case _ =>
    }
  }

  lemma LocalMoves(cfg: Config, s: State, w: nat)
    requires Enabled(s, LocalStep(w))
    ensures Moved(cfg, s.workers, AfterLocalStep(cfg, s, w).workers, LocalStep(w))
  {
  }

  lemma FilterMoves(cfg: Config, s: State, w: nat, blocked: string -> bool)
    requires w in s.workers
    ensures Moved(cfg, s.workers, AfterFilter(cfg, s, w, blocked).workers, Filter(w, blocked))
  {
  }

  lemma SendMoves(cfg: Config, s: State, w: nat, net: nat -> SendResult)
    requires Enabled(s, Send(w, net))
    ensures Moved(cfg, s.workers, AfterSend(cfg, s, w, net).workers, Send(w, net))
  {
    if AllHostsKnown(s.workers[w].rs, cfg.hostnameOf) {
      SendCounters(cfg, s, w, net);
    } else {
      BadInboxFrame(cfg, s, w, net);
    }
  }

  lemma JudgeMoves(cfg: Config, s: State, w: nat, dead: nat -> bool)
    requires w in s.workers
    ensures Moved(cfg, s.workers, AfterJudge(s, w, dead).workers, Judge(w, dead))
  {
  }

  /** A copy only ever gets flags raised. */
  lemma CopyRaised(cfg: Config, x: Worker, step: Step, j: nat)
    requires j < |x.rs|
    ensures |CopyAfter(cfg, x, step)| == |x.rs| && Raised(x.rs[j], CopyAfter(cfg, x, step)[j])
  {
    if step.Send? {
      assert AfterAttempt(x.rs, step.net)[j] ==
        if x.rs[j].IsFinished() then x.rs[j] else ApplyResult(x.rs[j], step.net(j));
    }
  }

  /** Rows are only added: a new job, or the working copy of a job that is tried again. */
  lemma RowsAfter(cfg: Config, s: State, step: Step, id: nat)
    requires Enabled(s, step) && id in Next(cfg, s, step).jobs
    ensures var job := Next(cfg, s, step).jobs[id];
      || (id in s.jobs && job == s.jobs[id])
      || (step.Enqueue? && job.recipients == SortRecipients(step.recipients))
      || (step.Requeue? && step.w in s.workers &&
          job.lineage == s.workers[step.w].job.lineage && job.recipients == s.workers[step.w].rs)
  {
  }

  lemma OriginAfter(cfg: Config, s: State, step: Step, l: nat)
    requires Enabled(s, step) && l in s.origin && l != s.nextId
    ensures l in Next(cfg, s, step).origin && Next(cfg, s, step).origin[l] == s.origin[l]
  {
    if !step.Enqueue? {
      SameOrigin(cfg, s, step);
    }
  }

  lemma SameOrigin(cfg: Config, s: State, step: Step)
    requires Enabled(s, step) && !step.Enqueue?
    ensures Next(cfg, s, step).origin == s.origin
  {
    match step {
      case LocalStep(w) => LocalStepFrame(cfg, s, w);
      case _ =>
    }
  }

  /** Successes and missing inboxes are recorded by local steps and attempts alone. */
  lemma OtherRecords(cfg: Config, s: State, step: Step)
    requires Enabled(s, step) && !step.LocalStep?
    requires step.Send? ==> !AllHostsKnown(s.workers[step.w].rs, cfg.hostnameOf)
    ensures var s' := Next(cfg, s, step);
      s'.successes == s.successes && s'.noAccount == s.noAccount && s'.delivered == s.delivered
  {
  }

  // ---------------------------------------------------------------------
  // Local recipients are dealt with before any request

  ghost predicate LocalsDone(cfg: Config, x: Worker) {
    forall j :: 0 <= j < |x.rs| && (x.phase.Local? ==> j < x.phase.next) && cfg.isLocal(x.rs[j].inbox) ==>
      x.rs[j].isDelivered
  }

  ghost predicate AllLocalsDone(cfg: Config, s: State) {
    forall w :: w in s.workers ==> LocalsDone(cfg, s.workers[w])
  }

  lemma CopyKeepsLocalsDone(cfg: Config, s: State, step: Step, x: Worker, x': Worker)
    requires LocalsDone(cfg, x) && Enabled(s, step) && OfWorker(step) && step.w in s.workers && s.workers[step.w] == x
    requires x'.rs == CopyAfter(cfg, x, step)
    requires if step.LocalStep? then x'.phase == Local(x.phase.next + 1) else !x'.phase.Local?
    requires !step.Delete? && !step.Crash?
    ensures LocalsDone(cfg, x')
  {
    forall j: nat | j < |x.rs| ensures |x'.rs| == |x.rs| && Raised(x.rs[j], x'.rs[j]) {
      CopyRaised(cfg, x, step, j);
    }
    CopyLength(cfg, x, step);
  }

  lemma CopyLength(cfg: Config, x: Worker, step: Step)
    ensures |CopyAfter(cfg, x, step)| == |x.rs|
  {
  }

  lemma NextKeepsLocalsDone(cfg: Config, s: State, step: Step)
    requires AllLocalsDone(cfg, s) && Enabled(s, step)
    ensures AllLocalsDone(cfg, Next(cfg, s, step))
  {
    var workers := Next(cfg, s, step).workers;
    if step.Enqueue? {
      assert workers == s.workers;
    } else if step.PickUp? {
      assert workers == s.workers[step.w := workers[step.w]] && LocalsDone(cfg, workers[step.w]);
    } else {
      WorkersAfter(cfg, s, step);
      if !step.Delete? && !step.Crash? {
        CopyKeepsLocalsDone(cfg, s, step, s.workers[step.w], workers[step.w]);
      }
    }
  }

  /** Whenever a worker sends, every recipient with a local inbox is flagged already. */
  lemma {:induction false} LocalsFirst(cfg: Config, steps: seq<Step>)
    requires Exec(cfg, steps).Some?
    ensures AllLocalsDone(cfg, Exec(cfg, steps).value)
  {
    if steps != [] {
      var n := |steps| - 1;
      LocalsFirst(cfg, steps[..n]);
      NextKeepsLocalsDone(cfg, Exec(cfg, steps[..n]).value, steps[n]);
    }
  }

  // ---------------------------------------------------------------------
  // Records and happenings

  /** The step added to the records of the recipient what it did to it. */
  ghost predicate RecordedBy(cfg: Config, s: State, step: Step, s': State, l: nat, i: nat) {
    && (s'.successes[(l, i)] > 0 <==> s.successes[(l, i)] > 0 || Occurs(cfg, s, step, Arrival, l, i))
    && ((l, i) in s'.noAccount <==> (l, i) in s.noAccount || Occurs(cfg, s, step, NoInbox, l, i))
    && ((l, i) in s'.delivered <==>
          || (l, i) in s.delivered
          || Occurs(cfg, s, step, Arrival, l, i)
          || Occurs(cfg, s, step, NoInbox, l, i))
  }

  /** What a step adds to the records of one recipient is what it does to the recipient. */
  lemma StepRecords(cfg: Config, s: State, step: Step, l: nat, i: nat)
    requires Inv(cfg, s) && Enabled(s, step)
    ensures RecordedBy(cfg, s, step, Next(cfg, s, step), l, i)
  {
    if step.LocalStep? {
      LocalRecords(cfg, s, step.w, l, i);
    } else if step.Send? && AllHostsKnown(s.workers[step.w].rs, cfg.hostnameOf) {
      FlagsJustified(cfg, s, step.w);
      AttemptRecords(cfg, s, step.w, step.net, l, i);
    } else {
      OtherRecords(cfg, s, step);
      NothingOccurs(cfg, s, step, l, i);
    }
  }

  lemma FlagsJustified(cfg: Config, s: State, w: nat)
    requires Inv(cfg, s) && w in s.workers
    ensures Justified(s, s.workers[w].job.lineage, s.workers[w].rs)
  {
    assert WorkerOk(s, s.workers[w]);
  }

  lemma NothingOccurs(cfg: Config, s: State, step: Step, l: nat, i: nat)
    requires !step.LocalStep? && (step.Send? && step.w in s.workers ==> !AllHostsKnown(s.workers[step.w].rs, cfg.hostnameOf))
    ensures !Occurs(cfg, s, step, Arrival, l, i) && !Occurs(cfg, s, step, NoInbox, l, i)
  {
  }

  lemma LocalRecords(cfg: Config, s: State, w: nat, l: nat, i: nat)
    requires Enabled(s, LocalStep(w))
    ensures RecordedBy(cfg, s, LocalStep(w), AfterLocalStep(cfg, s, w), l, i)
  {
  }

  lemma AttemptRecords(cfg: Config, s: State, w: nat, net: nat -> SendResult, l: nat, i: nat)
    requires Enabled(s, Send(w, net)) && AllHostsKnown(s.workers[w].rs, cfg.hostnameOf)
    requires Justified(s, s.workers[w].job.lineage, s.workers[w].rs)
    ensures RecordedBy(cfg, s, Send(w, net), AfterSend(cfg, s, w, net), l, i)
  {
    var x := s.workers[w];
    var rs := AfterAttempt(x.rs, net);
    SendCounters(cfg, s, w, net);
    TagMembers(x.job.lineage, Delivered(rs));
    TagMembers(x.job.lineage, Delivered(rs) - Delivered(x.rs));
    AttemptFlag(x.rs, net, i);
  }

  /** An attempt delivers to the recipients whose request succeeds. */
  lemma AttemptFlag(rs: seq<Recipient>, net: nat -> SendResult, i: nat)
    ensures i in Delivered(rs) <==> i < |rs| && rs[i].isDelivered
    ensures i in Delivered(AfterAttempt(rs, net)) <==>
      i in Delivered(rs) || (i < |rs| && !rs[i].IsFinished() && net(i) == Success)
  {
    if i < |rs| {
      assert AfterAttempt(rs, net)[i] == if rs[i].IsFinished() then rs[i] else ApplyResult(rs[i], net(i));
    }
  }

  /** What an attempt does to the records. */
  lemma SendCounters(cfg: Config, s: State, w: nat, net: nat -> SendResult)
    requires Enabled(s, Send(w, net)) && AllHostsKnown(s.workers[w].rs, cfg.hostnameOf)
    ensures var s' := AfterSend(cfg, s, w, net);
      var x := s.workers[w];
      var rs := AfterAttempt(x.rs, net);
      && s' == s.(workers := s'.workers, delivered := s'.delivered, attempts := s'.attempts, successes := s'.successes)
      && s'.workers == s.workers[w := x.(rs := rs, phase := Sent)]
      && s'.delivered == s.delivered + Tag(x.job.lineage, Delivered(rs))
      && s'.attempts == s.attempts + multiset{x.job.lineage}
      && s'.successes == s.successes + multiset(Tag(x.job.lineage, Delivered(rs) - Delivered(x.rs)))
  {
  }

  /** The counts kept in the state are those of the run: a success for every delivery, and nothing else. */
  lemma {:induction false} RecordsMatch(cfg: Config, steps: seq<Step>, l: nat, i: nat)
    requires Exec(cfg, steps).Some?
    ensures var s := Exec(cfg, steps).value;
      && (s.successes[(l, i)] > 0 <==> Occurred(cfg, steps, Arrival, l, i))
      && ((l, i) in s.noAccount <==> Occurred(cfg, steps, NoInbox, l, i))
      && ((l, i) in s.delivered <==> Occurred(cfg, steps, Arrival, l, i) || Occurred(cfg, steps, NoInbox, l, i))
  {
    if steps != [] {
      var n := |steps| - 1;
      RecordsMatch(cfg, steps[..n], l, i);
      ReachableInv(cfg, steps[..n]);
      StepRecords(cfg, Exec(cfg, steps[..n]).value, steps[n], l, i);
    }
  }

  // ---------------------------------------------------------------------
  // Which of the two it is

  ghost predicate Has(s: State, l: nat, i: nat) {
    l in s.origin && i < |s.origin[l]|
  }

  /** A working copy has the recipients of the activity. */
  lemma SameRecipient(cfg: Config, s: State, w: nat, i: nat)
    requires Inv(cfg, s) && w in s.workers && i < |s.workers[w].rs|
    ensures var x := s.workers[w];
      && Has(s, x.job.lineage, i)
      && s.origin[x.job.lineage][i].id == x.rs[i].id && s.origin[x.job.lineage][i].inbox == x.rs[i].inbox
  {
    var x := s.workers[w];
    assert WorkerOk(s, x);
    EvolvesTransitive(s.origin[x.job.lineage], x.job.recipients, x.rs);
    assert Raised(s.origin[x.job.lineage][i], x.rs[i]);
  }

  /** Nobody without an account is delivered to, and nobody else is skipped. */
  lemma OccursTo(cfg: Config, s: State, step: Step, l: nat, i: nat)
    requires Inv(cfg, s) && AllLocalsDone(cfg, s)
    ensures Occurs(cfg, s, step, Arrival, l, i) ==> Has(s, l, i) && !LacksAccount(cfg, s.origin[l][i])
    ensures Occurs(cfg, s, step, NoInbox, l, i) ==> Has(s, l, i) && LacksAccount(cfg, s.origin[l][i])
  {
    if Concerns(s, step, l, i) {
      SameRecipient(cfg, s, step.w, i);
      assert LocalsDone(cfg, s.workers[step.w]);
    }
  }

  lemma {:induction false} OccurredTo(cfg: Config, steps: seq<Step>, l: nat, i: nat)
    requires Exec(cfg, steps).Some?
    ensures var s := Exec(cfg, steps).value;
      && (Occurred(cfg, steps, Arrival, l, i) ==> Has(s, l, i) && !LacksAccount(cfg, s.origin[l][i]))
      && (Occurred(cfg, steps, NoInbox, l, i) ==> Has(s, l, i) && LacksAccount(cfg, s.origin[l][i]))
  {
    if steps != [] {
      var n := |steps| - 1;
      var s := Exec(cfg, steps[..n]).value;
      OccurredTo(cfg, steps[..n], l, i);
      ReachableInv(cfg, steps[..n]);
      LocalsFirst(cfg, steps[..n]);
      OccursTo(cfg, s, steps[n], l, i);
      if Has(s, l, i) {
        OriginAfter(cfg, s, steps[n], l);
      }
    }
  }

  /** The flag of recipient `i` is raised in some row or working copy of the activity. */
  ghost predicate Flagged(s: State, l: nat, i: nat) {
    || (exists id :: id in s.jobs && s.jobs[id].lineage == l && i < |s.jobs[id].recipients| && s.jobs[id].recipients[i].isDelivered)
    || (exists w :: w in s.workers && s.workers[w].job.lineage == l && i < |s.workers[w].rs| && s.workers[w].rs[i].isDelivered)
  }

  lemma FlaggedIsRecorded(cfg: Config, s: State, l: nat, i: nat)
    requires Inv(cfg, s) && Flagged(s, l, i)
    ensures (l, i) in s.delivered
  {
    if id :| id in s.jobs && s.jobs[id].lineage == l && i < |s.jobs[id].recipients| && s.jobs[id].recipients[i].isDelivered {
      assert JobOk(s, s.jobs[id]);
    } else {
      var w :| w in s.workers && s.workers[w].job.lineage == l && i < |s.workers[w].rs| && s.workers[w].rs[i].isDelivered;
      assert WorkerOk(s, s.workers[w]);
    }
  }

  /**
    What a delivered flag means, in every row and working copy of every run: a
    delivery succeeded, or the inbox is a local one that does not exist; and
    the recipient decides which of the two.
   */
  lemma FlagMeans(cfg: Config, steps: seq<Step>, l: nat, i: nat)
    requires Exec(cfg, steps).Some? && Flagged(Exec(cfg, steps).value, l, i)
    ensures var s := Exec(cfg, steps).value;
      && Has(s, l, i)
      && (Occurred(cfg, steps, Arrival, l, i) <==> !LacksAccount(cfg, s.origin[l][i]))
      && (Occurred(cfg, steps, NoInbox, l, i) <==> LacksAccount(cfg, s.origin[l][i]))
  {
    ReachableInv(cfg, steps);
    FlaggedIsRecorded(cfg, Exec(cfg, steps).value, l, i);
    RecordsMatch(cfg, steps, l, i);
    OccurredTo(cfg, steps, l, i);
  }

  // ---------------------------------------------------------------------
  // Flags that nothing backs

  /** Every delivered flag in the state is backed by a successful delivery. */
  ghost predicate AllBacked(cfg: Config, steps: seq<Step>, s: State) {
    forall l, i :: Flagged(s, l, i) ==> Occurred(cfg, steps, Arrival, l, i)
  }

  ghost predicate AlwaysBacked(cfg: Config) {
    forall steps :: Exec(cfg, steps).Some? ==> AllBacked(cfg, steps, Exec(cfg, steps).value)
  }

  lemma SingleIsSorted(r: Recipient)
    ensures SortRecipients([r]) == [r]
  {
    SortSingle(r, InboxFirst);
    SortSingle(r, PrimaryFirst);
  }

  lemma SortSingle(r: Recipient, le: (Recipient, Recipient) -> bool)
    ensures StableSort([r], le) == [r]
  {
    assert [r][1..] == [];
    assert StableSort([], le) == [];
    assert StableSort([r], le) == Sorting.Insert(r, [], le);
  }

  lemma ExecSnoc(cfg: Config, steps: seq<Step>, s: State, step: Step)
    requires Exec(cfg, steps) == Some(s) && Enabled(s, step)
    ensures Exec(cfg, steps + [step]) == Some(Next(cfg, s, step))
  {
    assert (steps + [step])[..|steps + [step]| - 1] == steps;
  }

  /** A recipient as it is when its job is created. */
  function New(r: Recipient): Recipient {
    r.(isDelivered := false, isUnreachable := false, isGone := false)
  }

  /** The run that picks up a job for one recipient without account and handles its local inbox. */
  function DropRun(r: Recipient): seq<Step> {
    [Enqueue([New(r)]), PickUp(0, 0), LocalStep(0)]
  }

  ghost function Dropped(r: Recipient): State {
    var job := Job(0, [New(r)], 0, 0);
    INIT.(jobs := map[0 := job], nextId := 1, origin := map[0 := [New(r)]],
          workers := map[0 := Worker(0, job, [New(r).(isDelivered := true)], Local(1))],
          delivered := {(0, 0)}, noAccount := {(0, 0)})
  }

  lemma DropRunLeads(cfg: Config, r: Recipient)
    requires LacksAccount(cfg, r)
    ensures Exec(cfg, DropRun(r)) == Some(Dropped(r))
  {
    var job := Job(0, [New(r)], 0, 0);
    SingleIsSorted(New(r));
    var s1 := INIT.(jobs := map[0 := job], nextId := 1, origin := map[0 := [New(r)]]);
    var s2 := s1.(workers := map[0 := Worker(0, job, [New(r)], Local(0))]);
    assert Exec(cfg, []) == Some(INIT);
    ExecSnoc(cfg, [], INIT, Enqueue([New(r)]));
    assert AfterEnqueue(INIT, [New(r)]) == s1;
    ExecSnoc(cfg, [Enqueue([New(r)])], s1, PickUp(0, 0));
    assert AfterPickUp(s1, 0, 0) == s2;
    DropStep(cfg, r, s2);
    var two := [Enqueue([New(r)]), PickUp(0, 0)];
    assert [] + [Enqueue([New(r)])] == [Enqueue([New(r)])] && [Enqueue([New(r)])] + [PickUp(0, 0)] == two;
    ExecSnoc(cfg, two, s2, LocalStep(0));
    assert two + [LocalStep(0)] == DropRun(r);
  }

  lemma DropStep(cfg: Config, r: Recipient, s: State)
    requires LacksAccount(cfg, r)
    requires s == Dropped(r).(workers := map[0 := Worker(0, Job(0, [New(r)], 0, 0), [New(r)], Local(0))],
                              delivered := {}, noAccount := {})
    ensures Enabled(s, LocalStep(0)) && AfterLocalStep(cfg, s, 0) == Dropped(r)
  {
    assert [New(r)][0 := New(r).(isDelivered := true)] == [New(r).(isDelivered := true)];
    assert map[0 := s.workers[0]][0 := Dropped(r).workers[0]] == Dropped(r).workers;
  }

  /** A raised flag without any delivery: for every recipient that lacks an account there is a run with one. */
  lemma UnbackedFlag(cfg: Config, r: Recipient)
    requires LacksAccount(cfg, r)
    ensures Exec(cfg, DropRun(r)).Some?
    ensures var s := Exec(cfg, DropRun(r)).value;
      Flagged(s, 0, 0) && s.successes == multiset{} && !Occurred(cfg, DropRun(r), Arrival, 0, 0)
  {
    DropRunLeads(cfg, r);
    RecordsMatch(cfg, DropRun(r), 0, 0);
    assert Dropped(r).workers[0].rs[0].isDelivered;
  }

  /** Delivered flags are always backed by a delivery exactly when no local inbox lacks an account. */
  lemma BackedExactly(cfg: Config)
    ensures AlwaysBacked(cfg) <==> forall r :: !LacksAccount(cfg, r)
  {
    if AlwaysBacked(cfg) {
      forall r ensures !LacksAccount(cfg, r) {
        if LacksAccount(cfg, r) {
          UnbackedFlag(cfg, r);
        }
      }
    }
    if forall r :: !LacksAccount(cfg, r) {
      forall steps | Exec(cfg, steps).Some? ensures AllBacked(cfg, steps, Exec(cfg, steps).value) {
        forall l, i | Flagged(Exec(cfg, steps).value, l, i) ensures Occurred(cfg, steps, Arrival, l, i) {
          FlagMeans(cfg, steps, l, i);
        }
      }
    }
  }

  // ---------------------------------------------------------------------
  // Why a recipient is given up

  /** A gone flag comes from a 410 answer. */
  ghost predicate GoneAnswered(cfg: Config, steps: seq<Step>, l: nat, rs: seq<Recipient>) {
    forall i: nat :: i < |rs| && rs[i].isGone ==> Occurred(cfg, steps, Answered410, l, i)
  }

  ghost predicate AllGoneAnswered(cfg: Config, steps: seq<Step>, s: State) {
    && (forall id :: id in s.jobs ==> GoneAnswered(cfg, steps, s.jobs[id].lineage, s.jobs[id].recipients))
    && (forall w :: w in s.workers ==> GoneAnswered(cfg, steps, s.workers[w].job.lineage, s.workers[w].rs))
  }

  /** The only grounds for giving a recipient up. */
  ghost predicate GivenUp(cfg: Config, steps: seq<Step>, l: nat, i: nat) {
    || Occurred(cfg, steps, Rejection, l, i)
    || Occurred(cfg, steps, FoundDead, l, i)
    || (Occurred(cfg, steps, FoundGone, l, i) && Occurred(cfg, steps, Answered410, l, i))
  }

  lemma GoneStays(cfg: Config, p: seq<Step>, step: Step, l: nat, rs: seq<Recipient>)
    requires GoneAnswered(cfg, p, l, rs)
    ensures GoneAnswered(cfg, p + [step], l, rs)
  {
    assert (p + [step])[..|p + [step]| - 1] == p;
  }

  /** A 410 answer is the only thing that raises a gone flag. */
  lemma GoneAfterStep(cfg: Config, p: seq<Step>, s: State, step: Step)
    requires Exec(cfg, p) == Some(s) && Enabled(s, step) && OfWorker(step) && step.w in s.workers
    requires GoneAnswered(cfg, p, s.workers[step.w].job.lineage, s.workers[step.w].rs)
    ensures var x := s.workers[step.w]; GoneAnswered(cfg, p + [step], x.job.lineage, CopyAfter(cfg, x, step))
  {
    var x := s.workers[step.w];
    var rs := CopyAfter(cfg, x, step);
    CopyLength(cfg, x, step);
    forall i: nat | i < |rs| && rs[i].isGone ensures Occurred(cfg, p + [step], Answered410, x.job.lineage, i) {
      GoneNow(cfg, x, step, i);
      OccursOccurred(cfg, p, s, step, Answered410, x.job.lineage, i);
    }
  }

  lemma GoneNow(cfg: Config, x: Worker, step: Step, i: nat)
    requires i < |x.rs|
    ensures |CopyAfter(cfg, x, step)| == |x.rs|
    ensures CopyAfter(cfg, x, step)[i].isGone ==>
      x.rs[i].isGone || (Requests(cfg, x, step, i) && step.net(i) == HttpError(HTTP_410_GONE))
  {
    if step.Send? {
      assert AfterAttempt(x.rs, step.net)[i] ==
        if x.rs[i].IsFinished() then x.rs[i] else ApplyResult(x.rs[i], step.net(i));
    }
  }

  lemma OccursOccurred(cfg: Config, p: seq<Step>, s: State, step: Step, what: Happening, l: nat, i: nat)
    requires Exec(cfg, p) == Some(s)
    ensures Occurs(cfg, s, step, what, l, i) ==> Occurred(cfg, p + [step], what, l, i)
    ensures Occurred(cfg, p, what, l, i) ==> Occurred(cfg, p + [step], what, l, i)
  {
    assert (p + [step])[..|p + [step]| - 1] == p;
  }

  lemma GoneAfterRows(cfg: Config, p: seq<Step>, s: State, step: Step, id: nat)
    requires Exec(cfg, p) == Some(s) && Enabled(s, step) && AllGoneAnswered(cfg, p, s)
    requires id in Next(cfg, s, step).jobs
    ensures var job := Next(cfg, s, step).jobs[id]; GoneAnswered(cfg, p + [step], job.lineage, job.recipients)
  {
    var job := Next(cfg, s, step).jobs[id];
    RowsAfter(cfg, s, step, id);
    if id in s.jobs && job == s.jobs[id] {
      GoneStays(cfg, p, step, job.lineage, job.recipients);
    } else if step.Enqueue? {
      FreshRecipients(step.recipients);
    } else {
      GoneStays(cfg, p, step, job.lineage, job.recipients);
    }
  }

  lemma GoneAfterWorkers(cfg: Config, p: seq<Step>, s: State, step: Step, v: nat)
    requires Exec(cfg, p) == Some(s) && Enabled(s, step) && AllGoneAnswered(cfg, p, s)
    requires v in Next(cfg, s, step).workers
    ensures var x := Next(cfg, s, step).workers[v]; GoneAnswered(cfg, p + [step], x.job.lineage, x.rs)
  {
    var workers := Next(cfg, s, step).workers;
    if step.Enqueue? {
      assert workers == s.workers;
    } else if step.PickUp? {
      assert workers == s.workers[step.w := workers[step.w]];
      GoneStays(cfg, p, step, s.jobs[step.id].lineage, s.jobs[step.id].recipients);
    } else {
      WorkersAfter(cfg, s, step);
      GoneAfterStep(cfg, p, s, step);
    }
    if v in s.workers && workers[v] == s.workers[v] {
      GoneStays(cfg, p, step, s.workers[v].job.lineage, s.workers[v].rs);
    }
  }

  /** In every run a gone flag comes from a request to the recipient that was answered with 410. */
  lemma {:induction false} GoneMeans410(cfg: Config, steps: seq<Step>)
    requires Exec(cfg, steps).Some?
    ensures AllGoneAnswered(cfg, steps, Exec(cfg, steps).value)
  {
    if steps != [] {
      var n := |steps| - 1;
      var p, s := steps[..n], Exec(cfg, steps[..n]).value;
      GoneMeans410(cfg, p);
      assert p + [steps[n]] == steps;
      var s' := Next(cfg, s, steps[n]);
      forall id | id in s'.jobs ensures GoneAnswered(cfg, steps, s'.jobs[id].lineage, s'.jobs[id].recipients) {
        GoneAfterRows(cfg, p, s, steps[n], id);
      }
      forall v | v in s'.workers ensures GoneAnswered(cfg, steps, s'.workers[v].job.lineage, s'.workers[v].rs) {
        GoneAfterWorkers(cfg, p, s, steps[n], v);
      }
    }
  }

  /** What a step adds to the unreachable recipients. */
  lemma UnreachableAfter(cfg: Config, s: State, step: Step, l: nat, i: nat)
    requires Inv(cfg, s) && Enabled(s, step) && (l, i) in Next(cfg, s, step).unreachable && (l, i) !in s.unreachable
    ensures || Occurs(cfg, s, step, Rejection, l, i)
      || Occurs(cfg, s, step, FoundGone, l, i)
      || Occurs(cfg, s, step, FoundDead, l, i)
  {
    if step.Filter? {
      FlagsJustified(cfg, s, step.w);
      RejectedAfter(cfg, s, step.w, step.blocked, l, i);
    } else if step.Judge? {
      FlagsJustified(cfg, s, step.w);
      JudgedAfter(cfg, s, step.w, step.dead, l, i);
    } else {
      OtherUnreachable(cfg, s, step);
    }
  }

  lemma OtherUnreachable(cfg: Config, s: State, step: Step)
    requires Enabled(s, step) && !step.Filter? && !step.Judge?
    ensures Next(cfg, s, step).unreachable == s.unreachable
  {
  }

  lemma BlockedBecause(rs: seq<Recipient>, blocked: string -> bool, i: nat)
    requires i in Unreachable(MarkBlocked(rs, blocked))
    ensures i < |rs| && (rs[i].isUnreachable || (!rs[i].IsFinished() && blocked(rs[i].inbox)))
  {
  }

  lemma RejectedAfter(cfg: Config, s: State, w: nat, blocked: string -> bool, l: nat, i: nat)
    requires Enabled(s, Filter(w, blocked)) && Justified(s, s.workers[w].job.lineage, s.workers[w].rs)
    requires (l, i) in AfterFilter(cfg, s, w, blocked).unreachable && (l, i) !in s.unreachable
    ensures Occurs(cfg, s, Filter(w, blocked), Rejection, l, i)
  {
    var x := s.workers[w];
    TagMembers(x.job.lineage, Unreachable(MarkBlocked(x.rs, blocked)));
    BlockedBecause(x.rs, blocked, i);
  }

  lemma MarkedBecause(rs: seq<Recipient>, dead: nat -> bool, i: nat)
    requires i in Unreachable(MarkUnreachable(rs, dead))
    ensures i < |rs| && (rs[i].isUnreachable || (!rs[i].isDelivered && (rs[i].isGone || dead(i))))
  {
  }

  lemma JudgeUnreachable(s: State, w: nat, dead: nat -> bool)
    requires w in s.workers
    ensures var x := s.workers[w];
      AfterJudge(s, w, dead).unreachable ==
      s.unreachable + Tag(x.job.lineage, Unreachable(if x.job.failureCount == 0 then MarkUnreachable(x.rs, dead) else x.rs))
  {
  }

  lemma JudgedAfter(cfg: Config, s: State, w: nat, dead: nat -> bool, l: nat, i: nat)
    requires Enabled(s, Judge(w, dead)) && Justified(s, s.workers[w].job.lineage, s.workers[w].rs)
    requires (l, i) in AfterJudge(s, w, dead).unreachable && (l, i) !in s.unreachable
    ensures Occurs(cfg, s, Judge(w, dead), FoundGone, l, i) || Occurs(cfg, s, Judge(w, dead), FoundDead, l, i)
  {
    var x := s.workers[w];
    JudgeUnreachable(s, w, dead);
    var rs := if x.job.failureCount == 0 then MarkUnreachable(x.rs, dead) else x.rs;
    TagMembers(x.job.lineage, Unreachable(rs));
    assert l == x.job.lineage && i in Unreachable(rs);
    if x.job.failureCount == 0 {
      MarkedBecause(x.rs, dead, i);
    }
  }

  /**
    Why a recipient is given up, in every run: its server was rejected by the
    filter, or after the first attempt it was found deleted or long
    unreachable, or gone after a request to it had been answered with 410.
   */
  lemma {:induction false} UnreachableMeans(cfg: Config, steps: seq<Step>, l: nat, i: nat)
    requires Exec(cfg, steps).Some? && (l, i) in Exec(cfg, steps).value.unreachable
    ensures GivenUp(cfg, steps, l, i)
  {
    if steps != [] {
      var n := |steps| - 1;
      var p, step := steps[..n], steps[n];
      var s := Exec(cfg, p).value;
      assert p + [step] == steps;
      forall what ensures Occurs(cfg, s, step, what, l, i) || Occurred(cfg, p, what, l, i) ==> Occurred(cfg, steps, what, l, i) {
        OccursOccurred(cfg, p, s, step, what, l, i);
      }
      if (l, i) in s.unreachable {
        UnreachableMeans(cfg, p, l, i);
      } else {
        ReachableInv(cfg, p);
        UnreachableAfter(cfg, s, step, l, i);
        GoneMeans410(cfg, p);
      }
    }
  }

  // ---------------------------------------------------------------------
  // No recipient is lost

  /**
    In every state of every run, whatever the workers do and wherever they
    crash, a recipient that no job row holds as unfinished was delivered to, has
    a local inbox that does not exist, was given up for one of the reasons
    above, ran out of retries (after at least four attempts), or belongs to a
    job ended in private mode or because one of its inboxes has no host name.
   */
  lemma NoRecipientLost(cfg: Config, steps: seq<Step>, l: nat, i: nat)
    requires Exec(cfg, steps).Some? && Has(Exec(cfg, steps).value, l, i)
    ensures var s := Exec(cfg, steps).value;
      || (exists id :: id in s.jobs && Holds(s.jobs[id], l, i))
      || Occurred(cfg, steps, Arrival, l, i)
      || (Occurred(cfg, steps, NoInbox, l, i) && LacksAccount(cfg, s.origin[l][i]))
      || GivenUp(cfg, steps, l, i)
      || ((l, i) in s.exhausted && s.attempts[l] >= 4)
      || ((l, PrivateMode) in s.abandoned && !cfg.federationEnabled)
      || ((l, BadInbox) in s.abandoned && exists r :: r in s.origin[l] && cfg.hostnameOf(r.inbox).None?)
  {
    var s := Exec(cfg, steps).value;
    ReachableInv(cfg, steps);
    assert Covered(s, l, i, -1);
    if (l, i) in s.delivered {
      RecordsMatch(cfg, steps, l, i);
      OccurredTo(cfg, steps, l, i);
    } else if (l, i) in s.unreachable {
      UnreachableMeans(cfg, steps, l, i);
    } else if !Resolved(s, l, i) {
      var id :| id in s.jobs && id > -1 && Holds(s.jobs[id], l, i);
    }
  }

  // ---------------------------------------------------------------------
  // What a step does stays done while the worker holds the job

  /** Some step of the worker since its last pick-up did this to recipient `i` of its job. */
  ghost predicate Since(cfg: Config, steps: seq<Step>, w: nat, what: Happening, i: nat) {
    steps != [] &&
    var n := |steps| - 1;
    && !(steps[n].PickUp? && steps[n].w == w)
    && (|| Since(cfg, steps[..n], w, what, i)
        || (Exec(cfg, steps[..n]).Some? && Does(cfg, Exec(cfg, steps[..n]).value, steps[n], w, what, i)))
  }

  ghost predicate Does(cfg: Config, s: State, step: Step, w: nat, what: Happening, i: nat) {
    && OfWorker(step) && step.w == w && w in s.workers
    && Occurs(cfg, s, step, what, s.workers[w].job.lineage, i)
  }

  /** The lasting effect on the working copy. */
  ghost predicate Shown(x: Worker, what: Happening, i: nat) {
    && i < |x.rs|
    && match what
       case Arrival => x.rs[i].isDelivered
       case NoInbox => x.rs[i].isDelivered
       case Answered410 => x.rs[i].isGone
       case Rejection => x.rs[i].isUnreachable && !x.phase.Local?
       case FoundGone => x.rs[i].isUnreachable
       case FoundDead => x.rs[i].isUnreachable
  }

  /** A step raises the flag that stands for what it does. */
  lemma EffectOnCopy(cfg: Config, s: State, step: Step, w: nat, what: Happening, i: nat)
    requires Does(cfg, s, step, w, what, i)
    ensures var x := s.workers[w];
      var rs := CopyAfter(cfg, x, step);
      && i < |x.rs| && |rs| == |x.rs|
      && (what.Arrival? || what.NoInbox? ==> rs[i].isDelivered)
      && (what.Answered410? ==> rs[i].isGone)
      && (what.Rejection? || what.FoundGone? || what.FoundDead? ==> rs[i].isUnreachable)
      && (what.Rejection? ==> step.Filter?)
      && !step.Delete? && !step.Crash?
  {
    var x := s.workers[w];
    CopyLength(cfg, x, step);
    if step.Send? {
      assert AfterAttempt(x.rs, step.net)[i] == ApplyResult(x.rs[i], step.net(i));
    }
  }

  lemma ShownNow(cfg: Config, s: State, step: Step, w: nat, what: Happening, i: nat)
    requires Enabled(s, step) && Does(cfg, s, step, w, what, i)
    ensures w in Next(cfg, s, step).workers && Shown(Next(cfg, s, step).workers[w], what, i)
  {
    EffectOnCopy(cfg, s, step, w, what, i);
    WorkersAfter(cfg, s, step);
  }

  lemma ShownStays(cfg: Config, s: State, step: Step, w: nat, what: Happening, i: nat)
    requires Enabled(s, step) && w in s.workers && Shown(s.workers[w], what, i)
    requires w in Next(cfg, s, step).workers && !(step.PickUp? && step.w == w)
    ensures Shown(Next(cfg, s, step).workers[w], what, i)
  {
    if step.Enqueue? || step.PickUp? {
      assert Next(cfg, s, step).workers[w] == s.workers[w];
    } else {
      WorkersAfter(cfg, s, step);
      if step.w == w {
        CopyRaised(cfg, s.workers[w], step, i);
      }
    }
  }

  lemma PickedUp(cfg: Config, s: State, step: Step, w: nat)
    requires Enabled(s, step) && w !in s.workers && w in Next(cfg, s, step).workers
    ensures step.PickUp? && step.w == w
  {
    if OfWorker(step) {
      WorkersAfter(cfg, s, step);
    }
  }

  /**
    Over every run: what a worker's steps have done to a recipient since the
    pick-up shows in its working copy, and thus in the row it writes. An answer
    of 410 leaves the gone flag, a rejection by the filter and a judgement leave
    the recipient given up, a delivery leaves the delivered flag.
   */
  lemma {:induction false} EffectsLast(cfg: Config, steps: seq<Step>, w: nat, what: Happening, i: nat)
    requires Exec(cfg, steps).Some? && w in Exec(cfg, steps).value.workers && Since(cfg, steps, w, what, i)
    ensures Shown(Exec(cfg, steps).value.workers[w], what, i)
  {
    var n := |steps| - 1;
    var s, step := Exec(cfg, steps[..n]).value, steps[n];
    if Does(cfg, s, step, w, what, i) {
      ShownNow(cfg, s, step, w, what, i);
    } else {
      if w !in s.workers {
        PickedUp(cfg, s, step, w);
      }
      EffectsLast(cfg, steps[..n], w, what, i);
      ShownStays(cfg, s, step, w, what, i);
    }
  }

  /** A recipient whose server the filter rejected is not contacted by this worker before it picks up a job again. */
  lemma RejectedNotContacted(cfg: Config, steps: seq<Step>, w: nat, step: Step, i: nat)
    requires Exec(cfg, steps).Some? && w in Exec(cfg, steps).value.workers && Since(cfg, steps, w, Rejection, i)
    ensures !Does(cfg, Exec(cfg, steps).value, step, w, Arrival, i)
    ensures !Does(cfg, Exec(cfg, steps).value, step, w, Answered410, i)
    ensures var x := Exec(cfg, steps).value.workers[w]; i < |x.rs| && !Requests(cfg, x, step, i)
  {
    EffectsLast(cfg, steps, w, Rejection, i);
  }

  /** The row written for a retry has all flags of the working copy. */
  lemma RetryKeepsFlags(cfg: Config, s: State, w: nat, i: nat)
    requires Enabled(s, Requeue(w)) && i < |s.workers[w].rs|
    ensures var s' := Next(cfg, s, Requeue(w));
      s.nextId in s'.jobs && i < |s'.jobs[s.nextId].recipients| && s'.jobs[s.nextId].recipients[i] == s.workers[w].rs[i]
  {
  }

  // ---------------------------------------------------------------------
  // Private mode, and new jobs

  ghost predicate Quiet(s: State) {
    && s.attempts == multiset{}
    && forall w :: w in s.workers ==> s.workers[w].phase.Local? || s.workers[w].phase.Deleting?
  }

  lemma NextKeepsQuiet(cfg: Config, s: State, step: Step)
    requires !cfg.federationEnabled && Quiet(s) && Enabled(s, step)
    ensures Quiet(Next(cfg, s, step))
  {
    match step {
      case LocalStep(w) => LocalStepFrame(cfg, s, w);
      case _ =>
    }
  }

  /** In private mode no worker ever makes a delivery attempt. */
  lemma {:induction false} PrivateModeSendsNothing(cfg: Config, steps: seq<Step>, w: nat, net: nat -> SendResult)
    requires !cfg.federationEnabled && Exec(cfg, steps).Some?
    ensures Quiet(Exec(cfg, steps).value) && !Enabled(Exec(cfg, steps).value, Send(w, net))
  {
    if steps != [] {
      var n := |steps| - 1;
      PrivateModeSendsNothing(cfg, steps[..n], w, net);
      NextKeepsQuiet(cfg, Exec(cfg, steps[..n]).value, steps[n]);
    }
  }

  /** A new job has a recipient for every inbox it was created for, primary exactly if one of the given ones was. */
  lemma EnqueueKeepsEveryone(cfg: Config, s: State, rs: seq<Recipient>)
    requires Fresh(rs)
    ensures var s' := Next(cfg, s, Enqueue(rs));
      && s.nextId in s'.origin && s.nextId in s'.jobs
      && s'.jobs[s.nextId].recipients == s'.origin[s.nextId]
      && Represents(s'.origin[s.nextId], rs)
  {
    Normalized(rs);
  }

  // ---------------------------------------------------------------------
  // Collections of local accounts

  /** Some step added the activity for recipient `i`, whose inbox is local and belongs to this actor. */
  ghost predicate AddedFor(cfg: Config, steps: seq<Step>, s: State, actor: string, l: nat, i: nat) {
    && Has(s, l, i) && s.origin[l][i].id == actor && cfg.isLocal(s.origin[l][i].inbox)
    && Occurred(cfg, steps, Arrival, l, i)
  }

  lemma CollectionsAfter(cfg: Config, s: State, step: Step, actor: string, l: nat)
    requires Inv(cfg, s) && Enabled(s, step)
    ensures (actor, l) in Next(cfg, s, step).collections <==>
      || (actor, l) in s.collections
      || exists i: nat :: step.LocalStep? && Occurs(cfg, s, step, Arrival, l, i) && s.workers[step.w].rs[i].id == actor
  {
    if step.LocalStep? {
      LocalCollections(cfg, s, step.w, actor, l);
    } else {
      SameCollections(cfg, s, step);
    }
  }

  lemma SameCollections(cfg: Config, s: State, step: Step)
    requires Enabled(s, step) && !step.LocalStep?
    ensures Next(cfg, s, step).collections == s.collections
  {
  }

  lemma LocalCollections(cfg: Config, s: State, w: nat, actor: string, l: nat)
    requires Enabled(s, LocalStep(w))
    ensures (actor, l) in AfterLocalStep(cfg, s, w).collections <==>
      || (actor, l) in s.collections
      || exists i: nat :: Occurs(cfg, s, LocalStep(w), Arrival, l, i) && s.workers[w].rs[i].id == actor
  {
    var x := s.workers[w];
    var i := x.phase.next;
    if HandlesLocal(cfg, x, LocalStep(w), i) && cfg.hasAccount(x.rs[i].id) {
      assert Occurs(cfg, s, LocalStep(w), Arrival, x.job.lineage, i);
    }
  }

  /**
    What is in the inbox collections of local accounts, in every run: exactly
    the activities that were delivered to a local inbox of the actor.
   */
  lemma {:induction false} CollectionsExactly(cfg: Config, steps: seq<Step>, actor: string, l: nat)
    requires Exec(cfg, steps).Some?
    ensures var s := Exec(cfg, steps).value;
      (actor, l) in s.collections <==> exists i: nat :: AddedFor(cfg, steps, s, actor, l, i)
  {
    if steps != [] {
      var n := |steps| - 1;
      var p, step := steps[..n], steps[n];
      var s, s' := Exec(cfg, p).value, Exec(cfg, steps).value;
      assert p + [step] == steps;
      CollectionsExactly(cfg, p, actor, l);
      ReachableInv(cfg, p);
      LocalsFirst(cfg, p);
      CollectionsAfter(cfg, s, step, actor, l);
      forall i: nat ensures AddedFor(cfg, steps, s', actor, l, i) <==>
        AddedFor(cfg, p, s, actor, l, i) ||
        (step.LocalStep? && Occurs(cfg, s, step, Arrival, l, i) && s.workers[step.w].rs[i].id == actor)
      {
        AddedNow(cfg, p, s, step, actor, l, i);
      }
    }
  }

  /** A step adds for a local recipient exactly if it is the local step that delivers to it. */
  lemma AddedNow(cfg: Config, p: seq<Step>, s: State, step: Step, actor: string, l: nat, i: nat)
    requires Exec(cfg, p) == Some(s) && Enabled(s, step) && Inv(cfg, s) && AllLocalsDone(cfg, s)
    ensures AddedFor(cfg, p + [step], Next(cfg, s, step), actor, l, i) <==>
      AddedFor(cfg, p, s, actor, l, i) ||
      (step.LocalStep? && Occurs(cfg, s, step, Arrival, l, i) && s.workers[step.w].rs[i].id == actor)
  {
    assert (p + [step])[..|p + [step]| - 1] == p;
    OccurredTo(cfg, p, l, i);
    if Has(s, l, i) {
      OriginAfter(cfg, s, step, l);
    }
    if Occurs(cfg, s, step, Arrival, l, i) {
      SameRecipient(cfg, s, step.w, i);
      assert LocalsDone(cfg, s.workers[step.w]);
    }
  }
}
