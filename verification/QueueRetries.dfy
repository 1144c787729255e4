/** What holds of the outgoing queue when one worker runs and does not crash. */
module QueueRetries {
  import opened Wrappers
  import opened Recipients
  import opened Deliverer
  import opened Reachability
  import opened OutgoingQueue
  import opened QueueRecords

  /** Steps of the single worker 0, without crashes. */
  predicate Orderly(step: Step) {
    match step
    case Enqueue(_) => true
    case PickUp(w, _) => w == 0
    case LocalStep(w) => w == 0
    case Filter(w, _) => w == 0
    case Send(w, _) => w == 0
    case Judge(w, _) => w == 0
    case Requeue(w) => w == 0
    case Finalize(w) => w == 0
    case Delete(w) => w == 0
    case Crash(_) => false
  }

  ghost predicate CrashFree(steps: seq<Step>) {
    forall k :: 0 <= k < |steps| ==> Orderly(steps[k])
  }

  /** The delivered flag of every recipient counts its successes and its missing local inbox. */
  ghost predicate Counted(s: State, lineage: nat, rs: seq<Recipient>) {
    forall i: nat :: i < |rs| ==> s.successes[(lineage, i)] + Bit((lineage, i) in s.noAccount) == Bit(rs[i].isDelivered)
  }

  /** The row that the worker has dealt with and is about to delete. */
  ghost predicate Stale(s: State, id: nat) {
    0 in s.workers && s.workers[0].id == id && s.workers[0].phase.Deleting?
  }

  /** The row that the worker is working on. */
  ghost predicate Busy(s: State, id: nat) {
    0 in s.workers && s.workers[0].id == id && !s.workers[0].phase.Deleting?
  }

  ghost predicate Resting(s: State, id: nat)
    requires id in s.jobs
  {
    var job := s.jobs[id];
    s.attempts[job.lineage] == job.failureCount && Counted(s, job.lineage, job.recipients)
  }

  ghost predicate Active(s: State, x: Worker) {
    && x.id in s.jobs && s.jobs[x.id] == x.job
    && s.attempts[x.job.lineage] == x.job.failureCount + Bit(x.phase.Sent? || x.phase.Deciding?)
    && Counted(s, x.job.lineage, x.rs)
  }

  ghost predicate OneRowEach(s: State) {
    forall a, b :: a in s.jobs && b in s.jobs && !Stale(s, a) && !Stale(s, b) && s.jobs[a].lineage == s.jobs[b].lineage ==> a == b
  }

  ghost predicate AttemptsBounded(s: State) {
    forall l :: s.attempts[l] <= 4 && (l !in s.origin ==> s.attempts[l] == 0)
  }

  ghost predicate SuccessesBounded(s: State) {
    forall l, i ::
      && s.successes[(l, i)] <= 1
      && (l !in s.origin ==> s.successes[(l, i)] == 0 && (l, i) !in s.noAccount)
  }

  ghost predicate Bounded(s: State) {
    AttemptsBounded(s) && SuccessesBounded(s)
  }

  ghost predicate Sane(s: State) {
    && (forall w :: w in s.workers ==> w == 0)
    && (0 in s.workers && !s.workers[0].phase.Deleting? ==> Active(s, s.workers[0]))
    && (forall id :: id in s.jobs && !Stale(s, id) && !Busy(s, id) ==> Resting(s, id))
    && OneRowEach(s)
    && Bounded(s)
  }

  /** The ID of a new job is new in every respect. */
  lemma NextIdIsNew(cfg: Config, s: State)
    requires Inv(cfg, s)
    ensures s.nextId !in s.origin && s.nextId !in s.jobs
    ensures forall id :: id in s.jobs ==> s.jobs[id].lineage != s.nextId
    ensures 0 in s.workers ==> s.workers[0].id != s.nextId
  {
    forall id | id in s.jobs ensures s.jobs[id].lineage != s.nextId {
      assert JobOk(s, s.jobs[id]);
    }
    if 0 in s.workers {
      assert WorkerOk(s, s.workers[0]);
    }
  }

  lemma EnqueueKeepsSane(cfg: Config, s: State, rs: seq<Recipient>)
    requires Inv(cfg, s) && Sane(s) && Fresh(rs)
    ensures Sane(AfterEnqueue(s, rs))
  {
    NextIdIsNew(cfg, s);
    FreshRecipients(rs);
    AddJobKeepsSane(s, AfterEnqueue(s, rs));
  }

  lemma AddJobKeepsSane(s: State, s': State)
    requires Sane(s) && s.nextId !in s.origin && s.nextId !in s.jobs
    requires forall id :: id in s.jobs ==> s.jobs[id].lineage != s.nextId
    requires 0 in s.workers ==> s.workers[0].id != s.nextId
    requires s.nextId in s'.jobs && s'.jobs == s.jobs[s.nextId := s'.jobs[s.nextId]]
    requires s'.workers == s.workers && s'.attempts == s.attempts
    requires s'.successes == s.successes && s'.noAccount == s.noAccount
    requires forall l :: l in s.origin ==> l in s'.origin
    requires var job := s'.jobs[s.nextId];
      && job.lineage == s.nextId && job.failureCount == 0
      && forall i :: 0 <= i < |job.recipients| ==> !job.recipients[i].isDelivered
    ensures Sane(s')
  {
    assert Resting(s', s.nextId);
    forall id | id in s'.jobs && !Stale(s', id) && !Busy(s', id) ensures Resting(s', id) {
      if id != s.nextId {
        assert Resting(s, id);
      }
    }
    assert OneRowEach(s');
  }

  lemma PickUpKeepsSane(s: State, id: nat)
    requires Sane(s) && Enabled(s, PickUp(0, id))
    ensures Sane(AfterPickUp(s, 0, id))
  {
    var s' := AfterPickUp(s, 0, id);
    assert Resting(s, id);
    forall other | other in s.jobs && other != id ensures Resting(s', other) {
      assert Resting(s, other);
    }
  }

  /** The worker changed its own memory and nobody else's counters. */
  lemma OwnStepKeepsSane(s: State, s': State, x': Worker)
    requires Sane(s) && 0 in s.workers && !s.workers[0].phase.Deleting?
    requires s'.jobs == s.jobs && s'.workers == s.workers[0 := x'] && s'.origin == s.origin
    requires x'.id == s.workers[0].id && x'.job == s.workers[0].job
    requires forall l :: l != x'.job.lineage ==> s'.attempts[l] == s.attempts[l]
    requires forall l, i :: l != x'.job.lineage ==>
      s'.successes[(l, i)] == s.successes[(l, i)] && ((l, i) in s'.noAccount <==> (l, i) in s.noAccount)
    requires !x'.phase.Deleting? ==> Active(s', x')
    requires Bounded(s')
    ensures Sane(s')
  {
    var x := s.workers[0];
    assert Active(s, x);
    forall id | id in s'.jobs && !Stale(s', id) && !Busy(s', id) ensures Resting(s', id) {
      assert id != x.id && !Stale(s, id) && !Busy(s, id) && Resting(s, id);
      assert !Stale(s, x.id);
      assert s.jobs[id].lineage != x.job.lineage;
    }
  }

  /** What a local step does to the counters. */
  lemma LocalCounters(cfg: Config, s: State)
    requires Enabled(s, LocalStep(0))
    ensures var s' := AfterLocalStep(cfg, s, 0);
      var x, x' := s.workers[0], s'.workers[0];
      var at := (x.job.lineage, x.phase.next);
      && s'.jobs == s.jobs && s'.origin == s.origin && s'.attempts == s.attempts
      && x'.id == x.id && x'.job == x.job && x'.phase.Local?
      && |x'.rs| == |x.rs| && (forall j :: 0 <= j < |x.rs| && j != x.phase.next ==> x'.rs[j] == x.rs[j])
      && (forall k :: k != at ==> s'.successes[k] == s.successes[k] && (k in s'.noAccount <==> k in s.noAccount))
      && (if x'.rs == x.rs then s'.successes == s.successes && s'.noAccount == s.noAccount
          else !x.rs[x.phase.next].isDelivered && x'.rs[x.phase.next].isDelivered && OneMore(s, s', at))
  {
    var x := s.workers[0];
    var i := x.phase.next;
    assert !x.rs[i].isDelivered ==> x.rs[i := x.rs[i].(isDelivered := true)][i].isDelivered;
  }

  /** One success more, or one missing inbox more. */
  ghost predicate OneMore(s: State, s': State, at: (nat, nat)) {
    || (s'.successes[at] == s.successes[at] + 1 && (at in s'.noAccount <==> at in s.noAccount))
    || (s'.successes[at] == s.successes[at] && at in s'.noAccount)
  }

  lemma LocalStepCounts(cfg: Config, s: State)
    requires Inv(cfg, s) && Sane(s) && Enabled(s, LocalStep(0))
    ensures var s' := AfterLocalStep(cfg, s, 0);
      Active(s', s'.workers[0]) && Bounded(s')
  {
    var x := s.workers[0];
    assert Active(s, x) && WorkerOk(s, x);
    LocalCounters(cfg, s);
    var s' := AfterLocalStep(cfg, s, 0);
    OneMoreBounded(s, s', x.job.lineage, x.phase.next, x.rs, s'.workers[0].rs);
    SameAttempts(s, s');
  }

  lemma SameAttempts(s: State, s': State)
    requires AttemptsBounded(s) && s'.attempts == s.attempts && s'.origin == s.origin
    ensures AttemptsBounded(s')
  {
  }

  lemma OneMoreBounded(s: State, s': State, l: nat, i: nat, rs: seq<Recipient>, rs': seq<Recipient>)
    requires SuccessesBounded(s) && Counted(s, l, rs) && l in s.origin && s'.origin == s.origin
    requires |rs'| == |rs| && i < |rs| && forall j :: 0 <= j < |rs| && j != i ==> rs'[j] == rs[j]
    requires forall k :: k != (l, i) ==> s'.successes[k] == s.successes[k] && (k in s'.noAccount <==> k in s.noAccount)
    requires if rs' == rs then s'.successes == s.successes && s'.noAccount == s.noAccount
             else !rs[i].isDelivered && rs'[i].isDelivered && OneMore(s, s', (l, i))
    ensures SuccessesBounded(s') && Counted(s', l, rs')
  {
  }

  lemma LocalStepKeepsSane(cfg: Config, s: State)
    requires Inv(cfg, s) && Sane(s) && Enabled(s, LocalStep(0))
    ensures Sane(AfterLocalStep(cfg, s, 0))
  {
    var s' := AfterLocalStep(cfg, s, 0);
    LocalStepCounts(cfg, s);
    LocalCounters(cfg, s);
    LocalMoves(cfg, s, 0);
    OwnStepKeepsSane(s, s', s'.workers[0]);
  }

  lemma FilterKeepsSane(cfg: Config, s: State, blocked: string -> bool)
    requires Sane(s) && Enabled(s, Filter(0, blocked))
    ensures Sane(AfterFilter(cfg, s, 0, blocked))
  {
    var s' := AfterFilter(cfg, s, 0, blocked);
    assert Active(s, s.workers[0]);
    OwnStepKeepsSane(s, s', s'.workers[0]);
  }

  /** Adding one success for each newly delivered recipient keeps the counts equal to the flags. */
  lemma CountRaised(before: multiset<(nat, nat)>, missing: set<(nat, nat)>, lineage: nat,
                    rs: seq<Recipient>, rs': seq<Recipient>)
    requires |rs'| == |rs| && forall i :: 0 <= i < |rs| && rs[i].isDelivered ==> rs'[i].isDelivered
    requires forall i: nat :: i < |rs| ==> before[(lineage, i)] + Bit((lineage, i) in missing) == Bit(rs[i].isDelivered)
    ensures var after := before + multiset(Tag(lineage, Delivered(rs') - Delivered(rs)));
      && (forall i: nat :: i < |rs'| ==> after[(lineage, i)] + Bit((lineage, i) in missing) == Bit(rs'[i].isDelivered))
      && (forall l, i :: l != lineage || i >= |rs| ==> after[(l, i)] == before[(l, i)])
  {
    var raised := Delivered(rs') - Delivered(rs);
    TagMembers(lineage, raised);
    forall l, i | l != lineage || i >= |rs| ensures (l, i) !in Tag(lineage, raised) {
    }
  }

  lemma AttemptRaises(rs: seq<Recipient>, net: nat -> SendResult)
    ensures |AfterAttempt(rs, net)| == |rs|
    ensures forall i :: 0 <= i < |rs| && rs[i].isDelivered ==> AfterAttempt(rs, net)[i].isDelivered
  {
    forall i: nat | i < |rs| ensures rs[i].isDelivered ==> AfterAttempt(rs, net)[i].isDelivered {
      assert AfterAttempt(rs, net)[i] == if rs[i].IsFinished() then rs[i] else ApplyResult(rs[i], net(i));
    }
  }

  /** An attempt counts one success for each recipient whose flag it raises. */
  lemma SendCounts(cfg: Config, s: State, net: nat -> SendResult)
    requires Inv(cfg, s) && Sane(s) && Enabled(s, Send(0, net))
    requires AllHostsKnown(s.workers[0].rs, cfg.hostnameOf)
    ensures var s' := AfterSend(cfg, s, 0, net);
      Counted(s', s'.workers[0].job.lineage, s'.workers[0].rs) && Bounded(s')
  {
    var x := s.workers[0];
    assert Active(s, x) && WorkerOk(s, x);
    AttemptRaises(x.rs, net);
    SendCounters(cfg, s, 0, net);
    CountsAfterAttempt(s, AfterSend(cfg, s, 0, net), x.job.lineage, x.rs, AfterAttempt(x.rs, net));
  }

  lemma CountsAfterAttempt(s: State, s': State, l: nat, rs: seq<Recipient>, rs': seq<Recipient>)
    requires Bounded(s) && Counted(s, l, rs) && l in s.origin && s'.origin == s.origin && s.attempts[l] <= 3
    requires |rs'| == |rs| && forall i :: 0 <= i < |rs| && rs[i].isDelivered ==> rs'[i].isDelivered
    requires s'.noAccount == s.noAccount && s'.attempts == s.attempts + multiset{l}
    requires s'.successes == s.successes + multiset(Tag(l, Delivered(rs') - Delivered(rs)))
    ensures Bounded(s') && Counted(s', l, rs')
  {
    CountRaised(s.successes, s.noAccount, l, rs, rs');
    OneMoreAttempt(s, s', l);
    RaisedSuccesses(s, s', l, rs');
  }

  lemma OneMoreAttempt(s: State, s': State, lineage: nat)
    requires AttemptsBounded(s) && lineage in s.origin && s.attempts[lineage] <= 3
    requires s'.origin == s.origin && s'.attempts == s.attempts + multiset{lineage}
    ensures AttemptsBounded(s')
  {
  }

  lemma RaisedSuccesses(s: State, s': State, lineage: nat, rs: seq<Recipient>)
    requires SuccessesBounded(s) && lineage in s.origin && s'.origin == s.origin && s'.noAccount == s.noAccount
    requires forall i: nat :: i < |rs| ==> s'.successes[(lineage, i)] <= 1
    requires forall l, i :: l != lineage || i >= |rs| ==> s'.successes[(l, i)] == s.successes[(l, i)]
    ensures SuccessesBounded(s')
  {
  }

  lemma SendKeepsSane(cfg: Config, s: State, net: nat -> SendResult)
    requires Inv(cfg, s) && Sane(s) && Enabled(s, Send(0, net))
    ensures Sane(AfterSend(cfg, s, 0, net))
  {
    if AllHostsKnown(s.workers[0].rs, cfg.hostnameOf) {
      AttemptKeepsSane(cfg, s, net);
    } else {
      AbortKeepsSane(cfg, s, net);
    }
  }

  lemma AttemptKeepsSane(cfg: Config, s: State, net: nat -> SendResult)
    requires Inv(cfg, s) && Sane(s) && Enabled(s, Send(0, net)) && AllHostsKnown(s.workers[0].rs, cfg.hostnameOf)
    ensures Sane(AfterSend(cfg, s, 0, net))
  {
    var s' := AfterSend(cfg, s, 0, net);
    var x := s.workers[0];
    var rs := AfterAttempt(x.rs, net);
    assert Active(s, x);
    SendCounts(cfg, s, net);
    SendCounters(cfg, s, 0, net);
    OthersUncounted(s.successes, x.job.lineage, Delivered(rs) - Delivered(x.rs));
    OwnStepKeepsSane(s, s', x.(rs := rs, phase := Sent));
  }

  lemma OthersUncounted(before: multiset<(nat, nat)>, lineage: nat, indices: set<nat>)
    ensures forall l, i :: l != lineage ==> (before + multiset(Tag(lineage, indices)))[(l, i)] == before[(l, i)]
  {
    TagMembers(lineage, indices);
    forall l, i | l != lineage ensures (l, i) !in Tag(lineage, indices) {
    }
  }

  lemma AbortKeepsSane(cfg: Config, s: State, net: nat -> SendResult)
    requires Sane(s) && Enabled(s, Send(0, net)) && !AllHostsKnown(s.workers[0].rs, cfg.hostnameOf)
    ensures Sane(AfterSend(cfg, s, 0, net))
  {
    BadInboxFrame(cfg, s, 0, net);
    OtherRecords(cfg, s, Send(0, net));
    OwnStepKeepsSane(s, AfterSend(cfg, s, 0, net), s.workers[0].(phase := Deleting));
  }

  lemma JudgeKeepsSane(s: State, dead: nat -> bool)
    requires Sane(s) && Enabled(s, Judge(0, dead))
    ensures Sane(AfterJudge(s, 0, dead))
  {
    var s' := AfterJudge(s, 0, dead);
    assert Active(s, s.workers[0]);
    OwnStepKeepsSane(s, s', s'.workers[0]);
  }

  lemma RequeueKeepsSane(cfg: Config, s: State)
    requires Inv(cfg, s) && Sane(s) && Enabled(s, Requeue(0))
    ensures Sane(AfterRequeue(s, 0))
  {
    var x := s.workers[0];
    assert WorkerOk(s, x);
    AddRetryKeepsSane(s, AfterRequeue(s, 0), x);
  }

  /** A row that takes over from the one the worker is about to delete. */
  lemma AddRetryKeepsSane(s: State, s': State, x: Worker)
    requires Sane(s) && 0 in s.workers && s.workers[0] == x && x.phase.Deciding?
    requires s.nextId !in s.jobs && x.id != s.nextId
    requires s.nextId in s'.jobs && s'.jobs == s.jobs[s.nextId := s'.jobs[s.nextId]]
    requires var job := s'.jobs[s.nextId];
      job.lineage == x.job.lineage && job.recipients == x.rs && job.failureCount == x.job.failureCount + 1
    requires s'.workers == s.workers[0 := x.(phase := Deleting)] && s'.origin == s.origin
    requires s'.attempts == s.attempts && s'.successes == s.successes && s'.noAccount == s.noAccount
    ensures Sane(s')
  {
    assert Active(s, x) && Resting(s', s.nextId);
    forall id | id in s.jobs && !Stale(s', id) ensures Resting(s', id) && s.jobs[id].lineage != x.job.lineage {
      assert !Stale(s, id) && !Busy(s, id) && Resting(s, id);
      assert !Stale(s, x.id);
    }
  }

  lemma FinalizeKeepsSane(s: State)
    requires Sane(s) && Enabled(s, Finalize(0))
    ensures Sane(AfterFinalize(s, 0))
  {
    var s' := AfterFinalize(s, 0);
    OwnStepKeepsSane(s, s', s'.workers[0]);
  }

  lemma DeleteKeepsSane(s: State)
    requires Sane(s) && Enabled(s, Delete(0))
    ensures Sane(AfterDelete(s, 0))
  {
    var s' := AfterDelete(s, 0);
    forall id | id in s'.jobs ensures Resting(s', id) {
      assert !Stale(s, id) && !Busy(s, id) && Resting(s, id);
    }
  }

  lemma NextKeepsSane(cfg: Config, s: State, step: Step)
    requires Inv(cfg, s) && Sane(s) && Orderly(step) && Enabled(s, step)
    ensures Sane(Next(cfg, s, step))
  {
    match step
    case Enqueue(rs) => EnqueueKeepsSane(cfg, s, rs);
    case PickUp(_, id) => PickUpKeepsSane(s, id);
    case LocalStep(_) => LocalStepKeepsSane(cfg, s);
    case Filter(_, blocked) => FilterKeepsSane(cfg, s, blocked);
    case Send(_, net) => SendKeepsSane(cfg, s, net);
    case Judge(_, dead) => JudgeKeepsSane(s, dead);
    case Requeue(_) => RequeueKeepsSane(cfg, s);
    case Finalize(_) => FinalizeKeepsSane(s);
    case Delete(_) => DeleteKeepsSane(s);
  }

  lemma {:induction false} ReachableSane(cfg: Config, steps: seq<Step>)
    requires CrashFree(steps) && Exec(cfg, steps).Some?
    ensures Sane(Exec(cfg, steps).value)
  {
    if steps != [] {
      var p := steps[..|steps| - 1];
      ReachableSane(cfg, p);
      ReachableInv(cfg, p);
      NextKeepsSane(cfg, Exec(cfg, p).value, steps[|steps| - 1]);
    }
  }

  /** Bounded retries: at most four attempts per activity and at most one successful delivery per recipient. */
  lemma BoundedRetries(cfg: Config, steps: seq<Step>, lineage: nat, i: nat)
    requires CrashFree(steps) && Exec(cfg, steps).Some?
    ensures Exec(cfg, steps).value.attempts[lineage] <= 4
    ensures Exec(cfg, steps).value.successes[(lineage, i)] <= 1
  {
    ReachableSane(cfg, steps);
  }

  /** When the job ends, a flag says that a delivery succeeded or that the local inbox does not exist. */
  lemma FlagAtEnd(cfg: Config, steps: seq<Step>, i: nat)
    requires CrashFree(steps) && Exec(cfg, steps).Some? && Enabled(Exec(cfg, steps).value, Finalize(0))
    requires i < |Exec(cfg, steps).value.workers[0].rs|
    ensures var s := Exec(cfg, steps).value;
      var x := s.workers[0];
      && Has(s, x.job.lineage, i) && s.origin[x.job.lineage][i].id == x.rs[i].id
      && (x.rs[i].isDelivered <==>
            Occurred(cfg, steps, Arrival, x.job.lineage, i) || LacksAccount(cfg, s.origin[x.job.lineage][i]))
  {
    var s := Exec(cfg, steps).value;
    var x := s.workers[0];
    ReachableInv(cfg, steps);
    ReachableSane(cfg, steps);
    assert Active(s, x);
    SameRecipient(cfg, s, 0, i);
    RecordsMatch(cfg, steps, x.job.lineage, i);
    OccurredTo(cfg, steps, x.job.lineage, i);
    LocalsFirst(cfg, steps);
    assert LocalsDone(cfg, x);
  }

  /**
    What the statuses written at the end of a job mean: an actor is reported
    unreachable exactly when no delivery to any of its inboxes succeeded in any
    attempt and none of them is a local inbox without an account.
   */
  lemma StatusesReflectDeliveries(cfg: Config, steps: seq<Step>, actor: string)
    requires CrashFree(steps) && Exec(cfg, steps).Some? && Enabled(Exec(cfg, steps).value, Finalize(0))
    ensures var s := Exec(cfg, steps).value;
      var x := s.workers[0];
      && x.job.lineage in s.origin
      && |s.origin[x.job.lineage]| == |x.rs|
      && (actor in Statuses(x.rs) ==>
            (Statuses(x.rs)[actor] <==>
              forall i: nat :: i < |x.rs| && s.origin[x.job.lineage][i].id == actor ==>
                && !Occurred(cfg, steps, Arrival, x.job.lineage, i)
                && !LacksAccount(cfg, s.origin[x.job.lineage][i])))
  {
    var s := Exec(cfg, steps).value;
    var x := s.workers[0];
    RecipientsNeverChange(cfg, steps);
    ReachabilityFold(x.rs, actor);
    var origin := s.origin[x.job.lineage];
    forall i: nat | i < |x.rs|
      ensures origin[i].id == x.rs[i].id
      ensures x.rs[i].isDelivered <==> Occurred(cfg, steps, Arrival, x.job.lineage, i) || LacksAccount(cfg, origin[i])
    {
      FlagAtEnd(cfg, steps, i);
    }
    StatusByIndex(x.rs, actor);
  }

  lemma StatusByIndex(rs: seq<Recipient>, actor: string)
    ensures actor in Statuses(rs) ==>
      (Statuses(rs)[actor] <==> forall i: nat :: i < |rs| && rs[i].id == actor ==> !rs[i].isDelivered)
  {
    ReachabilityFold(rs, actor);
    if actor in Statuses(rs) && forall i: nat :: i < |rs| && rs[i].id == actor ==> !rs[i].isDelivered {
      forall r | r in rs && r.id == actor ensures !r.isDelivered {
        var i: nat :| i < |rs| && rs[i] == r;
      }
    }
  }

  // ---------------------------------------------------------------------
  // A wrong status

  /** The run of one worker from the handled local inbox to the end of the job. */
  function ReportRun(r: Recipient): seq<Step> {
    DropRun(r) + [Filter(0, (inbox: string) => false)] + [Send(0, (i: nat) => OtherError)] + [Judge(0, (i: nat) => false)]
  }

  ghost function Reported(r: Recipient): State {
    var s := Dropped(r);
    s.(workers := map[0 := s.workers[0].(phase := Deciding)], attempts := multiset{0})
  }

  lemma FinishedCopy(r: Recipient, blocked: string -> bool, net: nat -> SendResult, dead: nat -> bool)
    requires r.isDelivered && !r.isUnreachable
    ensures MarkBlocked([r], blocked) == [r] && AfterAttempt([r], net) == [r] && MarkUnreachable([r], dead) == [r]
    ensures Unreachable([r]) == {} && Delivered([r]) == {0}
  {
  }

  /** The state in which a finished working copy is in the given phase. */
  ghost function DroppedAt(r: Recipient, phase: Phase, attempts: multiset<nat>): State {
    var s := Dropped(r);
    s.(workers := map[0 := s.workers[0].(phase := phase)], attempts := attempts)
  }

  lemma DroppedFilter(cfg: Config, r: Recipient, blocked: string -> bool)
    requires cfg.federationEnabled
    ensures AfterFilter(cfg, Dropped(r), 0, blocked) == DroppedAt(r, Sending, multiset{})
  {
    FinishedCopy(Dropped(r).workers[0].rs[0], blocked, (i: nat) => OtherError, (i: nat) => false);
    SmallTags();
  }

  lemma DroppedSend(cfg: Config, r: Recipient, net: nat -> SendResult)
    ensures AfterSend(cfg, DroppedAt(r, Sending, multiset{}), 0, net) == DroppedAt(r, Sent, multiset{0})
  {
    var s := DroppedAt(r, Sending, multiset{});
    FinishedCopy(Dropped(r).workers[0].rs[0], (inbox: string) => false, net, (i: nat) => false);
    SmallTags();
    SendCounters(cfg, s, 0, net);
  }

  lemma SmallTags()
    ensures Tag(0, {}) == {} && Tag(0, {0}) == {(0, 0)}
    ensures multiset(Tag(0, {0} - {0})) == multiset{}
  {
    var none: set<nat> := {0} - {0};
    assert none == {} && Tag(0, none) == {};
  }

  lemma DroppedJudge(r: Recipient, dead: nat -> bool)
    ensures AfterJudge(DroppedAt(r, Sent, multiset{0}), 0, dead) == Reported(r)
  {
    FinishedCopy(Dropped(r).workers[0].rs[0], (inbox: string) => false, (i: nat) => OtherError, dead);
    SmallTags();
  }

  lemma ReportRunLeads(cfg: Config, r: Recipient)
    requires LacksAccount(cfg, r) && cfg.federationEnabled
    ensures Exec(cfg, ReportRun(r)) == Some(Reported(r))
  {
    var blocked, net, dead := (inbox: string) => false, (i: nat) => OtherError, (i: nat) => false;
    var a := DropRun(r);
    var b := a + [Filter(0, blocked)];
    var c := b + [Send(0, net)];
    DropRunLeads(cfg, r);
    DroppedFilter(cfg, r, blocked);
    ExecSnoc(cfg, a, Dropped(r), Filter(0, blocked));
    DroppedSend(cfg, r, net);
    ExecSnoc(cfg, b, DroppedAt(r, Sending, multiset{}), Send(0, net));
    DroppedJudge(r, dead);
    ExecSnoc(cfg, c, DroppedAt(r, Sent, multiset{0}), Judge(0, dead));
  }

  /**
    An actor whose only inbox is a local one that does not exist is reported
    reachable although nothing was delivered to it.
   */
  lemma ReachableWithoutDelivery(cfg: Config, r: Recipient)
    requires LacksAccount(cfg, r) && cfg.federationEnabled
    ensures CrashFree(ReportRun(r)) && Exec(cfg, ReportRun(r)).Some?
    ensures var s := Exec(cfg, ReportRun(r)).value;
      && Enabled(s, Finalize(0))
      && r.id in Statuses(s.workers[0].rs) && !Statuses(s.workers[0].rs)[r.id]
      && s.successes == multiset{} && s.collections == {}
  {
    ReportRunLeads(cfg, r);
    var rs := Reported(r).workers[0].rs;
    assert rs[0] in rs && rs[0].id == r.id;
    ReachabilityFold(rs, r.id);
  }
}
