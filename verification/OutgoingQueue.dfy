/**
  The outgoing delivery queue as a state machine. Every database write is a
  step of its own, any number of workers run at once, a job may be picked up
  again at any time, and a worker may crash between any two steps.
 */
module OutgoingQueue {
  import opened Wrappers
  import opened Recipients
  import opened Deliverer
  import opened RecipientList
  import opened Sorting

  const OUTGOING_QUEUE_RETRIES_MAX: nat := 3

  /** 10 to the given power. */
  function PowerOfTen(n: nat): nat {
    if n == 0 then 1 else 10 * PowerOfTen(n - 1)
  }

  function OutgoingQueueBackoff(failureCount: nat): nat {
    30 * (PowerOfTen(failureCount) + 10)
  }

  /** The sum of the delays of the first `retries` retries. */
  function TotalBackoff(retries: nat): nat {
    if retries == 0 then 0 else TotalBackoff(retries - 1) + OutgoingQueueBackoff(retries)
  }

  // ---------------------------------------------------------------------
  // State

  /** `lineage` names the activity (the ID of its first job), `waited` sums up the delays so far. */
  datatype Job = Job(lineage: nat, recipients: seq<Recipient>, failureCount: nat, waited: nat)

  datatype Phase = Local(next: nat) | Sending | Sent | Deciding | Deleting

  /** A worker's memory: the job row it read and its working copy of the recipients. */
  datatype Worker = Worker(id: nat, job: Job, rs: seq<Recipient>, phase: Phase)

  datatype Reason = PrivateMode | BadInbox

  /**
    The job table, the inbox collections of local accounts (actor, activity),
    the running workers, and a record of what happened to whom (lineage,
    recipient index): `delivered` are those whose flag was raised, `noAccount`
    those among them whose local inbox does not exist.
   */
  datatype State = State(
    jobs: map<nat, Job>,
    nextId: nat,
    collections: set<(string, nat)>,
    workers: map<nat, Worker>,
    origin: map<nat, seq<Recipient>>,
    delivered: set<(nat, nat)>,
    noAccount: set<(nat, nat)>,
    unreachable: set<(nat, nat)>,
    exhausted: set<(nat, nat)>,
    abandoned: set<(nat, Reason)>,
    attempts: multiset<nat>,
    successes: multiset<(nat, nat)>)

  const INIT: State := State(map[], 0, {}, map[], map[], {}, {}, {}, {}, {}, multiset{}, multiset{})

  /** What does not change while the queue runs: inboxes are local or not, actors have an account here or not. */
  datatype Config = Config(
    federationEnabled: bool,
    isLocal: string -> bool,
    hasAccount: string -> bool,
    hostnameOf: string -> Option<string>)

  // ---------------------------------------------------------------------
  // Changes to the working copy

  predicate AnyUnfinished(rs: seq<Recipient>) {
    exists r :: r in rs && !r.IsFinished()
  }

  /** Recipients on rejected servers are given up before the attempt. */
  function MarkBlocked(rs: seq<Recipient>, blocked: string -> bool): seq<Recipient> {
    seq(|rs|, i requires 0 <= i < |rs| =>
      if !rs[i].IsFinished() && blocked(rs[i].inbox) then rs[i].(isUnreachable := true) else rs[i])
  }

  /** After the first attempt, gone and long unreachable (or deleted) recipients are given up. */
  function MarkUnreachable(rs: seq<Recipient>, dead: nat -> bool): seq<Recipient> {
    seq(|rs|, i requires 0 <= i < |rs| =>
      if !rs[i].isDelivered && (rs[i].isGone || dead(i)) then rs[i].(isUnreachable := true) else rs[i])
  }

  function Delivered(rs: seq<Recipient>): set<nat> {
    set i: nat | i < |rs| && rs[i].isDelivered
  }

  function Unreachable(rs: seq<Recipient>): set<nat> {
    set i: nat | i < |rs| && rs[i].isUnreachable
  }

  function Unfinished(rs: seq<Recipient>): set<nat> {
    set i: nat | i < |rs| && !rs[i].IsFinished()
  }

  function Tag(lineage: nat, indices: set<nat>): set<(nat, nat)> {
    set i | i in indices :: (lineage, i)
  }

  // ---------------------------------------------------------------------
  // Steps

  datatype Step =
    | Enqueue(recipients: seq<Recipient>)
    | PickUp(w: nat, id: nat)
    | LocalStep(w: nat)
    | Filter(w: nat, blocked: string -> bool)
    | Send(w: nat, net: nat -> SendResult)
    | Judge(w: nat, dead: nat -> bool)
    | Requeue(w: nat)
    | Finalize(w: nat)
    | Delete(w: nat)
    | Crash(w: nat)

  ghost predicate Fresh(rs: seq<Recipient>) {
    forall r :: r in rs ==> !r.isDelivered && !r.isUnreachable && !r.isGone
  }

  ghost predicate InPhase(s: State, w: nat, p: Phase) {
    w in s.workers && s.workers[w].phase == p
  }

  ghost predicate Enabled(s: State, step: Step) {
    match step
    case Enqueue(rs) => Fresh(rs)
    case PickUp(w, id) => w !in s.workers && id in s.jobs
    case LocalStep(w) => w in s.workers && s.workers[w].phase.Local? && s.workers[w].phase.next < |s.workers[w].rs|
    case Filter(w, _) => w in s.workers && InPhase(s, w, Local(|s.workers[w].rs|))
    case Send(w, _) => InPhase(s, w, Sending)
    case Judge(w, _) => InPhase(s, w, Sent)
    case Requeue(w) => InPhase(s, w, Deciding) && Retries(s.workers[w])
    case Finalize(w) => InPhase(s, w, Deciding) && !Retries(s.workers[w])
    case Delete(w) => InPhase(s, w, Deleting)
    case Crash(w) => w in s.workers
  }

  ghost predicate Retries(w: Worker) {
    AnyUnfinished(w.rs) && w.job.failureCount < OUTGOING_QUEUE_RETRIES_MAX
  }

  ghost function Become(s: State, w: nat, worker: Worker): State {
    s.(workers := s.workers[w := worker])
  }

  ghost function AfterEnqueue(s: State, rs: seq<Recipient>): State {
    var recipients := SortRecipients(rs);
    s.(jobs := s.jobs[s.nextId := Job(s.nextId, recipients, 0, 0)],
       origin := s.origin[s.nextId := recipients],
       nextId := s.nextId + 1)
  }

  ghost function AfterPickUp(s: State, w: nat, id: nat): State
    requires id in s.jobs
  {
    var job := s.jobs[id];
    Become(s, w, Worker(id, job, job.recipients, if job.recipients == [] then Deleting else Local(0)))
  }

  /** The activity is added to the collection of a local account; without an account nothing is. */
  ghost function RecordLocal(cfg: Config, s: State, lineage: nat, i: nat, actor: string): State {
    var account := cfg.hasAccount(actor);
    s.(delivered := s.delivered + {(lineage, i)},
       collections := if account then s.collections + {(actor, lineage)} else s.collections,
       successes := if account then s.successes + multiset{(lineage, i)} else s.successes,
       noAccount := if account then s.noAccount else s.noAccount + {(lineage, i)})
  }

  /** The flag of a recipient with a local inbox is raised, whether it has an account or not. */
  ghost function AfterLocalStep(cfg: Config, s: State, w: nat): State
    requires w in s.workers && s.workers[w].phase.Local? && s.workers[w].phase.next < |s.workers[w].rs|
  {
    var x := s.workers[w];
    var i := x.phase.next;
    if cfg.isLocal(x.rs[i].inbox) && !x.rs[i].isDelivered then
      Become(RecordLocal(cfg, s, x.job.lineage, i, x.rs[i].id), w,
             x.(rs := x.rs[i := x.rs[i].(isDelivered := true)], phase := Local(i + 1)))
    else
      Become(s, w, x.(phase := Local(i + 1)))
  }

  /** In private mode the job ends here; otherwise rejected servers are filtered out. */
  ghost function AfterFilter(cfg: Config, s: State, w: nat, blocked: string -> bool): State
    requires w in s.workers
  {
    var x := s.workers[w];
    if !cfg.federationEnabled then
      Become(s, w, x.(phase := Deleting)).(abandoned := s.abandoned + {(x.job.lineage, PrivateMode)})
    else
      var rs := MarkBlocked(x.rs, blocked);
      Become(s, w, x.(rs := rs, phase := Sending))
        .(unreachable := s.unreachable + Tag(x.job.lineage, Unreachable(rs)))
  }

  ghost function AfterSend(cfg: Config, s: State, w: nat, net: nat -> SendResult): State
    requires w in s.workers
  {
    var x := s.workers[w];
    if AllHostsKnown(x.rs, cfg.hostnameOf) then
      var rs := AfterAttempt(x.rs, net);
      Become(s, w, x.(rs := rs, phase := Sent))
        .(delivered := s.delivered + Tag(x.job.lineage, Delivered(rs)),
          successes := s.successes + multiset(Tag(x.job.lineage, Delivered(rs) - Delivered(x.rs))),
          attempts := s.attempts + multiset{x.job.lineage})
    else
      Become(s, w, x.(phase := Deleting)).(abandoned := s.abandoned + {(x.job.lineage, BadInbox)})
  }

  ghost function AfterJudge(s: State, w: nat, dead: nat -> bool): State
    requires w in s.workers
  {
    var x := s.workers[w];
    var rs := if x.job.failureCount == 0 then MarkUnreachable(x.rs, dead) else x.rs;
    Become(s, w, x.(rs := rs, phase := Deciding))
      .(unreachable := s.unreachable + Tag(x.job.lineage, Unreachable(rs)))
  }

  /** The job with its current recipients, to be tried again after a delay. */
  function RetryJob(job: Job, rs: seq<Recipient>): Job {
    var count := job.failureCount + 1;
    Job(job.lineage, rs, count, job.waited + OutgoingQueueBackoff(count))
  }

  /** The new row is written while the old one is still there. */
  ghost function AfterRequeue(s: State, w: nat): State
    requires w in s.workers
  {
    var x := s.workers[w];
    Become(s, w, x.(phase := Deleting)).(jobs := s.jobs[s.nextId := RetryJob(x.job, x.rs)], nextId := s.nextId + 1)
  }

  ghost function AfterFinalize(s: State, w: nat): State
    requires w in s.workers
  {
    var x := s.workers[w];
    Become(s, w, x.(phase := Deleting)).(exhausted := s.exhausted + Tag(x.job.lineage, Unfinished(x.rs)))
  }

  /** Deleting a row that another worker has deleted already is an error without effect. */
  ghost function AfterDelete(s: State, w: nat): State
    requires w in s.workers
  {
    s.(jobs := s.jobs - {s.workers[w].id}, workers := s.workers - {w})
  }

  ghost function Next(cfg: Config, s: State, step: Step): State
    requires Enabled(s, step)
  {
    match step
    case Enqueue(rs) => AfterEnqueue(s, rs)
    case PickUp(w, id) => AfterPickUp(s, w, id)
    case LocalStep(w) => AfterLocalStep(cfg, s, w)
    case Filter(w, blocked) => AfterFilter(cfg, s, w, blocked)
    case Send(w, net) => AfterSend(cfg, s, w, net)
    case Judge(w, dead) => AfterJudge(s, w, dead)
    case Requeue(w) => AfterRequeue(s, w)
    case Finalize(w) => AfterFinalize(s, w)
    case Delete(w) => AfterDelete(s, w)
    case Crash(w) => s.(workers := s.workers - {w})
  }

  /** The state after a run of the queue; None when a step was not possible. */
  ghost function Exec(cfg: Config, steps: seq<Step>): Option<State> {
    if steps == [] then Some(INIT)
    else
      var before := Exec(cfg, steps[..|steps| - 1]);
      if before.Some? && Enabled(before.value, steps[|steps| - 1])
      then Some(Next(cfg, before.value, steps[|steps| - 1]))
      else None
  }

  // ---------------------------------------------------------------------
  // How recipients change

  /** Same recipient, flags only raised. */
  ghost predicate Raised(r: Recipient, r': Recipient) {
    && r'.id == r.id && r'.inbox == r.inbox && r'.isPrimary == r.isPrimary
    && (r.isDelivered ==> r'.isDelivered)
    && (r.isUnreachable ==> r'.isUnreachable)
    && (r.isGone ==> r'.isGone)
  }

  /** The same recipients in the same order, flags only raised. */
  ghost predicate Evolves(rs: seq<Recipient>, rs': seq<Recipient>) {
    |rs'| == |rs| && forall i :: 0 <= i < |rs| ==> Raised(rs[i], rs'[i])
  }

  lemma EvolvesTransitive(a: seq<Recipient>, b: seq<Recipient>, c: seq<Recipient>)
    requires Evolves(a, b) && Evolves(b, c)
    ensures Evolves(a, c)
  {
    forall i | 0 <= i < |a| ensures Raised(a[i], c[i]) {
      assert Raised(a[i], b[i]) && Raised(b[i], c[i]);
    }
  }

  // ---------------------------------------------------------------------
  // The invariant

  ghost predicate Resolved(s: State, lineage: nat, i: nat) {
    || (lineage, i) in s.delivered
    || (lineage, i) in s.unreachable
    || (lineage, i) in s.exhausted
    || (lineage, PrivateMode) in s.abandoned
    || (lineage, BadInbox) in s.abandoned
  }

  ghost predicate Holds(job: Job, lineage: nat, i: nat) {
    job.lineage == lineage && i < |job.recipients| && !job.recipients[i].IsFinished()
  }

  /** The recipient is resolved, or some row newer than `after` still holds it as unfinished. */
  ghost predicate Covered(s: State, lineage: nat, i: nat, after: int) {
    Resolved(s, lineage, i) || exists id :: id in s.jobs && id > after && Holds(s.jobs[id], lineage, i)
  }

  /** A raised flag is backed by the record. */
  ghost predicate Justified(s: State, lineage: nat, rs: seq<Recipient>) {
    forall i: nat :: i < |rs| ==>
      && (rs[i].isDelivered ==> (lineage, i) in s.delivered)
      && (rs[i].isUnreachable ==> (lineage, i) in s.unreachable)
  }

  ghost predicate JobOk(s: State, job: Job) {
    && job.lineage in s.origin
    && Evolves(s.origin[job.lineage], job.recipients)
    && Justified(s, job.lineage, job.recipients)
    && job.failureCount <= OUTGOING_QUEUE_RETRIES_MAX
    && job.failureCount <= s.attempts[job.lineage]
    && job.waited == TotalBackoff(job.failureCount)
  }

  ghost predicate WorkerOk(s: State, x: Worker) {
    && x.id < s.nextId
    && (x.id in s.jobs ==> s.jobs[x.id] == x.job)
    && JobOk(s, x.job)
    && Evolves(x.job.recipients, x.rs)
    && Justified(s, x.job.lineage, x.rs)
    && (x.phase.Sent? || x.phase.Deciding? ==> x.job.failureCount < s.attempts[x.job.lineage])
    && (x.phase.Deleting? ==> forall i: nat :: i < |x.rs| ==> Covered(s, x.job.lineage, i, x.id))
  }

  ghost predicate AllCovered(s: State) {
    forall lineage, i: nat :: lineage in s.origin && i < |s.origin[lineage]| ==> Covered(s, lineage, i, -1)
  }

  /** The reasons for giving up are genuine. */
  ghost predicate Genuine(cfg: Config, s: State) {
    && (forall lineage, i :: (lineage, i) in s.exhausted ==> s.attempts[lineage] > OUTGOING_QUEUE_RETRIES_MAX)
    && (forall lineage :: (lineage, PrivateMode) in s.abandoned ==> !cfg.federationEnabled)
    && (forall lineage :: (lineage, BadInbox) in s.abandoned ==>
          lineage in s.origin && exists r :: r in s.origin[lineage] && cfg.hostnameOf(r.inbox).None?)
  }

  ghost predicate Inv(cfg: Config, s: State) {
    && (forall lineage :: lineage in s.origin ==> lineage < s.nextId)
    && (forall id :: id in s.jobs ==> id < s.nextId && JobOk(s, s.jobs[id]))
    && (forall w :: w in s.workers ==> WorkerOk(s, s.workers[w]))
    && AllCovered(s)
    && Genuine(cfg, s)
  }

  // ---------------------------------------------------------------------
  // Preservation

  /** Records only grow. */
  ghost predicate Grows(s: State, s': State) {
    && s.delivered <= s'.delivered && s.unreachable <= s'.unreachable
    && s.exhausted <= s'.exhausted && s.abandoned <= s'.abandoned
    && s.attempts <= s'.attempts && s.nextId <= s'.nextId
    && (forall l :: l in s.origin ==> l in s'.origin && s'.origin[l] == s.origin[l])
  }

  lemma JobOkGrows(s: State, s': State, job: Job)
    requires Grows(s, s') && JobOk(s, job)
    ensures JobOk(s', job)
  {
  }

  /** A row that may be dropped: everything it holds is covered by something newer. */
  ghost predicate Droppable(s: State, id: nat) {
    id in s.jobs ==> forall i: nat :: i < |s.jobs[id].recipients| ==> Covered(s, s.jobs[id].lineage, i, id)
  }

  /** Rows are only added, except rows that may be dropped. */
  ghost predicate KeepsRows(s: State, s': State) {
    && (forall id :: id in s.jobs && id in s'.jobs ==> s'.jobs[id] == s.jobs[id])
    && (forall id :: id in s.jobs && id !in s'.jobs ==>
          Droppable(s, id) && forall other :: other in s.jobs && other > id ==> other in s'.jobs)
  }

  lemma CoveredGrows(s: State, s': State, lineage: nat, i: nat, after: int)
    requires Grows(s, s') && KeepsRows(s, s') && Covered(s, lineage, i, after)
    ensures Covered(s', lineage, i, after)
  {
    if !Resolved(s, lineage, i) {
      var id :| id in s.jobs && id > after && Holds(s.jobs[id], lineage, i);
      if id in s'.jobs {
        assert Holds(s'.jobs[id], lineage, i);
      } else {
        assert Covered(s, lineage, i, id);
        if !Resolved(s, lineage, i) {
          var newer :| newer in s.jobs && newer > id && Holds(s.jobs[newer], lineage, i);
          assert Holds(s'.jobs[newer], lineage, i);
        }
      }
    }
  }

  lemma WorkerOkGrows(s: State, s': State, x: Worker)
    requires Grows(s, s') && KeepsRows(s, s') && WorkerOk(s, x)
    requires x.id in s'.jobs ==> x.id in s.jobs
    ensures WorkerOk(s', x)
  {
    JobOkGrows(s, s', x.job);
    if x.phase.Deleting? {
      forall i: nat | i < |x.rs| ensures Covered(s', x.job.lineage, i, x.id) {
        CoveredGrows(s, s', x.job.lineage, i, x.id);
      }
    }
  }

  /** What a step has to show besides what it leaves alone. */
  lemma Preserve(cfg: Config, s: State, s': State, w: Option<nat>)
    requires Inv(cfg, s) && Grows(s, s') && KeepsRows(s, s')
    requires forall l :: l in s'.origin && l !in s.origin ==>
      && s.nextId <= l < s'.nextId
      && forall i: nat :: i < |s'.origin[l]| ==> Covered(s', l, i, -1)
    requires forall id :: id in s'.jobs && id !in s.jobs ==> s.nextId <= id < s'.nextId && JobOk(s', s'.jobs[id])
    requires forall v :: v in s'.workers && Some(v) != w ==> v in s.workers && s'.workers[v] == s.workers[v]
    requires w.Some? && w.value in s'.workers ==> WorkerOk(s', s'.workers[w.value])
    requires Genuine(cfg, s')
    ensures Inv(cfg, s')
  {
    forall id | id in s'.jobs ensures id < s'.nextId && JobOk(s', s'.jobs[id]) {
      if id in s.jobs {
        JobOkGrows(s, s', s.jobs[id]);
      }
    }
    forall v | v in s'.workers ensures WorkerOk(s', s'.workers[v]) {
      if Some(v) != w {
        WorkerOkGrows(s, s', s.workers[v]);
      }
    }
    forall l, i: nat | l in s'.origin && i < |s'.origin[l]| ensures Covered(s', l, i, -1) {
      if l in s.origin {
        CoveredGrows(s, s', l, i, -1);
      }
    }
  }

  lemma EnqueueKeepsInv(cfg: Config, s: State, rs: seq<Recipient>)
    requires Inv(cfg, s) && Fresh(rs)
    ensures Inv(cfg, AfterEnqueue(s, rs))
  {
    var s' := AfterEnqueue(s, rs);
    var recipients := SortRecipients(rs);
    FreshRecipients(rs);
    EnqueueFrame(s, rs);
    forall i: nat | i < |recipients| ensures Covered(s', s.nextId, i, -1) {
      assert Holds(s'.jobs[s.nextId], s.nextId, i);
    }
    Preserve(cfg, s, s', None);
  }

  lemma FreshRecipients(rs: seq<Recipient>)
    requires Fresh(rs)
    ensures var recipients := SortRecipients(rs);
      forall i :: 0 <= i < |recipients| ==>
        !recipients[i].isDelivered && !recipients[i].isUnreachable && !recipients[i].isGone
  {
    Normalized(rs);
    var recipients := SortRecipients(rs);
    forall i: nat | i < |recipients|
      ensures !recipients[i].isDelivered && !recipients[i].isUnreachable && !recipients[i].isGone
    {
      assert recipients[i] in recipients;
    }
  }

  lemma EnqueueFrame(s: State, rs: seq<Recipient>)
    requires s.nextId !in s.jobs && s.nextId !in s.origin
    ensures var s' := AfterEnqueue(s, rs); Grows(s, s') && KeepsRows(s, s')
  {
  }

  lemma PickUpKeepsInv(cfg: Config, s: State, w: nat, id: nat)
    requires Inv(cfg, s) && Enabled(s, PickUp(w, id))
    ensures Inv(cfg, AfterPickUp(s, w, id))
  {
    var s' := AfterPickUp(s, w, id);
    JobOkGrows(s, s', s.jobs[id]);
    Preserve(cfg, s, s', Some(w));
  }

  /** A step that changes one worker's memory and adds to the record. */
  ghost predicate OnlyWorker(s: State, s': State, w: nat) {
    && s'.jobs == s.jobs && s'.origin == s.origin && s'.nextId == s.nextId
    && w in s.workers && w in s'.workers
    && s'.workers == s.workers[w := s'.workers[w]]
    && s'.workers[w].id == s.workers[w].id && s'.workers[w].job == s.workers[w].job
  }

  lemma WorkerStepKeepsInv(cfg: Config, s: State, s': State, w: nat)
    requires Inv(cfg, s) && Grows(s, s') && OnlyWorker(s, s', w) && Genuine(cfg, s')
    requires Evolves(s.workers[w].rs, s'.workers[w].rs)
    requires Justified(s', s.workers[w].job.lineage, s'.workers[w].rs)
    requires var x := s'.workers[w];
      && (x.phase.Sent? || x.phase.Deciding? ==> x.job.failureCount < s'.attempts[x.job.lineage])
      && (x.phase.Deleting? ==> forall i: nat :: i < |x.rs| ==> Resolved(s', x.job.lineage, i))
    ensures Inv(cfg, s')
  {
    var x, x' := s.workers[w], s'.workers[w];
    assert WorkerOk(s, x);
    JobOkGrows(s, s', x.job);
    EvolvesTransitive(x.job.recipients, x.rs, x'.rs);
    assert WorkerOk(s', x');
    Preserve(cfg, s, s', Some(w));
  }

  lemma LocalStepKeepsInv(cfg: Config, s: State, w: nat)
    requires Inv(cfg, s) && Enabled(s, LocalStep(w))
    ensures Inv(cfg, AfterLocalStep(cfg, s, w))
  {
    var s' := AfterLocalStep(cfg, s, w);
    assert WorkerOk(s, s.workers[w]);
    LocalStepFrame(cfg, s, w);
    WorkerStepKeepsInv(cfg, s, s', w);
  }

  lemma LocalStepFrame(cfg: Config, s: State, w: nat)
    requires Enabled(s, LocalStep(w))
    ensures var s' := AfterLocalStep(cfg, s, w);
      && Grows(s, s') && OnlyWorker(s, s', w)
      && s'.exhausted == s.exhausted && s'.attempts == s.attempts && s'.abandoned == s.abandoned
      && Evolves(s.workers[w].rs, s'.workers[w].rs)
      && s'.workers[w].phase.Local?
  {
  }

  lemma FilterKeepsInv(cfg: Config, s: State, w: nat, blocked: string -> bool)
    requires Inv(cfg, s) && Enabled(s, Filter(w, blocked))
    ensures Inv(cfg, AfterFilter(cfg, s, w, blocked))
  {
    var s' := AfterFilter(cfg, s, w, blocked);
    assert WorkerOk(s, s.workers[w]);
    TagMembers(s.workers[w].job.lineage, Unreachable(s'.workers[w].rs));
    FilterFrame(cfg, s, w, blocked);
    WorkerStepKeepsInv(cfg, s, s', w);
  }

  lemma FilterFrame(cfg: Config, s: State, w: nat, blocked: string -> bool)
    requires Enabled(s, Filter(w, blocked))
    ensures var s' := AfterFilter(cfg, s, w, blocked);
      && Grows(s, s') && OnlyWorker(s, s', w)
      && s'.exhausted == s.exhausted && s'.attempts == s.attempts
      && Evolves(s.workers[w].rs, s'.workers[w].rs)
  {
  }

  lemma TagMembers(lineage: nat, indices: set<nat>)
    ensures forall i :: i in indices <==> (lineage, i) in Tag(lineage, indices)
    ensures forall l, i :: (l, i) in Tag(lineage, indices) ==> l == lineage && i in indices
  {
  }

  lemma SendKeepsInv(cfg: Config, s: State, w: nat, net: nat -> SendResult)
    requires Inv(cfg, s) && Enabled(s, Send(w, net))
    ensures Inv(cfg, AfterSend(cfg, s, w, net))
  {
    if AllHostsKnown(s.workers[w].rs, cfg.hostnameOf) {
      AttemptKeepsInv(cfg, s, w, net);
    } else {
      BadInboxKeepsInv(cfg, s, w, net);
    }
  }

  lemma AttemptEvolves(s: State, s': State, lineage: nat, rs: seq<Recipient>, net: nat -> SendResult)
    requires Justified(s, lineage, rs)
    requires s.unreachable <= s'.unreachable && Tag(lineage, Delivered(AfterAttempt(rs, net))) <= s'.delivered
    ensures Evolves(rs, AfterAttempt(rs, net)) && Justified(s', lineage, AfterAttempt(rs, net))
  {
    var rs' := AfterAttempt(rs, net);
    TagMembers(lineage, Delivered(rs'));
    forall i: nat | i < |rs| ensures Raised(rs[i], rs'[i]) && rs'[i].isUnreachable == rs[i].isUnreachable {
      assert rs'[i] == if rs[i].IsFinished() then rs[i] else ApplyResult(rs[i], net(i));
    }
  }

  lemma AttemptKeepsInv(cfg: Config, s: State, w: nat, net: nat -> SendResult)
    requires Inv(cfg, s) && Enabled(s, Send(w, net)) && AllHostsKnown(s.workers[w].rs, cfg.hostnameOf)
    ensures Inv(cfg, AfterSend(cfg, s, w, net))
  {
    var s' := AfterSend(cfg, s, w, net);
    var x := s.workers[w];
    assert WorkerOk(s, x);
    AttemptEvolves(s, s', x.job.lineage, x.rs, net);
    WorkerStepKeepsInv(cfg, s, s', w);
  }

  lemma BadInboxKeepsInv(cfg: Config, s: State, w: nat, net: nat -> SendResult)
    requires Inv(cfg, s) && Enabled(s, Send(w, net)) && !AllHostsKnown(s.workers[w].rs, cfg.hostnameOf)
    ensures Inv(cfg, AfterSend(cfg, s, w, net))
  {
    var s' := AfterSend(cfg, s, w, net);
    var x := s.workers[w];
    assert WorkerOk(s, x);
    EvolvesTransitive(s.origin[x.job.lineage], x.job.recipients, x.rs);
    BadInboxAtStart(cfg, s.origin[x.job.lineage], x.rs);
    BadInboxFrame(cfg, s, w, net);
    BadInboxGenuine(cfg, s, s', x.job.lineage);
    WorkerStepKeepsInv(cfg, s, s', w);
  }

  lemma BadInboxAtStart(cfg: Config, origin: seq<Recipient>, rs: seq<Recipient>)
    requires Evolves(origin, rs) && !AllHostsKnown(rs, cfg.hostnameOf)
    ensures exists r :: r in origin && cfg.hostnameOf(r.inbox).None?
  {
    var i: nat :| i < |rs| && !rs[i].IsFinished() && cfg.hostnameOf(rs[i].inbox).None?;
    assert Raised(origin[i], rs[i]) && origin[i] in origin;
  }

  lemma BadInboxFrame(cfg: Config, s: State, w: nat, net: nat -> SendResult)
    requires Enabled(s, Send(w, net)) && !AllHostsKnown(s.workers[w].rs, cfg.hostnameOf)
    ensures var s' := AfterSend(cfg, s, w, net);
      var x := s.workers[w];
      && Grows(s, s') && OnlyWorker(s, s', w)
      && s'.exhausted == s.exhausted && s'.attempts == s.attempts
      && s'.abandoned == s.abandoned + {(x.job.lineage, BadInbox)}
      && s'.workers[w] == x.(phase := Deleting)
  {
  }

  lemma BadInboxGenuine(cfg: Config, s: State, s': State, lineage: nat)
    requires Genuine(cfg, s) && s'.origin == s.origin && s'.attempts == s.attempts && s'.exhausted == s.exhausted
    requires s'.abandoned == s.abandoned + {(lineage, BadInbox)}
    requires lineage in s.origin && exists r :: r in s.origin[lineage] && cfg.hostnameOf(r.inbox).None?
    ensures Genuine(cfg, s')
  {
  }

  lemma JudgeKeepsInv(cfg: Config, s: State, w: nat, dead: nat -> bool)
    requires Inv(cfg, s) && Enabled(s, Judge(w, dead))
    ensures Inv(cfg, AfterJudge(s, w, dead))
  {
    var s' := AfterJudge(s, w, dead);
    assert WorkerOk(s, s.workers[w]);
    TagMembers(s.workers[w].job.lineage, Unreachable(s'.workers[w].rs));
    JudgeFrame(s, w, dead);
    WorkerStepKeepsInv(cfg, s, s', w);
  }

  lemma JudgeFrame(s: State, w: nat, dead: nat -> bool)
    requires Enabled(s, Judge(w, dead))
    ensures var s' := AfterJudge(s, w, dead);
      && Grows(s, s') && OnlyWorker(s, s', w)
      && s'.exhausted == s.exhausted && s'.attempts == s.attempts && s'.abandoned == s.abandoned
      && Evolves(s.workers[w].rs, s'.workers[w].rs)
  {
  }

  lemma FinalizeKeepsInv(cfg: Config, s: State, w: nat)
    requires Inv(cfg, s) && Enabled(s, Finalize(w))
    ensures Inv(cfg, AfterFinalize(s, w))
  {
    var s' := AfterFinalize(s, w);
    var x := s.workers[w];
    assert WorkerOk(s, x);
    TagMembers(x.job.lineage, Unfinished(x.rs));
    forall i: nat | i < |x.rs| ensures Resolved(s', x.job.lineage, i) {
      assert i in Unfinished(x.rs) <==> !x.rs[i].IsFinished();
    }
    UnfinishedExists(x.rs);
    FinalizeFrame(s, w);
    WorkerStepKeepsInv(cfg, s, s', w);
  }

  lemma UnfinishedExists(rs: seq<Recipient>)
    ensures Unfinished(rs) != {} ==> AnyUnfinished(rs)
  {
    forall i | i in Unfinished(rs) ensures AnyUnfinished(rs) {
      assert rs[i] in rs;
    }
  }

  lemma FinalizeFrame(s: State, w: nat)
    requires w in s.workers
    ensures var s' := AfterFinalize(s, w);
      && Grows(s, s') && OnlyWorker(s, s', w)
      && s'.attempts == s.attempts && s'.abandoned == s.abandoned
      && s'.workers[w] == s.workers[w].(phase := Deleting)
  {
  }

  lemma RequeuedJobOk(s: State, s': State, x: Worker, job: Job)
    requires WorkerOk(s, x) && x.phase.Deciding? && Grows(s, s') && x.job.failureCount < OUTGOING_QUEUE_RETRIES_MAX
    requires job.lineage == x.job.lineage && job.recipients == x.rs
    requires job.failureCount == x.job.failureCount + 1
    requires job.waited == x.job.waited + OutgoingQueueBackoff(job.failureCount)
    ensures JobOk(s', job)
  {
    EvolvesTransitive(s.origin[x.job.lineage], x.job.recipients, x.rs);
  }

  /** Re-enqueueing before deleting: the new row takes over everything unfinished. */
  lemma RequeueKeepsInv(cfg: Config, s: State, w: nat)
    requires Inv(cfg, s) && Enabled(s, Requeue(w))
    ensures Inv(cfg, AfterRequeue(s, w))
  {
    var s' := AfterRequeue(s, w);
    var x := s.workers[w];
    assert WorkerOk(s, x);
    RequeueFrame(s, w);
    RequeuedJobOk(s, s', x, s'.jobs[s.nextId]);
    JobOkGrows(s, s', x.job);
    RequeueCovers(s, s', x);
    Preserve(cfg, s, s', Some(w));
  }

  lemma RequeueFrame(s: State, w: nat)
    requires Enabled(s, Requeue(w)) && s.nextId !in s.jobs
    ensures var s' := AfterRequeue(s, w);
      && Grows(s, s') && KeepsRows(s, s')
      && s'.exhausted == s.exhausted && s'.attempts == s.attempts && s'.abandoned == s.abandoned
  {
  }

  lemma RequeueCovers(s: State, s': State, x: Worker)
    requires WorkerOk(s, x) && Grows(s, s') && s.nextId in s'.jobs
    requires s'.jobs[s.nextId].lineage == x.job.lineage && s'.jobs[s.nextId].recipients == x.rs
    ensures forall i: nat :: i < |x.rs| ==> Covered(s', x.job.lineage, i, x.id)
  {
    forall i: nat | i < |x.rs| ensures Covered(s', x.job.lineage, i, x.id) {
      if !x.rs[i].IsFinished() {
        assert Holds(s'.jobs[s.nextId], x.job.lineage, i);
      }
    }
  }

  lemma DeleteKeepsInv(cfg: Config, s: State, w: nat)
    requires Inv(cfg, s) && Enabled(s, Delete(w))
    ensures Inv(cfg, AfterDelete(s, w))
  {
    var x := s.workers[w];
    assert WorkerOk(s, x);
    assert Droppable(s, x.id);
    Preserve(cfg, s, AfterDelete(s, w), Some(w));
  }

  lemma CrashKeepsInv(cfg: Config, s: State, w: nat)
    requires Inv(cfg, s) && Enabled(s, Crash(w))
    ensures Inv(cfg, Next(cfg, s, Crash(w)))
  {
    Preserve(cfg, s, Next(cfg, s, Crash(w)), Some(w));
  }

  lemma NextKeepsInv(cfg: Config, s: State, step: Step)
    requires Inv(cfg, s) && Enabled(s, step)
    ensures Inv(cfg, Next(cfg, s, step))
  {
    match step
    case Enqueue(rs) => EnqueueKeepsInv(cfg, s, rs);
    case PickUp(w, id) => PickUpKeepsInv(cfg, s, w, id);
    case LocalStep(w) => LocalStepKeepsInv(cfg, s, w);
    case Filter(w, blocked) => FilterKeepsInv(cfg, s, w, blocked);
    case Send(w, net) => SendKeepsInv(cfg, s, w, net);
    case Judge(w, dead) => JudgeKeepsInv(cfg, s, w, dead);
    case Requeue(w) => RequeueKeepsInv(cfg, s, w);
    case Finalize(w) => FinalizeKeepsInv(cfg, s, w);
    case Delete(w) => DeleteKeepsInv(cfg, s, w);
    case Crash(w) => CrashKeepsInv(cfg, s, w);
  }

  lemma {:induction false} ReachableInv(cfg: Config, steps: seq<Step>)
    requires Exec(cfg, steps).Some?
    ensures Inv(cfg, Exec(cfg, steps).value)
  {
    if steps != [] {
      ReachableInv(cfg, steps[..|steps| - 1]);
      NextKeepsInv(cfg, Exec(cfg, steps[..|steps| - 1]).value, steps[|steps| - 1]);
    }
  }

  // ---------------------------------------------------------------------
  // Theorems about every run

  /** Every row and every working copy holds the original recipients in the original order, flags only raised. */
  lemma RecipientsNeverChange(cfg: Config, steps: seq<Step>)
    requires Exec(cfg, steps).Some?
    ensures var s := Exec(cfg, steps).value;
      && (forall id :: id in s.jobs ==>
            s.jobs[id].lineage in s.origin && Evolves(s.origin[s.jobs[id].lineage], s.jobs[id].recipients))
      && (forall w :: w in s.workers ==>
            var x := s.workers[w];
            x.job.lineage in s.origin && Evolves(x.job.recipients, x.rs) && Evolves(s.origin[x.job.lineage], x.rs))
  {
    var s := Exec(cfg, steps).value;
    ReachableInv(cfg, steps);
    forall w | w in s.workers
      ensures s.workers[w].job.lineage in s.origin
      ensures Evolves(s.workers[w].job.recipients, s.workers[w].rs)
      ensures Evolves(s.origin[s.workers[w].job.lineage], s.workers[w].rs)
    {
      var x := s.workers[w];
      assert WorkerOk(s, x);
      EvolvesTransitive(s.origin[x.job.lineage], x.job.recipients, x.rs);
    }
  }

  ghost predicate CallsInRange(s: State) {
    forall w :: Enabled(s, Requeue(w)) ==>
      var count := s.workers[w].job.failureCount + 1;
      1 <= count <= 3 && OutgoingQueueBackoff(count) < 0x1_0000_0000
  }

  ghost predicate DelaysInRange(s: State) {
    forall id :: id in s.jobs ==> s.jobs[id].waited <= 34200
  }

  /** Every back-off call gets 1 to 3, its result fits 32 bits, and a job's delays never exceed 34200 seconds. */
  lemma BackoffBounded(cfg: Config, steps: seq<Step>)
    requires Exec(cfg, steps).Some?
    ensures CallsInRange(Exec(cfg, steps).value) && DelaysInRange(Exec(cfg, steps).value)
  {
    ReachableInv(cfg, steps);
    DelaysBounded(cfg, Exec(cfg, steps).value);
    CallsBounded(cfg, Exec(cfg, steps).value);
  }

  lemma DelaysBounded(cfg: Config, s: State)
    requires Inv(cfg, s)
    ensures DelaysInRange(s)
  {
    forall id | id in s.jobs ensures s.jobs[id].waited <= 34200 {
      assert JobOk(s, s.jobs[id]);
      BackoffValues(s.jobs[id].failureCount);
    }
  }

  lemma CallsBounded(cfg: Config, s: State)
    requires Inv(cfg, s)
    ensures CallsInRange(s)
  {
    forall w | Enabled(s, Requeue(w))
      ensures OutgoingQueueBackoff(s.workers[w].job.failureCount + 1) < 0x1_0000_0000
    {
      BackoffValues(s.workers[w].job.failureCount + 1);
    }
  }

  lemma BackoffValues(count: nat)
    requires count <= 3
    ensures 1 <= count ==> OutgoingQueueBackoff(count) == if count == 1 then 600 else if count == 2 then 3300 else 30300
    ensures TotalBackoff(count) <= TotalBackoff(3) == 34200
  {
    assert PowerOfTen(1) == 10 && PowerOfTen(2) == 100 && PowerOfTen(3) == 1000;
    assert TotalBackoff(1) == 600 && TotalBackoff(2) == 3900;
  }

  /**
    Primary recipients go first, on every attempt: whenever a worker is about
    to send, in whatever order the answers arrive, an unfinished primary
    recipient has been answered before any other recipient of the same host is
    contacted.
   */
  lemma PrimaryRecipientsFirst(cfg: Config, steps: seq<Step>, w: nat, pool: nat, t: seq<Event>, i: nat, j: nat, p: nat)
    requires Exec(cfg, steps).Some? && InPhase(Exec(cfg, steps).value, w, Sending)
    requires var hosts := Pending(Exec(cfg, steps).value.workers[w].rs, cfg.hostnameOf);
      && Legal(pool, hosts, t)
      && i in hosts && j in hosts && Conflict(hosts[i], hosts[j])
    requires var rs := Exec(cfg, steps).value.workers[w].rs; rs[i].isPrimary && !rs[j].isPrimary
    requires p < |t| && t[p] == Started(j)
    ensures Started(i) in t[..p] && Finished(i) in t[..p]
  {
    var s := Exec(cfg, steps).value;
    RecipientsNeverChange(cfg, steps);
    OriginsInOrder(cfg, steps);
    var rs := s.workers[w].rs;
    PrimaryBefore(s.origin[s.workers[w].job.lineage], rs, i, j);
    SequentialPerHost(pool, Pending(rs, cfg.hostnameOf), t, i, j, p);
  }

  lemma PrimaryBefore(origin: seq<Recipient>, rs: seq<Recipient>, i: nat, j: nat)
    requires StrictlySorted(origin, PrimaryFirst) && Evolves(origin, rs)
    requires i < |rs| && j < |rs| && rs[i].isPrimary && !rs[j].isPrimary
    ensures i < j
  {
    assert Raised(origin[i], rs[i]) && Raised(origin[j], rs[j]);
  }

  ghost predicate InOrder(s: State) {
    forall l :: l in s.origin ==> StrictlySorted(s.origin[l], PrimaryFirst)
  }

  lemma NextKeepsOrder(cfg: Config, s: State, step: Step)
    requires InOrder(s) && Enabled(s, step)
    ensures InOrder(Next(cfg, s, step))
  {
    match step {
      case Enqueue(rs) => Normalized(rs);
      case _ => assert Next(cfg, s, step).origin == s.origin;
    }
  }

  lemma {:induction false} OriginsInOrder(cfg: Config, steps: seq<Step>)
    requires Exec(cfg, steps).Some?
    ensures InOrder(Exec(cfg, steps).value)
  {
    if steps != [] {
      OriginsInOrder(cfg, steps[..|steps| - 1]);
      NextKeepsOrder(cfg, Exec(cfg, steps[..|steps| - 1]).value, steps[|steps| - 1]);
    }
  }
}
