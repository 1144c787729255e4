/**
  Processing of one outgoing job, in the form in which the program does it:
  loops over the recipients and writes to the job table. Every write and every
  decision is shown to be a step of the queue's state machine.
 */
module QueueProcessor {
  import opened Wrappers
  import opened Recipients
  import opened Deliverer
  import opened OutgoingQueue
  import QueueRecords
  import QueueRetries

  /** Exactly the recipients picked out are marked as unreachable, and nothing else changes. */
  ghost predicate Marked(rs: seq<Recipient>, rs': seq<Recipient>, picked: set<nat>) {
    && |rs'| == |rs|
    && forall i: nat :: i < |rs| ==> rs'[i] == if i in picked then rs[i].(isUnreachable := true) else rs[i]
  }

  /** Neither delivered to nor given up, and on a rejected server. */
  ghost function Rejected(rs: seq<Recipient>, blocked: string -> bool): set<nat> {
    set i: nat | i < |rs| && !rs[i].isDelivered && !rs[i].isUnreachable && blocked(rs[i].inbox)
  }

  /** Not delivered to, and gone or dead. */
  ghost function Hopeless(rs: seq<Recipient>, dead: nat -> bool): set<nat> {
    set i: nat | i < |rs| && !rs[i].isDelivered && (rs[i].isGone || dead(i))
  }

  /** Exactly these are marked by the filter, and by the judgement after the first attempt. */
  lemma MarkedExactly(rs: seq<Recipient>, blocked: string -> bool, dead: nat -> bool)
    ensures Marked(rs, MarkBlocked(rs, blocked), Rejected(rs, blocked))
    ensures Marked(rs, MarkUnreachable(rs, dead), Hopeless(rs, dead))
  {
  }

  /** Marks recipients on rejected servers. */
  method MarkBlockedInPlace(recipients: array<Recipient>, blocked: string -> bool)
    modifies recipients
    ensures recipients[..] == MarkBlocked(old(recipients[..]), blocked)
    ensures Marked(old(recipients[..]), recipients[..], Rejected(old(recipients[..]), blocked))
  {
    MarkedExactly(recipients[..], blocked, (i: nat) => false);
    for i := 0 to recipients.Length
      invariant forall k :: i <= k < recipients.Length ==> recipients[k] == old(recipients[k])
      invariant forall k :: 0 <= k < i ==> recipients[k] == MarkBlocked(old(recipients[..]), blocked)[k]
    {
      if !recipients[i].IsFinished() && blocked(recipients[i].inbox) {
        recipients[i] := recipients[i].(isUnreachable := true);
      }
    }
  }

  /** Marks gone, deleted and long unreachable recipients after the first attempt. */
  method MarkUnreachableInPlace(recipients: array<Recipient>, dead: nat -> bool)
    modifies recipients
    ensures recipients[..] == MarkUnreachable(old(recipients[..]), dead)
    ensures Marked(old(recipients[..]), recipients[..], Hopeless(old(recipients[..]), dead))
  {
    MarkedExactly(recipients[..], (inbox: string) => false, dead);
    for i := 0 to recipients.Length
      invariant forall k :: i <= k < recipients.Length ==> recipients[k] == old(recipients[k])
      invariant forall k :: 0 <= k < i ==> recipients[k] == MarkUnreachable(old(recipients[..]), dead)[k]
    {
      if !recipients[i].isDelivered {
        if recipients[i].isGone {
          recipients[i] := recipients[i].(isUnreachable := true);
          continue;
        }
        if dead(i) {
          recipients[i] := recipients[i].(isUnreachable := true);
        }
      }
    }
  }

  /** The machine with this single worker and this table. */
  ghost predicate Shows(m: State, jobs: map<nat, Job>, nextId: nat, collections: set<(string, nat)>, x: Worker) {
    && m.jobs == jobs && m.nextId == nextId && m.collections == collections
    && m.workers == map[0 := x]
  }

  lemma LocalEffect(cfg: Config, m: State, jobs: map<nat, Job>, nextId: nat, collections: set<(string, nat)>, x: Worker)
    requires Shows(m, jobs, nextId, collections, x) && Enabled(m, LocalStep(0))
    ensures var i := x.phase.next;
      var handled := cfg.isLocal(x.rs[i].inbox) && !x.rs[i].isDelivered;
      Shows(AfterLocalStep(cfg, m, 0), jobs, nextId,
            if handled && cfg.hasAccount(x.rs[i].id) then collections + {(x.rs[i].id, x.job.lineage)} else collections,
            x.(rs := if handled then x.rs[i := x.rs[i].(isDelivered := true)] else x.rs, phase := Local(i + 1)))
  {
  }

  lemma SendEffect(cfg: Config, m: State, jobs: map<nat, Job>, nextId: nat, collections: set<(string, nat)>, x: Worker,
                   net: nat -> SendResult)
    requires Shows(m, jobs, nextId, collections, x) && Enabled(m, Send(0, net))
    ensures Shows(AfterSend(cfg, m, 0, net), jobs, nextId, collections,
                  if AllHostsKnown(x.rs, cfg.hostnameOf) then x.(rs := AfterAttempt(x.rs, net), phase := Sent)
                  else x.(phase := Deleting))
  {
    if AllHostsKnown(x.rs, cfg.hostnameOf) {
      QueueRecords.SendCounters(cfg, m, 0, net);
    }
  }

  lemma RequeueEffect(m: State, jobs: map<nat, Job>, nextId: nat, collections: set<(string, nat)>, x: Worker)
    requires Shows(m, jobs, nextId, collections, x)
    ensures Shows(AfterRequeue(m, 0), jobs[nextId := RetryJob(x.job, x.rs)], nextId + 1, collections,
                  x.(phase := Deleting))
  {
  }

  class JobTable {
    var jobs: map<nat, Job>
    var nextId: nat
    var collections: set<(string, nat)>
    const cfg: Config
    ghost var steps: seq<Step>
    ghost var machine: State

    /** The table is the one that the recorded run of the machine leads to. */
    ghost predicate Mirrors()
      reads this
    {
      && Exec(cfg, steps) == Some(machine)
      && jobs == machine.jobs && nextId == machine.nextId && collections == machine.collections
    }

    ghost predicate Idle()
      reads this
    {
      Mirrors() && machine.workers == map[]
    }

    /** The worker is in the given phase with the given working copy. */
    ghost predicate At(id: nat, job: Job, rs: seq<Recipient>, phase: Phase)
      reads this
    {
      Mirrors() && machine.workers == map[0 := Worker(id, job, rs, phase)]
    }

    constructor (cfg: Config)
      ensures Idle() && jobs == map[] && this.cfg == cfg
    {
      jobs, nextId, collections := map[], 0, {};
      this.cfg := cfg;
      steps, machine := [], INIT;
    }

    ghost method Take(step: Step)
      requires Exec(cfg, steps) == Some(machine) && Enabled(machine, step)
      modifies this`steps, this`machine
      ensures steps == old(steps) + [step] && machine == Next(cfg, old(machine), step)
      ensures Exec(cfg, steps) == Some(machine)
    {
      QueueRecords.ExecSnoc(cfg, steps, machine, step);
      steps := steps + [step];
      machine := Next(cfg, machine, step);
    }

    /** Adds a new job and returns its ID. */
    method Enqueue(recipients: seq<Recipient>) returns (id: nat)
      requires Idle() && Fresh(recipients)
      modifies this
      ensures Idle() && id == old(nextId)
      ensures steps == old(steps) + [Step.Enqueue(recipients)]
    {
      id := nextId;
      Take(Step.Enqueue(recipients));
      jobs := jobs[id := Job(id, RecipientList.SortRecipients(recipients), 0, 0)];
      nextId := nextId + 1;
    }

    /** Deletes the row the worker is done with. */
    method Delete(id: nat, ghost job: Job, ghost rs: seq<Recipient>)
      requires At(id, job, rs, Deleting)
      modifies this
      ensures Idle() && jobs == old(jobs) - {id} && steps == old(steps) + [Step.Delete(0)]
    {
      Take(Step.Delete(0));
      jobs := jobs - {id};
      assert machine.workers == map[];
    }

    /** Local recipients get the activity added to their collections, one by one. */
    method DeliverLocally(recipients: array<Recipient>, id: nat, job: Job)
      requires At(id, job, recipients[..], Local(0))
      modifies this, recipients
      ensures At(id, job, recipients[..], Local(recipients.Length))
      ensures jobs == old(jobs) && nextId == old(nextId)
      ensures old(steps) <= steps
      ensures forall k :: |old(steps)| <= k < |steps| ==> steps[k] == LocalStep(0)
    {
      for i := 0 to recipients.Length
        invariant At(id, job, recipients[..], Local(i))
        invariant jobs == old(jobs) && nextId == old(nextId)
        invariant old(steps) <= steps
        invariant forall k :: |old(steps)| <= k < |steps| ==> steps[k] == LocalStep(0)
      {
        DeliverOneLocally(recipients, i, id, job);
      }
    }

    method DeliverOneLocally(recipients: array<Recipient>, i: nat, id: nat, job: Job)
      requires i < recipients.Length && At(id, job, recipients[..], Local(i))
      modifies this, recipients
      ensures At(id, job, recipients[..], Local(i + 1))
      ensures jobs == old(jobs) && nextId == old(nextId) && steps == old(steps) + [LocalStep(0)]
    {
      ghost var rs := recipients[..];
      LocalEffect(cfg, machine, jobs, nextId, collections, Worker(id, job, rs, Local(i)));
      Take(LocalStep(0));
      if cfg.isLocal(recipients[i].inbox) && !recipients[i].isDelivered {
        if cfg.hasAccount(recipients[i].id) {
          collections := collections + {(recipients[i].id, job.lineage)};
        }
        recipients[i] := recipients[i].(isDelivered := true);
        assert recipients[..] == rs[i := rs[i].(isDelivered := true)];
      }
      assert machine.workers[0] == Worker(id, job, recipients[..], Local(i + 1));
    }

    /** In private mode the job ends here; otherwise rejected servers are marked. */
    method ApplyFilter(recipients: array<Recipient>, id: nat, job: Job, blocked: string -> bool) returns (go: bool)
      requires At(id, job, recipients[..], Local(recipients.Length))
      modifies this, recipients
      ensures steps == old(steps) + [Filter(0, blocked)] && jobs == old(jobs) && nextId == old(nextId)
      ensures At(id, job, recipients[..], if go then Sending else Deleting)
      ensures go == cfg.federationEnabled
    {
      Take(Filter(0, blocked));
      go := cfg.federationEnabled;
      if go {
        MarkBlockedInPlace(recipients, blocked);
      }
      assert machine.workers[0].rs == recipients[..];
    }

    /** One delivery attempt; a job with an inbox that has no host name is given up. */
    method Attempt(recipients: array<Recipient>, id: nat, job: Job, poolSize: nat, net: nat -> SendResult)
      returns (go: bool)
      requires At(id, job, recipients[..], Sending) && poolSize >= 1
      modifies this, recipients
      ensures steps == old(steps) + [Send(0, net)] && jobs == old(jobs) && nextId == old(nextId)
      ensures At(id, job, recipients[..], if go then Sent else Deleting)
    {
      SendEffect(cfg, machine, jobs, nextId, collections, Worker(id, job, recipients[..], Sending), net);
      Take(Send(0, net));
      ghost var t, rounds;
      go, t, rounds := DeliverActivityWorker(poolSize, cfg.hostnameOf, net, recipients);
      assert machine.workers[0].rs == recipients[..];
    }

    /** After the first attempt some recipients are given up. */
    method GiveUpDead(recipients: array<Recipient>, id: nat, job: Job, dead: nat -> bool)
      requires At(id, job, recipients[..], Sent)
      modifies this, recipients
      ensures steps == old(steps) + [Judge(0, dead)] && jobs == old(jobs) && nextId == old(nextId)
      ensures At(id, job, recipients[..], Deciding)
    {
      Take(Judge(0, dead));
      if job.failureCount == 0 {
        MarkUnreachableInPlace(recipients, dead);
      }
      assert machine.workers[0].rs == recipients[..];
    }

    /** Writes the new row; the old one is still there. */
    method Reenqueue(rs: seq<Recipient>, id: nat, job: Job)
      requires At(id, job, rs, Deciding)
      requires AnyUnfinished(rs) && job.failureCount < OUTGOING_QUEUE_RETRIES_MAX
      modifies this
      ensures At(id, job, rs, Deleting)
      ensures steps == old(steps) + [Requeue(0)]
      ensures nextId == old(nextId) + 1
      ensures jobs == old(jobs)[old(nextId) := RetryJob(job, rs)]
    {
      RequeueEffect(machine, jobs, nextId, collections, Worker(id, job, rs, Deciding));
      Take(Requeue(0));
      jobs := jobs[nextId := RetryJob(job, rs)];
      nextId := nextId + 1;
    }

    /** Everybody is finished, or the retries are used up. */
    method Finish(rs: seq<Recipient>, id: nat, job: Job)
      requires At(id, job, rs, Deciding)
      requires !(AnyUnfinished(rs) && job.failureCount < OUTGOING_QUEUE_RETRIES_MAX)
      modifies this
      ensures At(id, job, rs, Deleting)
      ensures steps == old(steps) + [Finalize(0)] && jobs == old(jobs)
    {
      Take(Finalize(0));
    }

    /** From the attempt on. */
    method Conclude(recipients: array<Recipient>, id: nat, job: Job, blocked: string -> bool, net: nat -> SendResult,
                    dead: nat -> bool, ghost start: seq<Step>)
      requires At(id, job, recipients[..], Sent)
      requires OwnRun(start, steps, id, blocked, net, dead)
      modifies this, recipients
      ensures At(id, job, recipients[..], Deleting)
      ensures OwnRun(start, steps, id, blocked, net, dead)
      ensures KeepsOthers(old(jobs), jobs, old(nextId))
    {
      OwnSnoc(start, steps, Judge(0, dead), id, blocked, net, dead);
      GiveUpDead(recipients, id, job, dead);
      var rs := recipients[..];
      if AnyUnfinished(rs) && job.failureCount < OUTGOING_QUEUE_RETRIES_MAX {
        OwnSnoc(start, steps, Requeue(0), id, blocked, net, dead);
        Reenqueue(rs, id, job);
      } else {
        OwnSnoc(start, steps, Finalize(0), id, blocked, net, dead);
        Finish(rs, id, job);
      }
    }

    /**
      Processes one job from pick-up to deletion. The result is the state that
      the machine reaches by the recorded steps of a single worker, and the
      processed row is gone.
     */
    method ProcessJob(id: nat, poolSize: nat, blocked: string -> bool, net: nat -> SendResult, dead: nat -> bool)
      requires Idle() && id in jobs && poolSize >= 1
      modifies this
      ensures Idle() && id !in jobs
      ensures KeepsOthers(old(jobs), jobs, id)
      ensures OwnRun(old(steps), steps, id, blocked, net, dead)
    {
      var job := jobs[id];
      ReachableInv(cfg, steps);
      ghost var start, rows := steps, jobs;
      assert nextId !in rows;
      Take(PickUp(0, id));
      OwnSnoc(start, start, PickUp(0, id), id, blocked, net, dead);
      var recipients := new Recipient[|job.recipients|](i requires 0 <= i < |job.recipients| => job.recipients[i]);
      assert recipients[..] == job.recipients;
      if recipients.Length > 0 {
        Deliver(recipients, id, job, poolSize, blocked, net, dead, start);
      }
      OwnSnoc(start, steps, Step.Delete(0), id, blocked, net, dead);
      Delete(id, job, recipients[..]);
    }

    /** Everything between pick-up and deletion. */
    method Deliver(recipients: array<Recipient>, id: nat, job: Job, poolSize: nat,
                   blocked: string -> bool, net: nat -> SendResult, dead: nat -> bool, ghost start: seq<Step>)
      requires At(id, job, recipients[..], Local(0)) && poolSize >= 1
      requires OwnRun(start, steps, id, blocked, net, dead)
      modifies this, recipients
      ensures At(id, job, recipients[..], Deleting)
      ensures OwnRun(start, steps, id, blocked, net, dead)
      ensures KeepsOthers(old(jobs), jobs, old(nextId))
    {
      DeliverLocally(recipients, id, job);
      OwnSnoc(start, steps, Filter(0, blocked), id, blocked, net, dead);
      var go := ApplyFilter(recipients, id, job, blocked);
      if !go {
        return;
      }
      OwnSnoc(start, steps, Send(0, net), id, blocked, net, dead);
      go := Attempt(recipients, id, job, poolSize, net);
      if !go {
        return;
      }
      Conclude(recipients, id, job, blocked, net, dead, start);
    }
  }

  /** All rows but one are as before. */
  ghost predicate KeepsOthers(before: map<nat, Job>, after: map<nat, Job>, id: nat) {
    forall other :: other in before && other != id ==> other in after && after[other] == before[other]
  }

  /** `after` continues `before` with steps of this job only. */
  ghost predicate OwnRun(before: seq<Step>, after: seq<Step>, id: nat,
                         blocked: string -> bool, net: nat -> SendResult, dead: nat -> bool)
  {
    && |before| <= |after| && after[..|before|] == before
    && forall k :: |before| <= k < |after| ==> OwnStep(after[k], id, blocked, net, dead)
  }

  lemma OwnSnoc(before: seq<Step>, after: seq<Step>, step: Step, id: nat,
                blocked: string -> bool, net: nat -> SendResult, dead: nat -> bool)
    requires OwnRun(before, after, id, blocked, net, dead) && OwnStep(step, id, blocked, net, dead)
    ensures OwnRun(before, after + [step], id, blocked, net, dead)
  {
  }

  /** A step of worker 0 on this job with these answers of the outside world. */
  ghost predicate OwnStep(step: Step, id: nat, blocked: string -> bool, net: nat -> SendResult, dead: nat -> bool) {
    match step
    case Enqueue(_) => false
    case PickUp(w, j) => w == 0 && j == id
    case LocalStep(w) => w == 0
    case Filter(w, b) => w == 0 && b == blocked
    case Send(w, n) => w == 0 && n == net
    case Judge(w, d) => w == 0 && d == dead
    case Requeue(w) => w == 0
    case Finalize(w) => w == 0
    case Delete(w) => w == 0
    case Crash(_) => false
  }

  /** Processing jobs one after the other is an orderly run, so all bounds on retries apply to it. */
  lemma OwnRunIsOrderly(before: seq<Step>, after: seq<Step>, id: nat,
                        blocked: string -> bool, net: nat -> SendResult, dead: nat -> bool)
    requires OwnRun(before, after, id, blocked, net, dead) && QueueRetries.CrashFree(before)
    ensures QueueRetries.CrashFree(after)
  {
    forall k | 0 <= k < |after| ensures QueueRetries.Orderly(after[k]) {
      if k < |before| {
        assert after[k] == after[..|before|][k];
      } else {
        assert OwnStep(after[k], id, blocked, net, dead);
      }
    }
  }
}
