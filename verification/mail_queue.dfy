/** The resilient mailer before Stop: a bounded queue, workers, and retries with exponential
    backoff (mailer/resilient.go). */
module MailQueue {

  const MAX_RETRIES: nat := 5

  /** waited is history: the backoff delays the job has been given so far. */
  datatype Job = Job(id: nat, attempt: nat, baseDelay: nat, waited: nat)

  /** Where accepted jobs are. blocked holds those whose timer fired into a full queue, each
      in a goroutine of its own; failed are those reported to the audit log. accepted and
      sends (one entry for each call of the underlying mailer) are history. */
  datatype Mailer = Mailer(
    capacity: nat,
    workers: nat,
    queue: seq<Job>,
    sending: seq<Job>,
    waiting: seq<Job>,
    blocked: seq<Job>,
    delivered: seq<Job>,
    failed: seq<Job>,
    accepted: seq<nat>,
    sends: seq<nat>)

  function NewMailer(capacity: nat, workers: nat): Mailer {
    Mailer(capacity, workers, [], [], [], [], [], [], [], [])
  }

  datatype Act =
    | Submit(id: nat, baseDelay: nat)
    | Take
    | Sent(i: nat)
    | SendFails(i: nat)
    | TimerFires(i: nat)
    | Unblocks(i: nat)

  function Without(js: seq<Job>, i: nat): seq<Job>
    requires i < |js|
  {
    js[..i] + js[i + 1..]
  }

  /** 1 << n. */
  function Shl1(n: nat): nat {
    if n == 0 then 1 else 2 * Shl1(n - 1)
  }

  function Delay(j: Job): nat
    requires j.attempt >= 1
  {
    j.baseDelay * Shl1(j.attempt - 1)
  }

  predicate Enabled(m: Mailer, a: Act) {
    match a
    case Submit(id, _) => id !in m.accepted && |m.queue| < m.capacity
    case Take => m.queue != [] && |m.sending| < m.workers
    case Sent(i) => i < |m.sending|
    case SendFails(i) => i < |m.sending|
    case TimerFires(i) => i < |m.waiting|
    case Unblocks(i) => i < |m.blocked| && |m.queue| < m.capacity
  }

  /** What processJob does with a job whose send just failed. */
  function AfterFailure(m: Mailer, i: nat): Mailer
    requires i < |m.sending|
  {
    var j := m.sending[i].(attempt := m.sending[i].attempt + 1);
    var m' := m.(sending := Without(m.sending, i), sends := m.sends + [j.id]);
    if j.attempt >= MAX_RETRIES then m'.(failed := m.failed + [j])
    else m'.(waiting := m.waiting + [j.(waited := j.waited + Delay(j))])
  }

  /** A step that is not enabled leaves the mailer alone; a submission into a full queue is refused. */
  function Step(m: Mailer, a: Act): Mailer {
    if !Enabled(m, a) then m
    else match a
      case Submit(id, baseDelay) => m.(queue := m.queue + [Job(id, 0, baseDelay, 0)], accepted := m.accepted + [id])
      case Take => m.(queue := m.queue[1..], sending := m.sending + [m.queue[0]])
      case Sent(i) =>
        m.(sending := Without(m.sending, i), delivered := m.delivered + [m.sending[i]], sends := m.sends + [m.sending[i].id])
      case SendFails(i) => AfterFailure(m, i)
      case TimerFires(i) =>
        if |m.queue| < m.capacity then m.(waiting := Without(m.waiting, i), queue := m.queue + [m.waiting[i]])
        else m.(waiting := Without(m.waiting, i), blocked := m.blocked + [m.waiting[i]])
      case Unblocks(i) => m.(blocked := Without(m.blocked, i), queue := m.queue + [m.blocked[i]])
  }

  function Run(m: Mailer, acts: seq<Act>): Mailer
    decreases |acts|
  {
    if acts == [] then m else Run(Step(m, acts[0]), acts[1..])
  }

  // ---- Conservation ----

  function Times(js: seq<Job>, id: nat): nat {
    if js == [] then 0 else Times(js[1..], id) + if js[0].id == id then 1 else 0
  }

  lemma {:induction false} TimesJoin(a: seq<Job>, b: seq<Job>, id: nat)
    ensures Times(a + b, id) == Times(a, id) + Times(b, id)
  {
    if a == [] {
      assert a + b == b;
    } else {
      TimesJoin(a[1..], b, id);
      assert (a + b)[1..] == a[1..] + b;
    }
  }

  lemma TimesMove(js: seq<Job>, i: nat, to: seq<Job>, j: Job, id: nat)
    requires i < |js| && j.id == js[i].id
    ensures Times(Without(js, i), id) + Times(to + [j], id) == Times(js, id) + Times(to, id)
  {
    assert js == js[..i] + ([js[i]] + js[i + 1..]);
    TimesJoin(js[..i], [js[i]] + js[i + 1..], id);
    TimesJoin([js[i]], js[i + 1..], id);
    TimesJoin(js[..i], js[i + 1..], id);
    TimesJoin(to, [j], id);
  }

  lemma {:induction false} Occurs(js: seq<Job>, i: nat)
    requires i < |js|
    ensures Times(js, js[i].id) >= 1
  {
    if i > 0 {
      Occurs(js[1..], i - 1);
    }
  }

  function Pending(m: Mailer, id: nat): nat {
    Times(m.queue, id) + Times(m.sending, id) + Times(m.waiting, id) + Times(m.blocked, id)
  }

  /** In how many places job id is, counting every place it can be in. */
  function Places(m: Mailer, id: nat): nat {
    Pending(m, id) + Times(m.delivered, id) + Times(m.failed, id)
  }

  ghost predicate Conserved(m: Mailer) {
    forall id :: Places(m, id) == if id in m.accepted then 1 else 0
  }

  lemma StepPlaces(m: Mailer, a: Act, id: nat)
    ensures Places(Step(m, a), id) == Places(m, id) + if a.Submit? && Enabled(m, a) && a.id == id then 1 else 0
  {
    if Enabled(m, a) {
      match a
      case Submit(job, baseDelay) => TimesJoin(m.queue, [Job(job, 0, baseDelay, 0)], id);
      case Take =>
        TimesMove(m.queue, 0, m.sending, m.queue[0], id);
        assert Without(m.queue, 0) == m.queue[1..];
      case Sent(i) => TimesMove(m.sending, i, m.delivered, m.sending[i], id);
      case SendFails(i) =>
        var j := m.sending[i].(attempt := m.sending[i].attempt + 1);
        TimesMove(m.sending, i, m.failed, j, id);
        TimesMove(m.sending, i, m.waiting, j.(waited := j.waited + Delay(j)), id);
      case TimerFires(i) =>
        TimesMove(m.waiting, i, m.queue, m.waiting[i], id);
        TimesMove(m.waiting, i, m.blocked, m.waiting[i], id);
      case Unblocks(i) => TimesMove(m.blocked, i, m.queue, m.blocked[i], id);
    }
  }

  lemma StepConserves(m: Mailer, a: Act)
    requires Conserved(m)
    ensures Conserved(Step(m, a))
  {
    forall id ensures Places(Step(m, a), id) == if id in Step(m, a).accepted then 1 else 0 {
      StepPlaces(m, a, id);
    }
  }

  // ---- Attempts and backoff ----

  function TotalBackoff(attempt: nat): nat {
    if attempt == 0 then 0 else TotalBackoff(attempt - 1) + Shl1(attempt - 1)
  }

  function Count(sends: seq<nat>, id: nat): nat {
    if sends == [] then 0 else Count(sends[..|sends| - 1], id) + if sends[|sends| - 1] == id then 1 else 0
  }

  lemma CountMore(sends: seq<nat>, sent: nat, id: nat)
    ensures Count(sends + [sent], id) == Count(sends, id) + if sent == id then 1 else 0
  {
    assert (sends + [sent])[..|sends|] == sends;
  }

  /** Tried attempt times, each time in vain, and made to wait after each. */
  predicate PendingOk(sends: seq<nat>, j: Job) {
    j.attempt < MAX_RETRIES && Count(sends, j.id) == j.attempt && j.waited == j.baseDelay * TotalBackoff(j.attempt)
  }

  predicate DeliveredOk(sends: seq<nat>, j: Job) {
    j.attempt < MAX_RETRIES && Count(sends, j.id) == j.attempt + 1 && j.waited == j.baseDelay * TotalBackoff(j.attempt)
  }

  predicate FailedOk(sends: seq<nat>, j: Job) {
    j.attempt == MAX_RETRIES && Count(sends, j.id) == MAX_RETRIES && j.waited == j.baseDelay * TotalBackoff(MAX_RETRIES - 1)
  }

  predicate AllPending(sends: seq<nat>, js: seq<Job>) {
    forall j :: j in js ==> PendingOk(sends, j)
  }

  ghost predicate Inv(m: Mailer) {
    && Conserved(m)
    && (forall id :: id !in m.accepted ==> Count(m.sends, id) == 0)
    && AllPending(m.sends, m.queue) && AllPending(m.sends, m.sending)
    && AllPending(m.sends, m.waiting) && AllPending(m.sends, m.blocked)
    && (forall j :: j in m.delivered ==> DeliveredOk(m.sends, j))
    && (forall j :: j in m.failed ==> FailedOk(m.sends, j))
  }

  lemma OccursIn(js: seq<Job>, j: Job)
    requires j in js
    ensures Times(js, j.id) >= 1
  {
    var i :| 0 <= i < |js| && js[i] == j;
    Occurs(js, i);
  }

  /** The job being sent is nowhere else, so counting its send disturbs no other job. */
  lemma OthersUndisturbed(m: Mailer, i: nat)
    requires Inv(m) && i < |m.sending|
    ensures var (id, sends) := (m.sending[i].id, m.sends + [m.sending[i].id]);
            && id in m.accepted
            && (forall x :: x != id ==> Count(sends, x) == Count(m.sends, x)) && Count(sends, id) == Count(m.sends, id) + 1
            && AllPending(sends, m.queue) && AllPending(sends, Without(m.sending, i))
            && AllPending(sends, m.waiting) && AllPending(sends, m.blocked)
            && (forall j :: j in m.delivered ==> DeliveredOk(sends, j))
            && (forall j :: j in m.failed ==> FailedOk(sends, j))
  {
    var id := m.sending[i].id;
    Occurs(m.sending, i);
    assert Places(m, id) == 1;
    forall x ensures Count(m.sends + [id], x) == Count(m.sends, x) + if x == id then 1 else 0 {
      CountMore(m.sends, id, x);
    }
    forall j | j in Without(m.sending, i) ensures j in m.sending {
    }
    forall j | j in m.queue + Without(m.sending, i) + m.waiting + m.blocked + m.delivered + m.failed ensures j.id != id {
      TimesMove(m.sending, i, [], m.sending[i], id);
      assert Times([] + [m.sending[i]], id) == 1;
      if j in m.queue { OccursIn(m.queue, j); }
      if j in Without(m.sending, i) { OccursIn(Without(m.sending, i), j); }
      if j in m.waiting { OccursIn(m.waiting, j); }
      if j in m.blocked { OccursIn(m.blocked, j); }
      if j in m.delivered { OccursIn(m.delivered, j); }
      if j in m.failed { OccursIn(m.failed, j); }
    }
  }

  lemma SendInv(m: Mailer, i: nat)
    requires Inv(m) && i < |m.sending|
    ensures Inv(Step(m, Sent(i)))
  {
    OthersUndisturbed(m, i);
    StepConserves(m, Sent(i));
    assert m.sending[i] in m.sending;
  }

  lemma FailInv(m: Mailer, i: nat)
    requires Inv(m) && i < |m.sending|
    ensures Inv(Step(m, SendFails(i)))
  {
    OthersUndisturbed(m, i);
    StepConserves(m, SendFails(i));
    var j := m.sending[i];
    assert j in m.sending;
    TriedAgain(m.sends, m.sends + [j.id], j);
  }

  /** A failed try leaves a job either waiting its next delay or out of tries. */
  lemma TriedAgain(sends: seq<nat>, sends': seq<nat>, j: Job)
    requires PendingOk(sends, j) && Count(sends', j.id) == Count(sends, j.id) + 1
    ensures var next := j.(attempt := j.attempt + 1);
            if next.attempt >= MAX_RETRIES then FailedOk(sends', next)
            else PendingOk(sends', next.(waited := next.waited + Delay(next)))
  {
    assert j.baseDelay * TotalBackoff(j.attempt + 1) == j.baseDelay * TotalBackoff(j.attempt) + j.baseDelay * Shl1(j.attempt);
  }

  lemma StepInv(m: Mailer, a: Act)
    requires Inv(m)
    ensures Inv(Step(m, a))
  {
    if Enabled(m, a) {
      match a
      case Sent(i) => SendInv(m, i);
      case SendFails(i) => FailInv(m, i);
      case _ => StepConserves(m, a);
    }
  }

  lemma {:induction false} RunInv(m: Mailer, acts: seq<Act>)
    requires Inv(m)
    ensures Inv(Run(m, acts))
    decreases |acts|
  {
    if acts != [] {
      StepInv(m, acts[0]);
      RunInv(Step(m, acts[0]), acts[1..]);
    }
  }

  /** In every run each accepted job is in exactly one place, once: queued, being sent, waiting
      to retry (its timer running, or its goroutine blocked on the queue), delivered, or failed. */
  lemma ExactlyOnePlace(capacity: nat, workers: nat, acts: seq<Act>, id: nat)
    ensures var m := Run(NewMailer(capacity, workers), acts);
            Places(m, id) == if id in m.accepted then 1 else 0
  {
    RunInv(NewMailer(capacity, workers), acts);
  }

  /** A job still under way has been sent fewer than five times and has waited at most fifteen
      base delays; a delivered one was sent at most five times; one reported failed was sent
      exactly five times and waited exactly fifteen. */
  lemma RetriesAreBounded(capacity: nat, workers: nat, acts: seq<Act>, j: Job)
    ensures var m := Run(NewMailer(capacity, workers), acts);
            && (j in m.queue + m.sending + m.waiting + m.blocked ==>
                  Count(m.sends, j.id) == j.attempt < 5 && j.waited <= 15 * j.baseDelay)
            && (j in m.delivered ==> 1 <= Count(m.sends, j.id) <= 5 && j.waited <= 15 * j.baseDelay)
            && (j in m.failed ==> Count(m.sends, j.id) == 5 && j.waited == 15 * j.baseDelay)
  {
    RunInv(NewMailer(capacity, workers), acts);
    assert TotalBackoff(1) == 1 && TotalBackoff(2) == 3 && TotalBackoff(3) == 7 && TotalBackoff(4) == 15;
  }

  // ---- Every job ends ----

  /** The steps still ahead of the jobs in one place, a job needing at most four a try. */
  function Ahead(js: seq<Job>, stage: nat): nat {
    if js == [] then 0
    else Ahead(js[1..], stage) + stage + if js[0].attempt < MAX_RETRIES then 4 * (MAX_RETRIES - js[0].attempt) else 0
  }

  function Remaining(m: Mailer): nat {
    Ahead(m.waiting, 4) + Ahead(m.blocked, 3) + Ahead(m.queue, 2) + Ahead(m.sending, 1)
  }

  lemma {:induction false} AheadJoin(a: seq<Job>, b: seq<Job>, stage: nat)
    ensures Ahead(a + b, stage) == Ahead(a, stage) + Ahead(b, stage)
  {
    if a == [] {
      assert a + b == b;
    } else {
      AheadJoin(a[1..], b, stage);
      assert (a + b)[1..] == a[1..] + b;
    }
  }

  lemma AheadWithout(js: seq<Job>, i: nat, stage: nat)
    requires i < |js|
    ensures Ahead(js, stage) == Ahead(Without(js, i), stage) + Ahead([js[i]], stage)
  {
    assert js == js[..i] + ([js[i]] + js[i + 1..]);
    AheadJoin(js[..i], [js[i]] + js[i + 1..], stage);
    AheadJoin([js[i]], js[i + 1..], stage);
    AheadJoin(js[..i], js[i + 1..], stage);
  }

  lemma FailureUsesUp(m: Mailer, i: nat)
    requires AllPending(m.sends, m.sending) && i < |m.sending|
    ensures Remaining(AfterFailure(m, i)) < Remaining(m)
  {
    var j := m.sending[i].(attempt := m.sending[i].attempt + 1);
    assert m.sending[i] in m.sending;
    AheadWithout(m.sending, i, 1);
    AheadJoin(m.waiting, [j.(waited := j.waited + Delay(j))], 4);
  }

  /** Every step but a submission brings the end closer. */
  lemma StepsUseUp(m: Mailer, a: Act)
    requires AllPending(m.sends, m.sending) && Enabled(m, a) && !a.Submit?
    ensures Remaining(Step(m, a)) < Remaining(m)
  {
    match a
    case Take =>
      assert m.queue == [m.queue[0]] + m.queue[1..];
      AheadJoin([m.queue[0]], m.queue[1..], 2);
      AheadJoin(m.sending, [m.queue[0]], 1);
    case Sent(i) => AheadWithout(m.sending, i, 1);
    case SendFails(i) => FailureUsesUp(m, i);
    case TimerFires(i) =>
      AheadWithout(m.waiting, i, 4);
      AheadJoin(m.queue, [m.waiting[i]], 2);
      AheadJoin(m.blocked, [m.waiting[i]], 3);
    case Unblocks(i) =>
      AheadWithout(m.blocked, i, 3);
      AheadJoin(m.queue, [m.blocked[i]], 2);
  }

  predicate Idle(m: Mailer) {
    m.queue == [] && m.sending == [] && m.waiting == [] && m.blocked == []
  }

  /** While a job is under way something other than a submission can happen. */
  lemma NeverStuck(m: Mailer) returns (a: Act)
    requires !Idle(m) && m.capacity >= 1 && m.workers >= 1
    ensures !a.Submit? && Enabled(m, a)
  {
    a := if m.sending != [] then Sent(0) else if m.queue != [] then Take
         else if m.waiting != [] then TimerFires(0) else Unblocks(0);
  }

  /** Each act is possible when its turn comes, and none is a submission. */
  ghost predicate Works(m: Mailer, acts: seq<Act>)
    decreases |acts|
  {
    acts != [] ==> Enabled(m, acts[0]) && !acts[0].Submit? && Works(Step(m, acts[0]), acts[1..])
  }

  lemma {:induction false} WorkIsBounded(m: Mailer, acts: seq<Act>)
    requires Inv(m) && Works(m, acts)
    ensures |acts| + Remaining(Run(m, acts)) <= Remaining(m)
    decreases |acts|
  {
    if acts != [] {
      StepsUseUp(m, acts[0]);
      StepInv(m, acts[0]);
      WorkIsBounded(Step(m, acts[0]), acts[1..]);
    }
  }

  lemma {:induction false} Settings(m: Mailer, acts: seq<Act>)
    ensures Run(m, acts).capacity == m.capacity && Run(m, acts).workers == m.workers
    decreases |acts|
  {
    if acts != [] {
      Settings(Step(m, acts[0]), acts[1..]);
    }
  }

  /** From every reachable state, once submissions stop only so many steps are possible, and
      when none is left every accepted job has exactly one outcome: delivered or failed. */
  lemma EveryJobEnds(capacity: nat, workers: nat, before: seq<Act>, acts: seq<Act>, id: nat)
    requires capacity >= 1 && workers >= 1
    requires Works(Run(NewMailer(capacity, workers), before), acts)
    ensures var m := Run(NewMailer(capacity, workers), before);
            var end := Run(m, acts);
            && |acts| <= Remaining(m)
            && ((forall a :: Enabled(end, a) ==> a.Submit?) ==>
                  Times(end.delivered, id) + Times(end.failed, id) == if id in end.accepted then 1 else 0)
  {
    var m := Run(NewMailer(capacity, workers), before);
    var end := Run(m, acts);
    RunInv(NewMailer(capacity, workers), before);
    RunInv(m, acts);
    WorkIsBounded(m, acts);
    Settings(NewMailer(capacity, workers), before);
    Settings(m, acts);
    if !Idle(end) {
      var a := NeverStuck(end);
    } else {
      assert Places(end, id) == if id in end.accepted then 1 else 0;
    }
  }

  lemma FirstDelays()
    ensures Shl1(0) == 1 && Shl1(1) == 2 && Shl1(2) == 4 && Shl1(3) == 8
  {
  }

  /** The mailer with its channel and its jobs updated in place. */
  class ResilientMailer {
    const capacity: nat
    const workers: nat
    const baseDelay: nat
    var queue: seq<Job>
    var sending: seq<Job>
    var waiting: seq<Job>
    var blocked: seq<Job>
    var delivered: seq<Job>
    var failed: seq<Job>
    ghost var accepted: seq<nat>
    ghost var sends: seq<nat>

    ghost function State(): Mailer
      reads this
    {
      Mailer(capacity, workers, queue, sending, waiting, blocked, delivered, failed, accepted, sends)
    }

    constructor (capacity: nat, workers: nat, baseDelay: nat)
      ensures State() == NewMailer(capacity, workers) && Inv(State()) && this.baseDelay == baseDelay
    {
      this.capacity, this.workers, this.baseDelay := capacity, workers, baseDelay;
      queue, sending, waiting, blocked, delivered, failed := [], [], [], [], [], [];
      accepted, sends := [], [];
    }

    /** SendPasswordReset and SendSecurityAlert: never wait, refuse when the queue is full. A
        base delay of 0 means one second. */
    method Submit(id: nat) returns (ok: bool)
      requires Inv(State()) && id !in accepted
      modifies this
      ensures Inv(State()) && ok == (|old(queue)| < capacity)
      ensures State() == Step(old(State()), Act.Submit(id, if baseDelay == 0 then 1 else baseDelay))
      ensures queue == if ok then old(queue) + [Job(id, 0, if baseDelay == 0 then 1 else baseDelay, 0)] else old(queue)
      ensures accepted == if ok then old(accepted) + [id] else old(accepted)
      ensures unchanged(this`sending, this`waiting, this`blocked, this`delivered, this`failed, this`sends)
    {
      var delay := if baseDelay == 0 then 1 else baseDelay;
      StepInv(State(), Act.Submit(id, delay));
      if |queue| < capacity {
        queue := queue + [Job(id, 0, delay, 0)];
        accepted := accepted + [id];
        return true;
      }
      ok := false;
    }

    /** An idle worker takes the oldest job. */
    method WorkerTakes()
      requires Inv(State()) && queue != [] && |sending| < workers
      modifies this
      ensures Inv(State()) && State() == Step(old(State()), Take)
      ensures queue == old(queue)[1..] && sending == old(sending) + [old(queue)[0]]
      ensures unchanged(this`waiting, this`blocked, this`delivered, this`failed, this`accepted, this`sends)
    {
      StepInv(State(), Take);
      var job := queue[0];
      queue := queue[1..];
      sending := sending + [job];
    }

    /** processJob for the i-th job being sent, once the underlying mailer has answered. */
    method ProcessJob(i: nat, succeeded: bool)
      requires Inv(State()) && i < |sending|
      modifies this
      ensures Inv(State()) && State() == Step(old(State()), if succeeded then Sent(i) else SendFails(i))
      ensures var j := old(sending)[i];
              var tries := j.attempt + 1;
              && tries <= 5
              && sending == old(sending)[..i] + old(sending)[i + 1..] && sends == old(sends) + [j.id]
              && delivered == (if succeeded then old(delivered) + [j] else old(delivered))
              && failed == (if !succeeded && tries == 5 then old(failed) + [j.(attempt := 5)] else old(failed))
              && waiting == if succeeded || tries == 5 then old(waiting)
                            else old(waiting) + [Job(j.id, tries, j.baseDelay, j.waited + j.baseDelay * (if tries == 1 then 1 else if tries == 2 then 2
                                                                                                     else if tries == 3 then 4 else 8))]
      ensures unchanged(this`queue, this`blocked, this`accepted)
    {
      StepInv(State(), if succeeded then Sent(i) else SendFails(i));
      var job := sending[i];
      assert job in sending && PendingOk(sends, job);
      FirstDelays();
      sending := sending[..i] + sending[i + 1..];
      sends := sends + [job.id];
      if succeeded {
        delivered := delivered + [job];
        return;
      }
      job := job.(attempt := job.attempt + 1);
      if job.attempt >= MAX_RETRIES {
        failed := failed + [job];
        return;
      }
      var delay := Shift(job.baseDelay, job.attempt - 1);
      waiting := waiting + [job.(waited := job.waited + delay)];
    }

    /** base * (1 << n). */
    method Shift(base: nat, n: nat) returns (r: nat)
      ensures r == base * Shl1(n)
    {
      var p := 1;
      for k := 0 to n
        invariant p == Shl1(k)
      {
        p := 2 * p;
      }
      r := base * p;
    }

    /** A retry timer fires: back into the queue, or into a goroutine that waits for room. */
    method TimerFired(i: nat)
      requires Inv(State()) && i < |waiting|
      modifies this
      ensures Inv(State()) && State() == Step(old(State()), TimerFires(i))
      ensures waiting == old(waiting)[..i] + old(waiting)[i + 1..]
      ensures if |old(queue)| < capacity then queue == old(queue) + [old(waiting)[i]] && blocked == old(blocked)
              else queue == old(queue) && blocked == old(blocked) + [old(waiting)[i]]
      ensures unchanged(this`sending, this`delivered, this`failed, this`accepted, this`sends)
    {
      StepInv(State(), TimerFires(i));
      var job := waiting[i];
      waiting := waiting[..i] + waiting[i + 1..];
      if |queue| < capacity {
        queue := queue + [job];
      } else {
        blocked := blocked + [job];
      }
    }

    method Unblocked(i: nat)
      requires Inv(State()) && i < |blocked| && |queue| < capacity
      modifies this
      ensures Inv(State()) && State() == Step(old(State()), Unblocks(i))
      ensures blocked == old(blocked)[..i] + old(blocked)[i + 1..] && queue == old(queue) + [old(blocked)[i]]
      ensures unchanged(this`sending, this`waiting, this`delivered, this`failed, this`accepted, this`sends)
    {
      StepInv(State(), Unblocks(i));
      queue := queue + [blocked[i]];
      blocked := blocked[..i] + blocked[i + 1..];
    }
  }
}
