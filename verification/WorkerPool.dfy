/** The worker pool (pkg/workqueue/workqueue.go): hashed and round-robin dispatch over bounded queues.
    A send to a full queue blocks; a round-robin call has already drawn its worker by then. */
module WorkerPool {
  import opened Options
  import opened RoundRobin

  const MAX_JOBS_PER_WORKER: nat := 4096
  const UINT64: nat := 0x1_0000_0000_0000_0000

  datatype Job = Job(name: string, hash: nat)

  /** A job on its way through one worker; `hashed` tells AddJob from AddJobRoundRobin. */
  datatype Entry = Entry(worker: nat, job: Job, hashed: bool)

  datatype Worker = Worker(queue: seq<Entry>, running: Option<Entry>, done: seq<Entry>, jobsProcessed: nat,
                           stopped: bool)

  /** `waiting` holds the round-robin calls that are blocked.  `log` (all sends) and `draws` (the workers
      drawn by round-robin calls) are history, in order. */
  datatype Pool = Pool(workers: seq<Worker>, counter: nat, waiting: multiset<Entry>, log: seq<Entry>, draws: seq<nat>)

  datatype Step =
    | AddHashed(job: Job)
    | Draw(job: Job)
    | Unblock(entry: Entry)
    | Start(w: nat)
    | Finish(w: nat)
    | Halt(w: nat)

  predicate HasRoom(p: Pool, w: nat) {
    w < |p.workers| && |p.workers[w].queue| < MAX_JOBS_PER_WORKER
  }

  function Sent(p: Pool, e: Entry): Pool
    requires e.worker < |p.workers|
  {
    var w := p.workers[e.worker];
    p.(workers := p.workers[e.worker := w.(queue := w.queue + [e])], log := p.log + [e])
  }

  /** The worker a round-robin call draws: the counter wraps at 64 bits before the division. */
  function Next(counter: nat): nat {
    (counter + 1) % UINT64
  }

  function Drawn(p: Pool, job: Job): Pool
    requires p.workers != []
  {
    var w := Next(p.counter) % |p.workers|;
    p.(counter := Next(p.counter), waiting := p.waiting + multiset{Entry(w, job, false)}, draws := p.draws + [w])
  }

  function HashedEntry(p: Pool, job: Job): Entry
    requires p.workers != []
  {
    Entry(job.hash % |p.workers|, job, true)
  }

  ghost predicate Takes(p: Pool, step: Step, p': Pool) {
    match step
    case AddHashed(job) => p.workers != [] && HasRoom(p, HashedEntry(p, job).worker)
      && p' == Sent(p, HashedEntry(p, job))
    case Draw(job) => p.workers != [] && p' == Drawn(p, job)
    case Unblock(e) => e in p.waiting && HasRoom(p, e.worker) && p' == Sent(p, e).(waiting := p.waiting - multiset{e})
    case Start(w) =>
      && w < |p.workers| && !p.workers[w].stopped && p.workers[w].running == None && p.workers[w].queue != []
      && p' == p.(workers := p.workers[w := p.workers[w].(running := Some(p.workers[w].queue[0]),
        queue := p.workers[w].queue[1..])])
    case Finish(w) =>
      && w < |p.workers| && p.workers[w].running.Some?
      && p' == p.(workers := p.workers[w := p.workers[w].(running := None,
        done := p.workers[w].done + [p.workers[w].running.value],
                                                          jobsProcessed := (p.workers[w].jobsProcessed + 1) % UINT64)])
    case Halt(w) =>
      && w < |p.workers| && p.workers[w].running == None
      && p' == p.(workers := p.workers[w := p.workers[w].(stopped := true)])
  }

  // ----------------------------------------------------------- imperative form

  datatype Result = Done | Blocked | DivisionByZero

  class WorkerPool {
    var workers: seq<Worker>
    var rRobinCounter: nat
    var waiting: multiset<Entry>
    ghost var log: seq<Entry>
    ghost var draws: seq<nat>

    ghost function Abs(): Pool
      reads this
    {
      Pool(workers, rRobinCounter, waiting, log, draws)
    }

    /** NewWorkerPool: zero asks for one worker per processor; a negative number gives none. */
    constructor (nWorkers: int, maxProcs: nat)
      ensures Abs() == Fresh(if nWorkers == 0 then maxProcs else if nWorkers < 0 then 0 else nWorkers)
      ensures |workers| == if nWorkers == 0 then maxProcs else if nWorkers < 0 then 0 else nWorkers
      ensures forall k :: k in workers ==> k.queue == [] && k.running == None && k.jobsProcessed == 0 && !k.stopped
      ensures rRobinCounter == 0 && waiting == multiset{}
    {
      var n := if nWorkers == 0 then maxProcs else nWorkers;
      var made: seq<Worker> := [];
      var i := 0;
      while i < n
        invariant i == |made| && (n >= 0 ==> i <= n) && (n < 0 ==> i == 0)
        invariant made == seq(i, _ => Idle())
      {
        made := made + [Idle()];
        i := i + 1;
      }
      workers, rRobinCounter, waiting, log, draws := made, 0, multiset{}, [], [];
    }

    method AddJob(job: Job) returns (r: Result)
      modifies this
      ensures r.DivisionByZero? <==> old(workers) == []
      ensures r.Done? ==> Takes(old(Abs()), AddHashed(job), Abs())
      ensures r.Blocked? ==> Abs() == old(Abs()) && !HasRoom(Abs(), HashedEntry(Abs(), job).worker)
      ensures r.DivisionByZero? ==> Abs() == old(Abs())
    {
      if |workers| == 0 {
        return DivisionByZero;
      }
      var w := job.hash % |workers|;
      if |workers[w].queue| >= MAX_JOBS_PER_WORKER {
        return Blocked;
      }
      var e := Entry(w, job, true);
      workers, log := workers[w := workers[w].(queue := workers[w].queue + [e])], log + [e];
      return Done;
    }

    /** The counter moves whether or not the queue has room; a blocked call waits with its worker drawn. */
    method AddJobRoundRobin(job: Job) returns (r: Result, ghost mid: Pool)
      modifies this
      ensures r.DivisionByZero? <==> old(workers) == []
      ensures !r.DivisionByZero? ==> Takes(old(Abs()), Draw(job), mid)
      ensures r.Blocked? ==> Abs() == mid && !HasRoom(mid, mid.counter % |mid.workers|)
      ensures r.Done? ==> Takes(mid, Unblock(Entry(mid.counter % |mid.workers|, job, false)), Abs())
      ensures r.DivisionByZero? ==> workers == [] && rRobinCounter == Next(old(rRobinCounter))
    {
      rRobinCounter := Next(rRobinCounter);
      mid := Abs();
      if |workers| == 0 {
        return DivisionByZero, mid;
      }
      var e := Entry(rRobinCounter % |workers|, job, false);
      waiting, draws := waiting + multiset{e}, draws + [e.worker];
      mid := Abs();
      if |workers[e.worker].queue| >= MAX_JOBS_PER_WORKER {
        return Blocked, mid;
      }
      waiting := waiting - multiset{e};
      workers, log := workers[e.worker := workers[e.worker].(queue := workers[e.worker].queue + [e])], log + [e];
      return Done, mid;
    }

    /** One turn of a worker's loop, up to the start of the job. */
    method StartJob(w: nat)
      requires w < |workers| && !workers[w].stopped && workers[w].running == None && workers[w].queue != []
      modifies this
      ensures Takes(old(Abs()), Start(w), Abs())
    {
      var k := workers[w];
      workers := workers[w := k.(running := Some(k.queue[0]), queue := k.queue[1..])];
    }

    method FinishJob(w: nat)
      requires w < |workers| && workers[w].running.Some?
      modifies this
      ensures Takes(old(Abs()), Finish(w), Abs())
    {
      var k := workers[w];
      workers := workers[w := k.(running := None, done := k.done + [k.running.value],
        jobsProcessed := (k.jobsProcessed + 1) % UINT64)];
    }
  }

  function Idle(): Worker {
    Worker([], None, [], 0, false)
  }

  function Fresh(n: nat): Pool {
    Pool(seq(n, _ => Idle()), 0, multiset{}, [], [])
  }

  // ------------------------------------------------------------------- invariants

  function Filter(s: seq<Entry>, keep: Entry -> bool): seq<Entry> {
    if s == [] then [] else Filter(s[..|s| - 1], keep) + if keep(s[|s| - 1]) then [s[|s| - 1]] else []
  }

  function Begun(k: Worker): seq<Entry> {
    k.done + match k.running case None => [] case Some(e) => [e]
  }

  function ForWorker(w: nat): Entry -> bool { (e: Entry) => e.worker == w }

  function Below(n: nat): Entry -> bool { (e: Entry) => e.worker < n }

  /** Sent by AddJob with that hash. */
  function HashedAs(hash: nat): Entry -> bool { (e: Entry) => e.hashed && e.job.hash == hash }

  /** What went through worker `w`, in order, is what was sent to it, in order. */
  ghost predicate InOrder(p: Pool, w: nat)
    requires w < |p.workers|
  {
    Begun(p.workers[w]) + p.workers[w].queue == Filter(p.log, ForWorker(w))
  }

  ghost predicate Inv(p: Pool) {
    && (forall w :: 0 <= w < |p.workers| ==> InOrder(p, w) && |p.workers[w].queue| <= MAX_JOBS_PER_WORKER)
    && (forall w :: 0 <= w < |p.workers| ==> p.workers[w].jobsProcessed == |p.workers[w].done| % UINT64)
    && (forall e :: e in p.log ==> e.worker < |p.workers|)
    && (forall e :: e in p.log && e.hashed ==> e.worker == e.job.hash % |p.workers|)
    && (forall e :: e in p.waiting ==> e.worker < |p.workers| && !e.hashed)
  }

  lemma FilterAppend(s: seq<Entry>, e: Entry, keep: Entry -> bool)
    ensures Filter(s + [e], keep) == Filter(s, keep) + if keep(e) then [e] else []
  {
    assert (s + [e])[..|s|] == s;
  }

  lemma SentInv(p: Pool, e: Entry, p': Pool)
    requires Inv(p) && HasRoom(p, e.worker) && (e.hashed ==> e.worker == e.job.hash % |p.workers|)
    requires p' == Sent(p, e).(waiting := p'.waiting) && p'.waiting <= p.waiting
    ensures Inv(p')
  {
    forall w | 0 <= w < |p'.workers| ensures InOrder(p', w) {
      assert InOrder(p, w);
      FilterAppend(p.log, e, ForWorker(w));
      if w == e.worker {
        assert Begun(p.workers[w]) + (p.workers[w].queue + [e]) == (Begun(p.workers[w]) + p.workers[w].queue) + [e];
      }
    }
  }

  lemma StepInv(p: Pool, step: Step, p': Pool)
    requires Inv(p) && Takes(p, step, p')
    ensures Inv(p') && |p'.workers| == |p.workers|
  {
    match step
    case AddHashed(job) => SentInv(p, HashedEntry(p, job), p');
    case Unblock(e) => SentInv(p, e, p');
    case Draw(job) => forall w | 0 <= w < |p'.workers| ensures InOrder(p', w) { assert InOrder(p, w); }
    case Start(w) => StartInv(p, w, p');
    case Finish(w) => FinishInv(p, w, p');
    case Halt(w) => ReplacedInv(p, w, p'.workers[w], p');
  }

  /** A worker's own turns move entries along without adding, losing or reordering any. */
  lemma ReplacedInv(p: Pool, w: nat, k: Worker, p': Pool)
    requires Inv(p) && w < |p.workers| && p' == p.(workers := p.workers[w := k])
    requires Begun(k) + k.queue == Begun(p.workers[w]) + p.workers[w].queue
    requires |k.queue| <= |p.workers[w].queue| && k.jobsProcessed == |k.done| % UINT64
    ensures Inv(p')
  {
    forall v | 0 <= v < |p'.workers| ensures InOrder(p', v) {
      assert InOrder(p, v);
    }
  }

  lemma StartInv(p: Pool, w: nat, p': Pool)
    requires Inv(p) && Takes(p, Start(w), p')
    ensures Inv(p')
  {
    var was, now := p.workers[w], p'.workers[w];
    assert was.queue == [was.queue[0]] + was.queue[1..];
    assert Begun(now) == was.done + [was.queue[0]] && Begun(was) == was.done;
    assert Begun(now) + now.queue == Begun(was) + was.queue;
    ReplacedInv(p, w, now, p');
  }

  lemma FinishInv(p: Pool, w: nat, p': Pool)
    requires Inv(p) && Takes(p, Finish(w), p')
    ensures Inv(p')
  {
    assert Begun(p'.workers[w]) == Begun(p.workers[w]);
    NextCounts(|p.workers[w].done|);
    ReplacedInv(p, w, p'.workers[w], p');
  }

  ghost predicate IsRun(n: nat, states: seq<Pool>, steps: seq<Step>) {
    && |states| == |steps| + 1 && states[0] == Fresh(n)
    && forall i :: 0 <= i < |steps| ==> Takes(states[i], steps[i], states[i + 1])
  }

  lemma {:induction false} InvAt(n: nat, states: seq<Pool>, steps: seq<Step>, i: nat)
    requires IsRun(n, states, steps) && i < |states|
    ensures Inv(states[i]) && |states[i].workers| == n
  {
    if i > 0 {
      InvAt(n, states, steps, i - 1);
      StepInv(states[i - 1], steps[i - 1], states[i]);
    }
  }

  // --------------------------------------------------------- order and conservation

  ghost predicate IsPrefix<T>(a: seq<T>, b: seq<T>) { |a| <= |b| && a == b[..|a|] }

  lemma {:induction false} FilterSplit(a: seq<Entry>, b: seq<Entry>, keep: Entry -> bool)
    ensures Filter(a + b, keep) == Filter(a, keep) + Filter(b, keep)
  {
    if b == [] {
      assert a + b == a;
    } else {
      var front, u := b[..|b| - 1], a + b;
      FilterSplit(a, front, keep);
      assert u[..|u| - 1] == a + front;
    }
  }

  lemma {:induction false} FilterTwice(s: seq<Entry>, outer: Entry -> bool, inner: Entry -> bool)
    requires forall e :: e in s && inner(e) ==> outer(e)
    ensures Filter(Filter(s, outer), inner) == Filter(s, inner)
  {
    if s != [] {
      var front, last := s[..|s| - 1], s[|s| - 1];
      FilterTwice(front, outer, inner);
      assert last in s;
      if outer(last) {
        FilterAppend(Filter(front, outer), last, inner);
      } else {
        assert Filter(s, outer) == Filter(front, outer);
      }
    }
  }

  /** Jobs added by hash begin in the order in which they were sent, for every hash: those that have begun
      are the first of those that were sent. */
  lemma EqualHashInOrder(n: nat, states: seq<Pool>, steps: seq<Step>, i: nat, hash: nat)
    requires IsRun(n, states, steps) && i < |states| && n > 0
    ensures |states[i].workers| == n
    ensures IsPrefix(Filter(Begun(states[i].workers[hash % n]), HashedAs(hash)), Filter(states[i].log, HashedAs(hash)))
  {
    InvAt(n, states, steps, i);
    var p := states[i];
    var w, mine := hash % n, HashedAs(hash);
    assert InOrder(p, w);
    FilterTwice(p.log, ForWorker(w), mine);
    FilterSplit(Begun(p.workers[w]), p.workers[w].queue, mine);
  }

  function Total(ks: seq<Worker>): nat {
    if ks == [] then 0 else Total(ks[..|ks| - 1]) + |ks[|ks| - 1].queue| + |Begun(ks[|ks| - 1])|
  }

  lemma {:induction false} FilterLengths(s: seq<Entry>, n: nat)
    ensures |Filter(s, Below(n + 1))| == |Filter(s, Below(n))| + |Filter(s, ForWorker(n))|
    ensures (forall e :: e in s ==> e.worker < n) ==> |Filter(s, Below(n))| == |s|
    ensures |Filter(s, Below(0))| == 0
  {
    if s != [] {
      FilterLengths(s[..|s| - 1], n);
      assert s[|s| - 1] in s;
    }
  }

  lemma {:induction false} TotalOf(p: Pool, n: nat)
    requires n <= |p.workers| && forall w :: 0 <= w < n ==> InOrder(p, w)
    ensures Total(p.workers[..n]) == |Filter(p.log, Below(n))|
  {
    if n == 0 {
      FilterLengths(p.log, 0);
    } else {
      TotalOf(p, n - 1);
      FilterLengths(p.log, n - 1);
      assert p.workers[..n][..n - 1] == p.workers[..n - 1];
      assert InOrder(p, n - 1);
    }
  }

  /** Jobs queued, running and counted as processed. */
  function Load(ks: seq<Worker>): nat {
    if ks == [] then 0 else
    var k := ks[|ks| - 1];
    Load(ks[..|ks| - 1]) + |k.queue| + (if k.running.Some? then 1 else 0) + k.jobsProcessed
  }

  lemma {:induction false} LoadIsTotal(ks: seq<Worker>)
    requires Total(ks) < UINT64
    requires forall w :: 0 <= w < |ks| ==> ks[w].jobsProcessed == |ks[w].done| % UINT64
    ensures Load(ks) == Total(ks)
  {
    if ks != [] {
      LoadIsTotal(ks[..|ks| - 1]);
      assert |ks[|ks| - 1].done| < UINT64;
    }
  }

  /** In every run, jobs sent = queued + running + processed, and no queue holds more than 4096.  The
      processed ones are what the workers count, which starts over at 2^64. */
  lemma JobsConserved(n: nat, states: seq<Pool>, steps: seq<Step>, i: nat)
    requires IsRun(n, states, steps) && i < |states|
    ensures |states[i].log| == Total(states[i].workers)
    ensures |states[i].log| < UINT64 ==> |states[i].log| == Load(states[i].workers)
    ensures forall w :: 0 <= w < |states[i].workers| ==>
      && |states[i].workers[w].queue| <= MAX_JOBS_PER_WORKER
      && states[i].workers[w].jobsProcessed == |states[i].workers[w].done| % UINT64
  {
    InvAt(n, states, steps, i);
    var p := states[i];
    TotalOf(p, |p.workers|);
    FilterLengths(p.log, |p.workers|);
    assert p.workers[..|p.workers|] == p.workers;
    if |p.log| < UINT64 { LoadIsTotal(p.workers); }
  }

  // ---------------------------------------------------------------------- fairness

  ghost predicate DrawsCounted(p: Pool, n: nat) {
    && n > 0 && |p.workers| == n
    && p.counter == |p.draws| % UINT64
    && forall w: nat :: multiset(p.draws)[w] == Share(|p.draws|, n, w, UINT64)
  }

  lemma NextCounts(k: nat)
    ensures Next(k % UINT64) == (k + 1) % UINT64
  {
  }

  lemma DrawsStep(p: Pool, step: Step, p': Pool, n: nat)
    requires DrawsCounted(p, n) && Takes(p, step, p')
    ensures DrawsCounted(p', n)
  {
    if step.Draw? {
      NextCounts(|p.draws|);
      forall w: nat ensures multiset(p'.draws)[w] == Share(|p'.draws|, n, w, UINT64) {
        ShareStep(|p.draws|, n, w, UINT64);
      }
    }
  }

  lemma {:induction false} DrawsCountedAt(n: nat, states: seq<Pool>, steps: seq<Step>, i: nat)
    requires IsRun(n, states, steps) && i < |states| && n > 0
    ensures DrawsCounted(states[i], n)
  {
    if i > 0 {
      DrawsCountedAt(n, states, steps, i - 1);
      DrawsStep(states[i - 1], steps[i - 1], states[i], n);
    }
  }

  /** Sent by AddJobRoundRobin. */
  function RoundRobinJobs(): Entry -> bool { (e: Entry) => !e.hashed }

  function RoundRobinTo(w: nat): Entry -> bool { (e: Entry) => !e.hashed && e.worker == w }

  /** The round-robin jobs that worker `w` was sent: queued, running or done. */
  function Received(p: Pool, w: nat): nat
    requires w < |p.workers|
  {
    |Filter(Begun(p.workers[w]) + p.workers[w].queue, RoundRobinJobs())|
  }

  /** The blocked calls that wait for worker `w`. */
  ghost function Held(waiting: multiset<Entry>, w: nat): nat
    decreases |waiting|
  {
    if waiting == multiset{} then 0 else
    var e :| e in waiting;
    Held(waiting - multiset{e}, w) + if e.worker == w then 1 else 0
  }

  lemma {:induction false} HeldRemove(waiting: multiset<Entry>, w: nat, e: Entry)
    requires e in waiting
    ensures Held(waiting, w) == Held(waiting - multiset{e}, w) + if e.worker == w then 1 else 0
    decreases |waiting|
  {
    var d :| d in waiting && Held(waiting, w) == Held(waiting - multiset{d}, w) + if d.worker == w then 1 else 0;
    if d != e {
      HeldRemove(waiting - multiset{d}, w, e);
      HeldRemove(waiting - multiset{e}, w, d);
      assert waiting - multiset{d} - multiset{e} == waiting - multiset{e} - multiset{d};
    }
  }

  lemma HeldAdd(waiting: multiset<Entry>, w: nat, e: Entry)
    ensures Held(waiting + multiset{e}, w) == Held(waiting, w) + if e.worker == w then 1 else 0
  {
    HeldRemove(waiting + multiset{e}, w, e);
    assert waiting + multiset{e} - multiset{e} == waiting;
  }

  /** Every draw of worker `w` was either sent or is still waiting. */
  ghost predicate DrawsAccounted(p: Pool, w: nat) {
    multiset(p.draws)[w] == |Filter(p.log, RoundRobinTo(w))| + Held(p.waiting, w)
  }

  lemma AccountedStep(p: Pool, step: Step, p': Pool, w: nat)
    requires Inv(p) && DrawsAccounted(p, w) && Takes(p, step, p')
    ensures DrawsAccounted(p', w)
  {
    match step
    case AddHashed(job) => FilterAppend(p.log, HashedEntry(p, job), RoundRobinTo(w));
    case Draw(job) => HeldAdd(p.waiting, w, Entry(Next(p.counter) % |p.workers|, job, false));
    case Unblock(e) =>
      FilterAppend(p.log, e, RoundRobinTo(w));
      HeldRemove(p.waiting, w, e);
    case Start(_) =>
    case Finish(_) =>
    case Halt(_) =>
  }

  lemma {:induction false} AccountedAt(n: nat, states: seq<Pool>, steps: seq<Step>, i: nat, w: nat)
    requires IsRun(n, states, steps) && i < |states|
    ensures DrawsAccounted(states[i], w)
  {
    if i > 0 {
      AccountedAt(n, states, steps, i - 1, w);
      InvAt(n, states, steps, i - 1);
      AccountedStep(states[i - 1], steps[i - 1], states[i], w);
    }
  }

  /** What a worker received is what the log says was sent to it. */
  lemma ReceivedIsSent(p: Pool, w: nat)
    requires Inv(p) && w < |p.workers|
    ensures Received(p, w) == |Filter(p.log, RoundRobinTo(w))|
  {
    assert InOrder(p, w);
    FilterBoth(p.log, ForWorker(w), RoundRobinJobs(), RoundRobinTo(w));
  }

  lemma {:induction false} FilterBoth(s: seq<Entry>, first: Entry -> bool, second: Entry -> bool, both: Entry -> bool)
    requires forall e :: both(e) <==> first(e) && second(e)
    ensures Filter(Filter(s, first), second) == Filter(s, both)
  {
    if s != [] {
      var front, last := s[..|s| - 1], s[|s| - 1];
      FilterBoth(front, first, second, both);
      if first(last) {
        FilterAppend(Filter(front, first), last, second);
      } else {
        assert Filter(s, first) == Filter(front, first);
      }
    }
  }

  /** The number of round-robin calls made. */
  function Calls(steps: seq<Step>): nat {
    if steps == [] then 0 else Calls(steps[..|steps| - 1]) + if steps[|steps| - 1].Draw? then 1 else 0
  }

  lemma {:induction false} CallsDraw(n: nat, states: seq<Pool>, steps: seq<Step>, i: nat)
    requires IsRun(n, states, steps) && i < |states|
    ensures |states[i].draws| == Calls(steps[..i])
  {
    if i > 0 {
      CallsDraw(n, states, steps, i - 1);
      assert steps[..i][..i - 1] == steps[..i - 1];
      assert Takes(states[i - 1], steps[i - 1], states[i]);
    }
  }

  /** In every run, until the counter wraps, each of the n workers received or is about to receive floor(k/n)
      or ceil(k/n) of the jobs of k round-robin calls; past the wrap too when n divides 2^64.  With no call
      blocked, they were all received. */
  lemma RoundRobinFair(n: nat, states: seq<Pool>, steps: seq<Step>, i: nat, w: nat)
    requires IsRun(n, states, steps) && i < |states| && w < n
    requires Calls(steps[..i]) < UINT64 || UINT64 % n == 0
    ensures |states[i].workers| == n
    ensures var p, k := states[i], Calls(steps[..i]);
      && k / n <= Received(p, w) + Held(p.waiting, w) <= (k + n - 1) / n
      && (p.waiting == multiset{} ==> k / n <= Received(p, w) <= (k + n - 1) / n)
  {
    InvAt(n, states, steps, i);
    CallsDraw(n, states, steps, i);
    DrawsCountedAt(n, states, steps, i);
    AccountedAt(n, states, steps, i, w);
    ReceivedIsSent(states[i], w);
    QuotasFair(|states[i].draws|, n, UINT64);
  }
}
