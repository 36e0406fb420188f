/** The parallel check queue of checkqueue.h as a state machine.

    A step is one critical section of the mutex, or the evaluation of one check outside it; any
    interleaving of steps is a run.  `cond.wait` ends a critical section, and the wake-up that
    ends the wait (after a notification or spuriously) begins the next.  Thread 0 is the master. */
module CheckQueue {
  import opened Basics

  const MASTER := 0

  /** Where a thread is in Loop.  `Waiting` records whether a notification is pending for it;
      `Working` holds vChecks, how many of them are done, and fOk. */
  datatype Thread<C> = Outside | Waiting(notified: bool) | Working(batch: seq<C>, done: nat, ok: bool)

  /** The fields of CCheckQueue and the threads.  `inRound` says that a CCheckQueueControl exists;
      `result` is what the last Wait returned.  `added`, `ran` and `skipped` are history: the
      checks given to the queue in the current or last round, those evaluated, and those
      passed over after a failure. */
  datatype State<C> = State(
    queue: seq<C>, nIdle: int, nTotal: int, fAllOk: bool, nTodo: int, fQuit: bool,
    threads: seq<Thread<C>>,
    inRound: bool, result: Option<bool>,
    added: multiset<C>, ran: multiset<C>, skipped: multiset<C>)

  predicate Init<C>(s: State<C>) {
    && |s.threads| > 0 && (forall t :: 0 <= t < |s.threads| ==> s.threads[t] == Outside)
    && s.queue == [] && s.nIdle == 0 && s.nTotal == 0 && s.fAllOk && s.nTodo == 0 && !s.fQuit
    && !s.inRound && s.result == None
    && s.added == multiset{} && s.ran == multiset{} && s.skipped == multiset{}
  }

  // ---------------------------------------------------------------- critical sections

  /** nNow: at least one, at most nBatchSize, aiming at smaller batches as the queue shrinks.
      In every reachable state the divisor is nTotal + nIdle + 1. */
  function BatchSize(queued: nat, nTotal: int, nIdle: int, nBatchSize: nat): (n: nat)
    ensures queued > 0 ==> 1 <= n <= queued
  {
    QuotientAtMost(queued, Max(1, nTotal + nIdle + 1));
    Max(1, Min(nBatchSize, queued / Max(1, nTotal + nIdle + 1)))
  }

  lemma {:induction false} QuotientAtMost(a: nat, d: int)
    requires d >= 1
    ensures 0 <= a / d <= a
  {
  }

  /** A batch is the thread's share of the queue if shared with all that are in Loop and the idle ones again,
      but at least one check and at most nBatchSize. */
  lemma {:induction false} BatchShare(queued: nat, nTotal: nat, nIdle: nat, nBatchSize: nat)
    requires queued > 0 && nBatchSize > 0
    ensures var n, sharers := BatchSize(queued, nTotal, nIdle, nBatchSize), nTotal + nIdle + 1;
      1 <= n <= nBatchSize && (n > 1 ==> n * sharers <= queued) && (n < nBatchSize ==> queued < (n + 1) * sharers)
  {
    var d := nTotal + nIdle + 1;
    var n := BatchSize(queued, nTotal, nIdle, nBatchSize);
    ShareIs(queued, d, queued / d, nBatchSize, n);
  }

  lemma {:induction false} ShareIs(queued: nat, d: nat, q: nat, most: nat, n: nat)
    requires d > 0 && q == queued / d && most > 0 && n == Max(1, Min(most, q))
    ensures (n > 1 ==> n * d <= queued) && (n < most ==> queued < (n + 1) * d)
  {
    Multiples(n, q, d);
    Multiples(q, n, d);
    assert q * d <= queued < q * d + d;
  }

  lemma {:induction false} Multiples(a: nat, b: nat, d: nat)
    ensures a <= b ==> a * d <= b * d
    ensures (a + 1) * d == a * d + d
  {
  }

  /** The rest of a critical section from `while (queue.empty())` on, for thread t, which takes
      the last `take` checks if there are any. */
  function TakeOrWait<C>(s: State<C>, t: nat, take: nat): State<C>
    requires t < |s.threads| && (s.queue != [] ==> 1 <= take <= |s.queue|)
  {
    if s.queue == [] then
      if (t == MASTER || s.fQuit) && s.nTodo == 0 then
        var left := s.(nTotal := s.nTotal - 1, threads := s.threads[t := Outside]);
        if t == MASTER then left.(result := Some(s.fAllOk), fAllOk := true, inRound := false) else left
      else
        s.(nIdle := s.nIdle + 1, threads := s.threads[t := Waiting(false)])
    else
      var k := |s.queue| - take;
      s.(queue := s.queue[..k], threads := s.threads[t := Working(Reversed(s.queue[k..]), 0, s.fAllOk)])
  }

  function Proceed<C>(s: State<C>, t: nat, nBatchSize: nat): State<C>
    requires t < |s.threads|
  {
    TakeOrWait(s, t, BatchSize(|s.queue|, s.nTotal, s.nIdle, nBatchSize))
  }

  /** A notification on condMaster: it reaches the master if he waits, and is lost otherwise. */
  function NotifyMaster<C>(threads: seq<Thread<C>>): (r: seq<Thread<C>>)
    requires |threads| > 0
    ensures |r| == |threads|
  {
    if threads[MASTER].Waiting? then threads[MASTER := Waiting(true)] else threads
  }

  /** Some waiting workers may have been notified; nothing else changed. */
  ghost predicate WorkersNotified<C>(a: seq<Thread<C>>, b: seq<Thread<C>>) {
    && |a| == |b| && |a| > 0 && a[MASTER] == b[MASTER]
    && forall t :: 0 <= t < |a| ==> b[t] == a[t] || (a[t].Waiting? && b[t] == Waiting(true))
  }

  // ---------------------------------------------------------------- steps

  datatype Step<C> =
    | NewRound
    | Add(checks: seq<C>, threads: seq<Thread<C>>)
    | Enter(t: nat)
    | Wake(t: nat)
    | Run(t: nat)
    | Finish(t: nat)
    | Quit(threads: seq<Thread<C>>)

  predicate CanRun<C>(s: State<C>, t: nat) {
    t < |s.threads| && s.threads[t].Working? && s.threads[t].done < |s.threads[t].batch|
  }

  predicate CanFinish<C>(s: State<C>, t: nat) {
    t < |s.threads| && s.threads[t].Working? && s.threads[t].done == |s.threads[t].batch|
  }

  /** When a step can happen. */
  ghost predicate Enabled<C>(s: State<C>, step: Step<C>) {
    match step
    case NewRound => !s.inRound && |s.threads| > 0 && s.threads[MASTER].Outside?
    case Add(checks, threads) =>
      s.inRound && |s.threads| > 0 && s.threads[MASTER].Outside? && WorkersNotified(s.threads, threads)
    case Enter(t) => t < |s.threads| && s.threads[t].Outside? && (t == MASTER ==> s.inRound)
    case Wake(t) => t < |s.threads| && s.threads[t].Waiting?
    case Run(t) => CanRun(s, t)
    case Finish(t) => CanFinish(s, t)
    case Quit(threads) => WorkersNotified(s.threads, threads)
  }

  /** Evaluate the next check of the batch, or pass over it after a failure. */
  function RunNext<C>(s: State<C>, t: nat, eval: C -> bool): State<C>
    requires CanRun(s, t)
  {
    var w := s.threads[t];
    var c := w.batch[w.done];
    if w.ok then
      s.(ran := s.ran + multiset{c}, threads := s.threads[t := w.(done := w.done + 1, ok := eval(c))])
    else
      s.(skipped := s.skipped + multiset{c}, threads := s.threads[t := w.(done := w.done + 1)])
  }

  /** The clean-up of a finished batch, before the thread looks for new work. */
  function Cleaned<C>(s: State<C>, t: nat): State<C>
    requires t < |s.threads| && s.threads[t].Working?
  {
    var w := s.threads[t];
    var c := s.(fAllOk := s.fAllOk && w.ok, nTodo := s.nTodo - |w.batch|);
    if c.nTodo == 0 && t != MASTER then c.(threads := NotifyMaster(s.threads)) else c
  }

  /** The state after a step; `eval` is operator() of a check. */
  ghost function Next<C>(s: State<C>, step: Step<C>, eval: C -> bool, nBatchSize: nat): State<C>
    requires Enabled(s, step)
  {
    match step
    case NewRound => s.(inRound := true, added := multiset{}, ran := multiset{}, skipped := multiset{})
    case Add(checks, threads) =>
      s.(queue := s.queue + checks, nTodo := s.nTodo + |checks|, threads := threads,
         added := s.added + multiset(checks))
    case Enter(t) => Proceed(s.(nTotal := s.nTotal + 1), t, nBatchSize)
    case Wake(t) => Proceed(s.(nIdle := s.nIdle - 1), t, nBatchSize)
    case Run(t) => RunNext(s, t, eval)
    case Finish(t) => Proceed(Cleaned(s, t), t, nBatchSize)
    case Quit(threads) => s.(fQuit := true, threads := threads)
  }

  /** CCheckQueue::IsIdle, which the next CCheckQueueControl asserts. */
  predicate IsIdle<C>(s: State<C>) {
    s.nTotal == s.nIdle && s.nTodo == 0 && s.fAllOk
  }

  // ---------------------------------------------------------------- sums over the threads

  function Sum<C>(ts: seq<Thread<C>>, w: Thread<C> -> nat): nat {
    if ts == [] then 0 else Sum(ts[..|ts| - 1], w) + w(ts[|ts| - 1])
  }

  ghost function Undone<C>(t: Thread<C>): multiset<C> {
    if t.Working? && t.done <= |t.batch| then multiset(t.batch[t.done..]) else multiset{}
  }

  /** How often check `c` is still to be done by a thread. */
  ghost function UndoneOf<C>(c: C): Thread<C> -> nat { (t: Thread<C>) => Undone(t)[c] }

  function Load<C>(t: Thread<C>): nat { if t.Working? then |t.batch| else 0 }
  function InLoop<C>(t: Thread<C>): nat { if t.Outside? then 0 else 1 }
  function Idle<C>(t: Thread<C>): nat { if t.Waiting? then 1 else 0 }
  function Busy<C>(t: Thread<C>): nat { if t.Working? then 1 else 0 }

  lemma {:induction false} SumUpdate<C>(ts: seq<Thread<C>>, w: Thread<C> -> nat, i: nat, x: Thread<C>)
    requires i < |ts|
    ensures Sum(ts[i := x], w) == Sum(ts, w) - w(ts[i]) + w(x)
  {
    var k := |ts| - 1;
    if i == k {
      assert ts[i := x][..k] == ts[..k];
    } else {
      SumUpdate(ts[..k], w, i, x);
      assert ts[i := x][..k] == ts[..k][i := x];
    }
  }

  lemma {:induction false} SumSame<C>(ts: seq<Thread<C>>, us: seq<Thread<C>>, w: Thread<C> -> nat)
    requires |ts| == |us| && forall i :: 0 <= i < |ts| ==> w(ts[i]) == w(us[i])
    ensures Sum(ts, w) == Sum(us, w)
  {
    if ts != [] {
      SumSame(ts[..|ts| - 1], us[..|us| - 1], w);
    }
  }

  lemma {:induction false} SumAtLeast<C>(ts: seq<Thread<C>>, w: Thread<C> -> nat, i: nat)
    requires i < |ts|
    ensures w(ts[i]) <= Sum(ts, w)
  {
    if i < |ts| - 1 {
      SumAtLeast(ts[..|ts| - 1], w, i);
    }
  }

  /** A positive sum has a positive summand. */
  lemma {:induction false} SumWitness<C>(ts: seq<Thread<C>>, w: Thread<C> -> nat) returns (i: nat)
    requires Sum(ts, w) > 0
    ensures i < |ts| && w(ts[i]) > 0
  {
    var k := |ts| - 1;
    if w(ts[k]) > 0 {
      return k;
    }
    i := SumWitness(ts[..k], w);
  }

  lemma {:induction false} SumZero<C>(ts: seq<Thread<C>>, w: Thread<C> -> nat)
    requires forall i :: 0 <= i < |ts| ==> w(ts[i]) == 0
    ensures Sum(ts, w) == 0
  {
    if ts != [] {
      SumZero(ts[..|ts| - 1], w);
    }
  }

  // ---------------------------------------------------------------- the invariant

  /** nTotal counts the threads in Loop, nIdle those that wait, nTodo the checks that are queued
      or in an unfinished batch. */
  ghost predicate Counts<C>(s: State<C>) {
    && s.nTotal == Sum(s.threads, InLoop) && s.nIdle == Sum(s.threads, Idle)
    && s.nTodo == |s.queue| + Sum(s.threads, Load)
  }

  /** Check `c` is queued, undone in a batch, evaluated or skipped exactly as often as added. */
  ghost predicate Balance<C>(s: State<C>, c: C) {
    s.added[c] == multiset(s.queue)[c] + Sum(s.threads, UndoneOf(c)) + s.ran[c] + s.skipped[c]
  }

  /** Some evaluated check failed. */
  ghost predicate Failed<C(!new)>(s: State<C>, eval: C -> bool) {
    exists c :: c in s.ran && !eval(c)
  }

  ghost predicate BatchOk<C(!new)>(s: State<C>, eval: C -> bool, t: nat)
    requires t < |s.threads|
  {
    s.threads[t].Working? ==>
      && 1 <= |s.threads[t].batch| && s.threads[t].done <= |s.threads[t].batch|
      && (!s.threads[t].ok ==> Failed(s, eval))
  }

  /** Failures are remembered, in fAllOk or in the fOk of a thread, and only failures are. */
  ghost predicate Verdicts<C(!new)>(s: State<C>, eval: C -> bool) {
    && (forall t :: 0 <= t < |s.threads| ==> BatchOk(s, eval, t))
    && (s.inRound && !s.fAllOk ==> Failed(s, eval))
    && (s.skipped != multiset{} ==> Failed(s, eval))
    && (s.inRound && Failed(s, eval) && s.fAllOk ==>
          exists t :: 0 <= t < |s.threads| && s.threads[t].Working? && !s.threads[t].ok)
  }

  /** Between rounds nothing is queued and no batch is held; the master waits only on work that
      others hold, and never without a notification when there is none. */
  ghost predicate Rounds<C(!new)>(s: State<C>, eval: C -> bool) {
    && |s.threads| > 0
    && (!s.inRound ==> s.threads[MASTER].Outside? && s.nTodo == 0 && s.fAllOk)
    && (!s.inRound && s.result.Some? ==> (s.result.value <==> forall c :: c in s.added ==> eval(c)))
    && (s.threads[MASTER].Waiting? ==> s.queue == [] && (s.threads[MASTER].notified <==> s.nTodo == 0))
  }

  ghost predicate Inv<C(!new)>(s: State<C>, eval: C -> bool) {
    Counts(s) && (forall c :: Balance(s, c)) && Verdicts(s, eval) && Rounds(s, eval)
  }

  // ---------------------------------------------------------------- when nothing is left to do

  ghost predicate NobodyWorks<C>(s: State<C>) {
    forall t :: 0 <= t < |s.threads| ==> !s.threads[t].Working?
  }

  /** nTodo == 0 means an empty queue and no batch anywhere. */
  lemma {:induction false} NothingTodo<C(!new)>(s: State<C>, eval: C -> bool)
    requires s.nTodo == |s.queue| + Sum(s.threads, Load) && s.nTodo == 0
    requires forall t :: 0 <= t < |s.threads| ==> BatchOk(s, eval, t)
    ensures s.queue == [] && NobodyWorks(s)
  {
    forall t | 0 <= t < |s.threads| ensures !s.threads[t].Working? {
      SumAtLeast(s.threads, Load, t);
      assert BatchOk(s, eval, t);
    }
  }

  lemma {:induction false} NobodyUndone<C>(s: State<C>, c: C)
    requires NobodyWorks(s)
    ensures Sum(s.threads, UndoneOf(c)) == 0
  {
    SumZero(s.threads, UndoneOf(c));
  }

  /** When all work is done, every added check was evaluated or skipped, and fAllOk is the verdict. */
  lemma {:induction false} VerdictIsRight<C(!new)>(s: State<C>, eval: C -> bool)
    requires NobodyWorks(s) && s.queue == [] && s.inRound
    requires (forall c :: Balance(s, c)) && Verdicts(s, eval)
    ensures s.added == s.ran + s.skipped
    ensures s.fAllOk <==> forall c :: c in s.added ==> eval(c)
  {
    forall c ensures s.added[c] == s.ran[c] + s.skipped[c] {
      assert Balance(s, c);
      NobodyUndone(s, c);
    }
    assert s.added == s.ran + s.skipped;
    if s.fAllOk {
      assert !Failed(s, eval);
      assert s.skipped == multiset{};
      forall c | c in s.added ensures eval(c) {
        assert c in s.ran;
      }
    } else {
      var c :| c in s.ran && !eval(c);
      assert c in s.added;
    }
  }

  // ---------------------------------------------------------------- inside a critical section

  /** The invariant inside a critical section of thread t, whose own place is not recorded yet. */
  ghost predicate Mid<C(!new)>(s: State<C>, eval: C -> bool, t: nat) {
    && t < |s.threads| && s.threads[t].Outside?
    && s.nTotal == Sum(s.threads, InLoop) + 1 && s.nIdle == Sum(s.threads, Idle)
    && s.nTodo == |s.queue| + Sum(s.threads, Load)
    && (forall c :: Balance(s, c))
    && Verdicts(s, eval) && Rounds(s, eval)
    && (t == MASTER ==> s.inRound)
  }

  lemma {:induction false} LeaveInv<C(!new)>(s: State<C>, eval: C -> bool, t: nat, n: nat)
    requires Mid(s, eval, t) && (s.queue != [] ==> 1 <= n <= |s.queue|) && s.queue == [] && (t == MASTER || s.fQuit) && s.nTodo == 0
    ensures Inv(TakeOrWait(s, t, n), eval)
  {
    var r := TakeOrWait(s, t, n);
    assert r.threads == s.threads;
    NothingTodo(s, eval);
    forall c ensures Balance(r, c) {
      assert Balance(s, c);
    }
    forall i | 0 <= i < |r.threads| ensures BatchOk(r, eval, i) { }
    assert Failed(r, eval) == Failed(s, eval);
    if t == MASTER {
      VerdictIsRight(s, eval);
    }
  }

  lemma {:induction false} SleepInv<C(!new)>(s: State<C>, eval: C -> bool, t: nat, n: nat)
    requires Mid(s, eval, t) && (s.queue != [] ==> 1 <= n <= |s.queue|) && s.queue == [] && !((t == MASTER || s.fQuit) && s.nTodo == 0)
    ensures Inv(TakeOrWait(s, t, n), eval)
  {
    var r := TakeOrWait(s, t, n);
    SumUpdate(s.threads, InLoop, t, Waiting(false));
    SumUpdate(s.threads, Idle, t, Waiting(false));
    SumUpdate(s.threads, Load, t, Waiting(false));
    forall c ensures Balance(r, c) {
      assert Balance(s, c);
      SumUpdate(s.threads, UndoneOf(c), t, Waiting(false));
    }
    OtherThreads(s, r, eval, t);
  }

  /** Changing thread t, with the same history, keeps the verdicts if t's own batch is in order
      and t recorded no failure before. */
  lemma {:induction false} OtherThreads<C(!new)>(s: State<C>, r: State<C>, eval: C -> bool, t: nat)
    requires t < |s.threads| && !s.threads[t].Working? && Verdicts(s, eval)
    requires |r.threads| == |s.threads| && r.threads == s.threads[t := r.threads[t]]
    requires r.ran == s.ran && r.skipped == s.skipped && r.fAllOk == s.fAllOk && r.inRound == s.inRound
    requires BatchOk(r, eval, t)
    ensures Verdicts(r, eval)
  {
    assert Failed(r, eval) == Failed(s, eval);
    forall i | 0 <= i < |r.threads| ensures BatchOk(r, eval, i) {
      if i != t {
        assert BatchOk(s, eval, i);
      }
    }
    if s.inRound && Failed(s, eval) && s.fAllOk {
      var i :| 0 <= i < |s.threads| && s.threads[i].Working? && !s.threads[i].ok;
      assert r.threads[i] == s.threads[i];
    }
  }

  lemma {:induction false} TakeInv<C(!new)>(s: State<C>, eval: C -> bool, t: nat, n: nat)
    requires Mid(s, eval, t) && (s.queue != [] ==> 1 <= n <= |s.queue|) && s.queue != []
    ensures Inv(TakeOrWait(s, t, n), eval)
  {
    var r := TakeOrWait(s, t, n);
    var k := |s.queue| - n;
    var w := r.threads[t];
    SumUpdate(s.threads, InLoop, t, w);
    SumUpdate(s.threads, Idle, t, w);
    SumUpdate(s.threads, Load, t, w);
    forall c ensures Balance(r, c) {
      assert Balance(s, c);
      TakeBalance(s, t, n, c);
    }
    assert s.inRound;
    OtherThreads(s, r, eval, t);
  }

  lemma {:induction false} TakeBalance<C>(s: State<C>, t: nat, n: nat, c: C)
    requires t < |s.threads| && s.threads[t].Outside? && 1 <= n <= |s.queue| && Balance(s, c)
    ensures Balance(TakeOrWait(s, t, n), c)
  {
    var k := |s.queue| - n;
    var w := TakeOrWait(s, t, n).threads[t];
    ReversedSame(s.queue[k..]);
    assert w.batch[0..] == w.batch;
    assert s.queue == s.queue[..k] + s.queue[k..];
    SumUpdate(s.threads, UndoneOf(c), t, w);
  }

  lemma {:induction false} TakeOrWaitInv<C(!new)>(s: State<C>, eval: C -> bool, t: nat, n: nat)
    requires Mid(s, eval, t) && (s.queue != [] ==> 1 <= n <= |s.queue|)
    ensures Inv(TakeOrWait(s, t, n), eval)
  {
    if s.queue != [] {
      TakeInv(s, eval, t, n);
    } else if (t == MASTER || s.fQuit) && s.nTodo == 0 {
      LeaveInv(s, eval, t, n);
    } else {
      SleepInv(s, eval, t, n);
    }
  }

  // ---------------------------------------------------------------- every step keeps the invariant

  lemma {:induction false} NewRoundInv<C(!new)>(s: State<C>, eval: C -> bool, n: nat)
    requires Inv(s, eval) && Enabled(s, NewRound)
    ensures Inv(Next(s, NewRound, eval, n), eval)
  {
    var r := Next(s, NewRound, eval, n);
    NothingTodo(s, eval);
    forall c ensures Balance(r, c) {
      NobodyUndone(r, c);
    }
    forall i | 0 <= i < |r.threads| ensures BatchOk(r, eval, i) { }
  }

  /** Notifying workers changes no count and no batch. */
  lemma {:induction false} NotifiedSame<C(!new)>(s: State<C>, r: State<C>, eval: C -> bool)
    requires WorkersNotified(s.threads, r.threads) && Verdicts(s, eval)
    requires r.ran == s.ran && r.skipped == s.skipped && r.fAllOk == s.fAllOk && r.inRound == s.inRound
    ensures Sum(r.threads, InLoop) == Sum(s.threads, InLoop) && Sum(r.threads, Idle) == Sum(s.threads, Idle)
    ensures Sum(r.threads, Load) == Sum(s.threads, Load)
    ensures forall c :: Sum(r.threads, UndoneOf(c)) == Sum(s.threads, UndoneOf(c))
    ensures Verdicts(r, eval)
  {
    SumSame(s.threads, r.threads, InLoop);
    SumSame(s.threads, r.threads, Idle);
    SumSame(s.threads, r.threads, Load);
    forall c ensures Sum(r.threads, UndoneOf(c)) == Sum(s.threads, UndoneOf(c)) {
      SumSame(s.threads, r.threads, UndoneOf(c));
    }
    assert Failed(r, eval) == Failed(s, eval);
    forall i | 0 <= i < |r.threads| ensures BatchOk(r, eval, i) {
      assert BatchOk(s, eval, i);
    }
    if s.inRound && Failed(s, eval) && s.fAllOk {
      var i :| 0 <= i < |s.threads| && s.threads[i].Working? && !s.threads[i].ok;
      assert r.threads[i] == s.threads[i];
    }
  }

  lemma {:induction false} AddInv<C(!new)>(s: State<C>, step: Step<C>, eval: C -> bool, n: nat)
    requires Inv(s, eval) && step.Add? && Enabled(s, step)
    ensures Inv(Next(s, step, eval, n), eval)
  {
    var r := Next(s, step, eval, n);
    NotifiedSame(s, r, eval);
    forall c ensures Balance(r, c) {
      assert Balance(s, c);
      assert multiset(r.queue) == multiset(s.queue) + multiset(step.checks);
    }
  }

  lemma {:induction false} QuitInv<C(!new)>(s: State<C>, step: Step<C>, eval: C -> bool, n: nat)
    requires Inv(s, eval) && step.Quit? && Enabled(s, step)
    ensures Inv(Next(s, step, eval, n), eval)
  {
    var r := Next(s, step, eval, n);
    NotifiedSame(s, r, eval);
    forall c ensures Balance(r, c) {
      assert Balance(s, c);
    }
  }

  lemma {:induction false} EnterInv<C(!new)>(s: State<C>, t: nat, eval: C -> bool, n: nat)
    requires Inv(s, eval) && Enabled(s, Enter(t))
    ensures Inv(Proceed(s.(nTotal := s.nTotal + 1), t, n), eval)
  {
    var m := s.(nTotal := s.nTotal + 1);
    forall c ensures Balance(m, c) {
      assert Balance(s, c);
    }
    forall i | 0 <= i < |m.threads| ensures BatchOk(m, eval, i) {
      assert BatchOk(s, eval, i);
    }
    assert Failed(m, eval) == Failed(s, eval);
    assert m.threads == m.threads[t := Outside];
    ProceedInv(m, eval, t, n);
  }

  /** TakeOrWait decides the thread's new place whatever the old one was. */
  lemma {:induction false} TakeOrWaitPlace<C>(s: State<C>, t: nat, take: nat)
    requires t < |s.threads| && (s.queue != [] ==> 1 <= take <= |s.queue|)
    ensures TakeOrWait(s, t, take) == TakeOrWait(s.(threads := s.threads[t := Outside]), t, take)
  {
    var m := s.(threads := s.threads[t := Outside]);
    var x := TakeOrWait(s, t, take).threads[t];
    assert m.threads[t := x] == s.threads[t := x];
  }

  /** A critical section that starts in order ends in order, whatever it does with its queue. */
  lemma {:induction false} ProceedInv<C(!new)>(s: State<C>, eval: C -> bool, t: nat, n: nat)
    requires t < |s.threads| && Mid(s.(threads := s.threads[t := Outside]), eval, t)
    ensures Inv(Proceed(s, t, n), eval)
  {
    var take := BatchSize(|s.queue|, s.nTotal, s.nIdle, n);
    TakeOrWaitPlace(s, t, take);
    TakeOrWaitInv(s.(threads := s.threads[t := Outside]), eval, t, take);
  }

  lemma {:induction false} WakeInv<C(!new)>(s: State<C>, t: nat, eval: C -> bool, n: nat)
    requires Inv(s, eval) && Enabled(s, Wake(t))
    ensures Inv(Proceed(s.(nIdle := s.nIdle - 1), t, n), eval)
  {
    WokenMid(s, t, eval);
    ProceedInv(s.(nIdle := s.nIdle - 1), eval, t, n);
  }

  /** The state after a wake-up, with the thread itself taken out. */
  ghost function Woken<C>(s: State<C>, t: nat): State<C>
    requires t < |s.threads|
  {
    s.(nIdle := s.nIdle - 1, threads := s.threads[t := Outside])
  }

  lemma {:induction false} WokenBalance<C>(s: State<C>, t: nat, c: C)
    requires t < |s.threads| && s.threads[t].Waiting? && Balance(s, c)
    ensures Balance(Woken(s, t), c)
  {
    SumUpdate(s.threads, UndoneOf(c), t, Outside);
  }

  lemma {:induction false} WokenMid<C(!new)>(s: State<C>, t: nat, eval: C -> bool)
    requires Inv(s, eval) && t < |s.threads| && s.threads[t].Waiting?
    ensures Mid(Woken(s, t), eval, t)
  {
    var m := Woken(s, t);
    SumUpdate(s.threads, InLoop, t, Outside);
    SumUpdate(s.threads, Idle, t, Outside);
    SumUpdate(s.threads, Load, t, Outside);
    forall c ensures Balance(m, c) {
      assert Balance(s, c);
      WokenBalance(s, t, c);
    }
    OtherThreads(s, m, eval, t);
  }

  /** The state after the clean-up, with the thread itself taken out. */
  ghost function Laid<C>(s: State<C>, t: nat): State<C>
    requires CanFinish(s, t)
  {
    Cleaned(s, t).(threads := Cleaned(s, t).threads[t := Outside])
  }

  lemma {:induction false} LaidSum<C>(s: State<C>, t: nat, w: Thread<C> -> nat)
    requires CanFinish(s, t) && w(Waiting(true)) == w(Waiting(false))
    ensures Sum(Laid(s, t).threads, w) == Sum(s.threads, w) - w(s.threads[t]) + w(Outside)
  {
    SumSame(s.threads, Cleaned(s, t).threads, w);
    SumUpdate(Cleaned(s, t).threads, w, t, Outside);
  }

  lemma {:induction false} LaidVerdicts<C(!new)>(s: State<C>, t: nat, eval: C -> bool)
    requires Verdicts(s, eval) && CanFinish(s, t)
    ensures Verdicts(Laid(s, t), eval)
  {
    var m := Laid(s, t);
    assert Failed(m, eval) == Failed(s, eval);
    assert BatchOk(s, eval, t);
    forall i | 0 <= i < |m.threads| ensures BatchOk(m, eval, i) {
      assert BatchOk(s, eval, i);
    }
    if s.inRound && Failed(s, eval) && m.fAllOk {
      var i :| 0 <= i < |s.threads| && s.threads[i].Working? && !s.threads[i].ok;
      assert i != t;
      assert m.threads[i] == s.threads[i];
    }
  }

  lemma {:induction false} LaidRounds<C(!new)>(s: State<C>, t: nat, eval: C -> bool)
    requires Inv(s, eval) && CanFinish(s, t)
    ensures s.inRound && Rounds(Laid(s, t), eval)
  {
    SumAtLeast(s.threads, Load, t);
    assert BatchOk(s, eval, t);
    LaidSum(s, t, Load);
    assert Laid(s, t).nTodo >= 0;
  }

  lemma {:induction false} FinishInv<C(!new)>(s: State<C>, t: nat, eval: C -> bool, n: nat)
    requires Inv(s, eval) && CanFinish(s, t)
    ensures Inv(Proceed(Cleaned(s, t), t, n), eval)
  {
    LaidMid(s, t, eval);
    ProceedInv(Cleaned(s, t), eval, t, n);
  }

  lemma {:induction false} LaidMid<C(!new)>(s: State<C>, t: nat, eval: C -> bool)
    requires Inv(s, eval) && CanFinish(s, t)
    ensures Mid(Laid(s, t), eval, t)
  {
    var m := Laid(s, t);
    LaidSum(s, t, InLoop);
    LaidSum(s, t, Idle);
    LaidSum(s, t, Load);
    forall c ensures Balance(m, c) {
      assert Balance(s, c);
      LaidBalance(s, t, c);
    }
    LaidVerdicts(s, t, eval);
    LaidRounds(s, t, eval);
  }

  lemma {:induction false} LaidBalance<C>(s: State<C>, t: nat, c: C)
    requires CanFinish(s, t) && Balance(s, c)
    ensures Balance(Laid(s, t), c)
  {
    NothingUndone(s.threads[t], c);
    assert Laid(s, t).queue == s.queue && Laid(s, t).added == s.added;
    LaidSum(s, t, UndoneOf(c));
  }

  lemma {:induction false} NothingUndone<C>(w: Thread<C>, c: C)
    requires w.Working? ==> w.done == |w.batch|
    ensures UndoneOf(c)(w) == 0
  {
  }

  lemma {:induction false} UndoneNext<C>(w: Thread<C>, ok: bool, c: C)
    requires w.Working? && w.done < |w.batch|
    ensures UndoneOf(c)(w) == UndoneOf(c)(w.(done := w.done + 1, ok := ok)) + multiset{w.batch[w.done]}[c]
  {
    assert w.batch[w.done..] == [w.batch[w.done]] + w.batch[w.done + 1..];
  }

  lemma {:induction false} RunHistory<C>(s: State<C>, t: nat, eval: C -> bool, c: C)
    requires CanRun(s, t)
    ensures var r, w := RunNext(s, t, eval), s.threads[t];
      r.ran[c] + r.skipped[c] == s.ran[c] + s.skipped[c] + multiset{w.batch[w.done]}[c]
  {
  }

  lemma {:induction false} RunUndone<C>(s: State<C>, t: nat, eval: C -> bool, c: C)
    requires CanRun(s, t)
    ensures var r, w := RunNext(s, t, eval), s.threads[t];
      Sum(r.threads, UndoneOf(c)) + multiset{w.batch[w.done]}[c] == Sum(s.threads, UndoneOf(c))
  {
    var w := s.threads[t];
    var x := w.(done := w.done + 1, ok := w.ok && eval(w.batch[w.done]));
    UndoneNext(w, x.ok, c);
    SumUpdate(s.threads, UndoneOf(c), t, x);
  }

  lemma {:induction false} RunBalance<C>(s: State<C>, t: nat, eval: C -> bool, c: C)
    requires CanRun(s, t) && Balance(s, c)
    ensures Balance(RunNext(s, t, eval), c)
  {
    RunHistory(s, t, eval, c);
    RunUndone(s, t, eval, c);
  }

  lemma {:induction false} RunVerdicts<C(!new)>(s: State<C>, t: nat, eval: C -> bool)
    requires Verdicts(s, eval) && CanRun(s, t)
    ensures Verdicts(RunNext(s, t, eval), eval)
  {
    var w := s.threads[t];
    var r := RunNext(s, t, eval);
    var c := w.batch[w.done];
    assert BatchOk(s, eval, t);
    assert w.ok ==> c in r.ran;
    if Failed(s, eval) {
      var x :| x in s.ran && !eval(x);
      assert x in r.ran;
    }
    forall i | 0 <= i < |r.threads| ensures BatchOk(r, eval, i) {
      assert BatchOk(s, eval, i);
    }
    if s.inRound && Failed(r, eval) && s.fAllOk {
      if r.threads[t].ok {
        assert Failed(s, eval);
        var i :| 0 <= i < |s.threads| && s.threads[i].Working? && !s.threads[i].ok;
        assert i != t;
        assert r.threads[i] == s.threads[i];
      }
    }
  }

  lemma {:induction false} RunCounts<C>(s: State<C>, t: nat, eval: C -> bool)
    requires CanRun(s, t) && Counts(s)
    ensures Counts(RunNext(s, t, eval))
  {
    var x := RunNext(s, t, eval).threads[t];
    SumUpdate(s.threads, InLoop, t, x);
    SumUpdate(s.threads, Idle, t, x);
    SumUpdate(s.threads, Load, t, x);
  }

  lemma {:induction false} RunInv<C(!new)>(s: State<C>, t: nat, eval: C -> bool)
    requires Inv(s, eval) && CanRun(s, t)
    ensures Inv(RunNext(s, t, eval), eval)
  {
    var r := RunNext(s, t, eval);
    RunCounts(s, t, eval);
    forall c ensures Balance(r, c) {
      RunBalance(s, t, eval, c);
    }
    RunVerdicts(s, t, eval);
    RunRounds(s, t, eval);
  }

  lemma {:induction false} RunRounds<C(!new)>(s: State<C>, t: nat, eval: C -> bool)
    requires Inv(s, eval) && CanRun(s, t)
    ensures Rounds(RunNext(s, t, eval), eval)
  {
    SumAtLeast(s.threads, Load, t);
  }

  lemma {:induction false} StepInv<C(!new)>(s: State<C>, step: Step<C>, eval: C -> bool, n: nat)
    requires Inv(s, eval) && Enabled(s, step)
    ensures Inv(Next(s, step, eval, n), eval)
  {
    match step
    case NewRound => NewRoundInv(s, eval, n);
    case Add(_, _) => AddInv(s, step, eval, n);
    case Enter(t) => EnterInv(s, t, eval, n);
    case Wake(t) => WakeInv(s, t, eval, n);
    case Run(t) => RunInv(s, t, eval);
    case Finish(t) => FinishInv(s, t, eval, n);
    case Quit(_) => QuitInv(s, step, eval, n);
  }

  // ---------------------------------------------------------------- whole runs

  /** The states s0, s1, ... of a run and the steps between them. */
  ghost predicate IsRun<C(!new)>(states: seq<State<C>>, steps: seq<Step<C>>, eval: C -> bool, n: nat) {
    && |states| == |steps| + 1 && Init(states[0])
    && forall i :: 0 <= i < |steps| ==> StepAt(states, steps, eval, n, i)
  }

  ghost predicate StepAt<C(!new)>(states: seq<State<C>>, steps: seq<Step<C>>, eval: C -> bool, n: nat, i: nat)
    requires |states| == |steps| + 1 && i < |steps|
  {
    Enabled(states[i], steps[i]) && states[i + 1] == Next(states[i], steps[i], eval, n)
  }

  lemma {:induction false} InitInv<C(!new)>(s: State<C>, eval: C -> bool)
    requires Init(s)
    ensures Inv(s, eval)
  {
    SumZero(s.threads, InLoop);
    SumZero(s.threads, Idle);
    SumZero(s.threads, Load);
    forall c ensures Balance(s, c) {
      SumZero(s.threads, UndoneOf(c));
    }
    forall i | 0 <= i < |s.threads| ensures BatchOk(s, eval, i) { }
  }

  lemma {:induction false} ReachableInv<C(!new)>(
    states: seq<State<C>>, steps: seq<Step<C>>, eval: C -> bool, n: nat, i: nat)
    requires IsRun(states, steps, eval, n) && i < |states|
    ensures Inv(states[i], eval)
  {
    if i == 0 {
      InitInv(states[0], eval);
    } else {
      ReachableInv(states, steps, eval, n, i - 1);
      assert StepAt(states, steps, eval, n, i - 1);
      StepInv(states[i - 1], steps[i - 1], eval, n);
    }
  }

  /** In every state of every run: nTodo counts the queued checks and those in unfinished batches;
      nTotal - nIdle counts the threads that hold a batch; and every added check is queued, undone
      in one batch, evaluated or skipped, exactly once each time it was added. */
  lemma {:induction false} Accounting<C(!new)>(states: seq<State<C>>, steps: seq<Step<C>>, eval: C -> bool, n: nat, i: nat)
    requires IsRun(states, steps, eval, n) && i < |states|
    ensures states[i].nTodo == |states[i].queue| + Sum(states[i].threads, Load)
    ensures states[i].nTotal - states[i].nIdle == Sum(states[i].threads, Busy)
    ensures forall c :: states[i].added[c] == multiset(states[i].queue)[c]
                          + Sum(states[i].threads, UndoneOf(c)) + states[i].ran[c] + states[i].skipped[c]
  {
    ReachableInv(states, steps, eval, n, i);
    BusyIsInLoopNotIdle(states[i].threads);
    forall c ensures states[i].added[c] == multiset(states[i].queue)[c]
        + Sum(states[i].threads, UndoneOf(c)) + states[i].ran[c] + states[i].skipped[c]
    {
      assert Balance(states[i], c);
    }
  }

  lemma {:induction false} BusyIsInLoopNotIdle<C>(ts: seq<Thread<C>>)
    ensures Sum(ts, InLoop) == Sum(ts, Idle) + Sum(ts, Busy)
  {
    if ts != [] {
      BusyIsInLoopNotIdle(ts[..|ts| - 1]);
    }
  }

  /** The step that ends a round: the master leaves Loop, that is, Wait returns. */
  ghost predicate WaitReturns<C>(s: State<C>, r: State<C>) {
    s.inRound && !r.inRound
  }

  /** Wait returns true exactly when every check added in the round evaluates to true; by then each
      was evaluated or skipped, nothing is left over, and checks are skipped only after a failure.
      The queue is idle, as the next CCheckQueueControl asserts. */
  lemma {:induction false} WaitResult<C(!new)>(states: seq<State<C>>, steps: seq<Step<C>>, eval: C -> bool, n: nat, i: nat)
    requires IsRun(states, steps, eval, n) && i < |steps| && WaitReturns(states[i], states[i + 1])
    ensures var r := states[i + 1];
      && r.result == Some(forall c :: c in states[i].added ==> eval(c))
      && r.added == states[i].added == r.ran + r.skipped
      && (r.skipped != multiset{} ==> r.result == Some(false))
      && IsIdle(r)
  {
    ReachableInv(states, steps, eval, n, i);
    ReachableInv(states, steps, eval, n, i + 1);
    assert StepAt(states, steps, eval, n, i);
    ReturnFacts(states[i], steps[i], eval, n);
    var r := states[i + 1];
    IdleBetweenRounds(r, eval);
    forall c ensures r.added[c] == r.ran[c] + r.skipped[c] {
      assert Balance(r, c);
      NobodyUndone(r, c);
    }
    assert r.added == r.ran + r.skipped;
    if r.skipped != multiset{} {
      var c :| c in r.ran && !eval(c);
      assert c in r.added;
    }
  }

  lemma {:induction false} ProceedReturns<C>(s: State<C>, t: nat, n: nat)
    requires t < |s.threads|
    ensures Proceed(s, t, n).added == s.added
    ensures WaitReturns(s, Proceed(s, t, n)) ==> Proceed(s, t, n).result.Some?
  {
  }

  lemma {:induction false} ReturnFacts<C(!new)>(s: State<C>, step: Step<C>, eval: C -> bool, n: nat)
    requires Enabled(s, step) && WaitReturns(s, Next(s, step, eval, n))
    ensures Next(s, step, eval, n).added == s.added && Next(s, step, eval, n).result.Some?
  {
    match step
    case Enter(t) => ProceedReturns(s.(nTotal := s.nTotal + 1), t, n);
    case Wake(t) => ProceedReturns(s.(nIdle := s.nIdle - 1), t, n);
    case Finish(t) => ProceedReturns(Cleaned(s, t), t, n);
    case _ =>
  }

  /** Outside a round the queue is idle: the assert of the CCheckQueueControl constructor holds
      for every interleaving of the workers. */
  lemma {:induction false} IdleBetweenRounds<C(!new)>(s: State<C>, eval: C -> bool)
    requires Inv(s, eval) && !s.inRound
    ensures IsIdle(s) && s.queue == [] && NobodyWorks(s)
  {
    NothingTodo(s, eval);
    BusyIsInLoopNotIdle(s.threads);
    SumZero(s.threads, Busy);
  }

  lemma {:induction false} ControlAssertHolds<C(!new)>(states: seq<State<C>>, steps: seq<Step<C>>, eval: C -> bool, n: nat, i: nat)
    requires IsRun(states, steps, eval, n) && i < |steps| && steps[i].NewRound?
    ensures IsIdle(states[i])
  {
    ReachableInv(states, steps, eval, n, i);
    assert StepAt(states, steps, eval, n, i);
    IdleBetweenRounds(states[i], eval);
  }

  // ---------------------------------------------------------------- progress

  /** A master blocked without a pending notification waits for a worker that holds a batch. */
  lemma {:induction false} BlockedMasterHasWorker<C(!new)>(
    states: seq<State<C>>, steps: seq<Step<C>>, eval: C -> bool, n: nat, i: nat) returns (w: nat)
    requires IsRun(states, steps, eval, n) && i < |states|
    requires |states[i].threads| > 0 && states[i].threads[MASTER] == Waiting(false)
    ensures w != MASTER && w < |states[i].threads| && states[i].threads[w].Working?
  {
    ReachableInv(states, steps, eval, n, i);
    w := SumWitness(states[i].threads, Load);
  }

  /** Work left: four units for a queued check, two for a check in a batch, one for the batch. */
  function Weight<C>(t: Thread<C>): nat {
    if t.Working? && t.done <= |t.batch| then 2 * (|t.batch| - t.done) + 1 else 0
  }

  ghost function WorkLeft<C>(s: State<C>): nat {
    4 * |s.queue| + Sum(s.threads, Weight)
  }

  lemma {:induction false} ProceedWork<C>(s: State<C>, t: nat, n: nat)
    requires t < |s.threads|
    ensures WorkLeft(Proceed(s, t, n)) <= WorkLeft(s) - Weight(s.threads[t])
  {
    TakeOrWaitWork(s, t, BatchSize(|s.queue|, s.nTotal, s.nIdle, n));
  }

  lemma {:induction false} TakeOrWaitWork<C>(s: State<C>, t: nat, take: nat)
    requires t < |s.threads| && (s.queue != [] ==> 1 <= take <= |s.queue|)
    ensures WorkLeft(TakeOrWait(s, t, take)) <= WorkLeft(s) - Weight(s.threads[t])
  {
    SumUpdate(s.threads, Weight, t, TakeOrWait(s, t, take).threads[t]);
  }

  lemma {:induction false} RunWork<C>(s: State<C>, t: nat, eval: C -> bool)
    requires CanRun(s, t)
    ensures WorkLeft(RunNext(s, t, eval)) == WorkLeft(s) - 2
  {
    SumUpdate(s.threads, Weight, t, RunNext(s, t, eval).threads[t]);
  }

  lemma {:induction false} FinishWork<C>(s: State<C>, t: nat, n: nat)
    requires CanFinish(s, t)
    ensures WorkLeft(Proceed(Cleaned(s, t), t, n)) < WorkLeft(s)
  {
    SumSame(s.threads, Cleaned(s, t).threads, Weight);
    ProceedWork(Cleaned(s, t), t, n);
  }

  lemma {:induction false} EnterOrWakeWork<C>(s: State<C>, t: nat, nTotal: int, nIdle: int, n: nat)
    requires t < |s.threads|
    ensures WorkLeft(Proceed(s.(nTotal := nTotal, nIdle := nIdle), t, n)) <= WorkLeft(s)
  {
    ProceedWork(s.(nTotal := nTotal, nIdle := nIdle), t, n);
  }

  lemma {:induction false} NotifyWork<C>(a: seq<Thread<C>>, b: seq<Thread<C>>)
    requires WorkersNotified(a, b)
    ensures Sum(a, Weight) == Sum(b, Weight)
  {
    SumSame(a, b, Weight);
  }

  /** No step but Add adds work, and every evaluation and every finished batch uses some up. */
  lemma {:induction false} WorkDecreases<C>(s: State<C>, step: Step<C>, eval: C -> bool, n: nat)
    requires Enabled(s, step) && !step.Add?
    ensures WorkLeft(Next(s, step, eval, n)) <= WorkLeft(s)
    ensures step.Run? || step.Finish? ==> WorkLeft(Next(s, step, eval, n)) < WorkLeft(s)
  {
    match step
    case NewRound =>
    case Enter(t) =>
      EnterOrWakeWork(s, t, s.nTotal + 1, s.nIdle, n);
    case Wake(t) =>
      EnterOrWakeWork(s, t, s.nTotal, s.nIdle - 1, n);
    case Run(t) =>
      RunWork(s, t, eval);
    case Finish(t) =>
      FinishWork(s, t, n);
    case Quit(threads) =>
      NotifyWork(s.threads, threads);
  }

  /** The master is in Loop. */
  ghost predicate MasterIn<C>(s: State<C>) { |s.threads| > 0 && !s.threads[MASTER].Outside? }

  /** A thread runs or finishes a batch, which uses up work, or the master obeys a notification. */
  ghost predicate Productive<C>(s: State<C>, step: Step<C>) {
    step.Run? || step.Finish? || (step == Wake(MASTER) && |s.threads| > 0 && s.threads[MASTER] == Waiting(true))
  }

  /** While the master is in Loop, either some thread can run or finish a batch, which uses up
      work, or the master has been notified and Wait returns as soon as he wakes. */
  lemma {:induction false} WaitCanProceed<C(!new)>(
    states: seq<State<C>>, steps: seq<Step<C>>, eval: C -> bool, n: nat, i: nat) returns (step: Step<C>)
    requires IsRun(states, steps, eval, n) && i < |states|
    requires MasterIn(states[i])
    ensures Enabled(states[i], step)
    ensures Productive(states[i], step)
    ensures step.Run? || step.Finish? || (step == Wake(MASTER) && WaitReturns(states[i], Next(states[i], step, eval, n)))
  {
    var s := states[i];
    ReachableInv(states, steps, eval, n, i);
    var t := MASTER;
    if s.threads[MASTER].Waiting? {
      if s.nTodo == 0 {
        return Wake(MASTER);
      }
      t := SumWitness(s.threads, Load);
    }
    assert BatchOk(s, eval, t);
    if s.threads[t].done < |s.threads[t].batch| {
      return Run(t);
    }
    return Finish(t);
  }

  function UsesWork<C>(step: Step<C>): nat { if step.Run? || step.Finish? then 1 else 0 }

  function WorkSteps<C>(steps: seq<Step<C>>): nat {
    if steps == [] then 0 else WorkSteps(steps[..|steps| - 1]) + UsesWork(steps[|steps| - 1])
  }

  /** Unless the master adds checks, at most WorkLeft evaluations and finished batches follow. */
  lemma {:induction false} FiniteWork<C(!new)>(
    states: seq<State<C>>, steps: seq<Step<C>>, eval: C -> bool, n: nat, i: nat, j: nat)
    requires IsRun(states, steps, eval, n) && i <= j <= |steps|
    requires forall k :: i <= k < j ==> !steps[k].Add?
    ensures WorkSteps(steps[i..j]) + WorkLeft(states[j]) <= WorkLeft(states[i])
  {
    if i < j {
      FiniteWork(states, steps, eval, n, i, j - 1);
      assert StepAt(states, steps, eval, n, j - 1);
      WorkDecreases(states[j - 1], steps[j - 1], eval, n);
      assert steps[i..j][..j - i - 1] == steps[i..j - 1];
      assert steps[i..j][j - i - 1] == steps[j - 1];
    }
  }

  lemma {:induction false} AllWork<C>(steps: seq<Step<C>>)
    requires forall k :: 0 <= k < |steps| ==> steps[k].Run? || steps[k].Finish?
    ensures WorkSteps(steps) == |steps|
  {
    if steps != [] {
      AllWork(steps[..|steps| - 1]);
    }
  }

  /** Any WorkLeft + 1 productive steps in a row, from a state with the master in Loop, contain the
      return of Wait; by WaitCanProceed there is a productive step as long as it has not returned. */
  lemma {:induction false} ProductiveReturns<C(!new)>(
    states: seq<State<C>>, steps: seq<Step<C>>, eval: C -> bool, n: nat, i: nat) returns (k: nat)
    requires IsRun(states, steps, eval, n) && i < |steps| && i + WorkLeft(states[i]) < |steps|
    requires forall m :: i <= m <= i + WorkLeft(states[i]) ==> Productive(states[m], steps[m])
    ensures i <= k <= i + WorkLeft(states[i]) && WaitReturns(states[k], states[k + 1])
  {
    var j := i + WorkLeft(states[i]) + 1;
    if m :| i <= m < j && steps[m].Wake? {
      ReachableInv(states, steps, eval, n, m);
      assert StepAt(states, steps, eval, n, m);
      return m;
    }
    FiniteWork(states, steps, eval, n, i, j);
    forall m | 0 <= m < |steps[i..j]| ensures steps[i..j][m].Run? || steps[i..j][m].Finish? {
      assert Productive(states[i + m], steps[i + m]);
    }
    AllWork(steps[i..j]);
    assert false;
  }

  lemma {:induction false} RunNextStep<C(!new)>(states: seq<State<C>>, steps: seq<Step<C>>, eval: C -> bool, n: nat, step: Step<C>)
    requires IsRun(states, steps, eval, n) && Enabled(states[|steps|], step)
    ensures IsRun(states + [Next(states[|steps|], step, eval, n)], steps + [step], eval, n)
  {
    var longer, more := states + [Next(states[|steps|], step, eval, n)], steps + [step];
    forall i | 0 <= i < |more| ensures StepAt(longer, more, eval, n, i) {
      assert i < |steps| ==> StepAt(states, steps, eval, n, i);
    }
  }

  lemma {:induction false} ProceedStays<C>(s: State<C>, t: nat, n: nat)
    requires t < |s.threads| && s.inRound && (t == MASTER || MasterIn(s))
    ensures WaitReturns(s, Proceed(s, t, n)) || MasterIn(Proceed(s, t, n))
  {
  }

  lemma {:induction false} StaysOrReturns<C(!new)>(s: State<C>, step: Step<C>, eval: C -> bool, n: nat)
    requires Inv(s, eval) && MasterIn(s) && Enabled(s, step) && Productive(s, step)
    ensures WaitReturns(s, Next(s, step, eval, n)) || (MasterIn(Next(s, step, eval, n)) && !step.Wake?)
  {
    match step
    case Run(t) =>
    case Finish(t) => ProceedStays(Cleaned(s, t), t, n);
    case Wake(t) =>
  }

  /** From every reachable state with the master in Loop, at most WorkLeft + 1 further steps, none of
      them the master's except his own work, make Wait return. */
  lemma {:induction false} WaitCanReturn<C(!new)>(states: seq<State<C>>, steps: seq<Step<C>>, eval: C -> bool, n: nat)
    returns (more: seq<Step<C>>, rest: seq<State<C>>)
    requires IsRun(states, steps, eval, n) && MasterIn(states[|steps|])
    ensures IsRun(states + rest, steps + more, eval, n) && 1 <= |more| == |rest| <= WorkLeft(states[|steps|]) + 1
    ensures WaitReturns((states + rest)[|steps + more| - 1], rest[|rest| - 1])
    decreases WorkLeft(states[|steps|])
  {
    var s := states[|steps|];
    var step := WaitCanProceed(states, steps, eval, n, |steps|);
    var r := Next(s, step, eval, n);
    ReachableInv(states, steps, eval, n, |steps|);
    StaysOrReturns(s, step, eval, n);
    RunNextStep(states, steps, eval, n, step);
    if WaitReturns(s, r) {
      return [step], [r];
    }
    WorkDecreases(s, step, eval, n);
    var m, q := WaitCanReturn(states + [r], steps + [step], eval, n);
    more, rest := [step] + m, [r] + q;
    assert states + rest == states + [r] + q && steps + more == steps + [step] + m;
  }
}
