/** What the callers of the thread library (lib/libcoro) can rely on, said of the queues alone: the
    result of every call, who becomes ready by it, that ready threads run in the order in which they
    became so, and that a join returns only for a thread that has exited. */
module CoroLaws {
  import opened CoroState
  import opened CoroInvariant
  import opened CoroThreads
  import opened CoroRuns

  // ---------------------------------------------------------------- results

  function Locked(s: State, m: nat, busy: Code): Code
    requires m < |s.owner|
  {
    if s.owner[m] == s.current then Deadlk else if s.owner[m] == Nil then Ok else busy
  }

  /** The result of a call. Switched is a call that has not returned yet. */
  ghost predicate Answers(s: State, op: Op, code: Code)
    requires Shape(s) && Enabled(s, op)
  {
    match op
    case OpTryLock(m) => code == Locked(s, m, Busy)
    case OpLock(m) => code == Locked(s, m, Switched)
    case OpUnlock(m) => code == if s.owner[m] == s.current then Ok else Perm
    case OpWait(_, m) => code == if s.owner[m] == s.current then Switched else Perm
    case OpSignal(_) => code == Ok
    case OpBroadcast(_) => code == Ok
    case OpYield => code == if s.queues[RUN] == [] then Empty else Switched
    case OpExit => code == Switched
    case OpJoin(t) =>
      code == if t >= |s.status| then Invalid
              else if t == s.current then Deadlk
              else if s.status[t] == Dead then NoSuch
              else if s.status[t] == Exiting then Ok
              else Switched
    case OpCreate => code == if s.queues[FREE] == [] && PoolSize(|s.status| - 1) >= MAX_THREADS then Again else Ok
    case OpResume =>
      match s.doing[s.current]
      case Waiting(_, m) => code == if s.owner[m] == Nil then Ok else Switched
      case _ => code == Ok
  }

  lemma ResumeAnswers(s: State)
    requires Inv(s) && Enabled(s, OpResume)
    ensures Answers(s, OpResume, ResumeStep(s).1)
  {
    assert Local(s, s.current);
    if s.doing[s.current].Joining? { ResumeJoinInv(s); }
  }

  lemma JoinAnswers(s: State, t: nat)
    requires Inv(s) && Enabled(s, OpJoin(t))
    ensures Answers(s, OpJoin(t), JoinStep(s, t).1)
  {
    if t < |s.status| && t != s.current && s.status[t] != Dead && s.status[t] != Exiting { ExitMutexIdle(s, t); }
  }

  lemma CreateAnswers(s: State)
    requires Inv(s)
    ensures CreateStep(s).1 == if s.queues[FREE] == [] && PoolSize(|s.status| - 1) >= MAX_THREADS then Again else Ok
  {
    CreateInv(s);
  }

  /** Every call has the result that the state before it calls for. */
  lemma Answered(s: State, op: Op)
    requires Inv(s) && Enabled(s, op)
    ensures Answers(s, op, Next(s, op).1)
  {
    match op
    case OpJoin(t) => JoinAnswers(s, t);
    case OpCreate => CreateAnswers(s);
    case OpResume => ResumeAnswers(s);
    case _ =>
  }

  // ---------------------------------------------------------------- who becomes ready

  function First(q: seq<nat>): seq<nat> {
    if q == [] then [] else [q[0]]
  }

  /** The threads that a call makes ready, in order. */
  ghost function Readied(s: State, op: Op): seq<nat>
    requires Shape(s) && Enabled(s, op)
  {
    match op
    case OpUnlock(m) => if s.owner[m] == s.current then First(s.queues[m]) else []
    case OpWait(_, m) => if s.owner[m] == s.current then First(s.queues[m]) else []
    case OpSignal(c) => First(s.queues[c])
    case OpBroadcast(c) => s.queues[c]
    case OpYield => if s.queues[RUN] == [] then [] else [s.current]
    case OpExit => First(s.queues[ExitEvent(s, s.current)])
    case OpCreate =>
      if s.queues[FREE] != [] then First(s.queues[FREE])
      else if PoolSize(|s.status| - 1) >= MAX_THREADS then []
      else [|s.status|]
    case _ => []
  }

  /** The run queue is first in, first out: what becomes ready goes to its end, and a switch is to its
      first thread. */
  ghost predicate RunsOn(s: State, r: State, more: seq<nat>, code: Code) {
    && |s.queues| > RUN && |r.queues| > RUN
    && var q := s.queues[RUN] + more;
       if code == Switched then q != [] && r.current == q[0] && r.queues[RUN] == q[1..]
       else r.current == s.current && r.queues[RUN] == q
  }

  lemma {:induction false} BroadcastReadies(s: State, c: nat)
    requires Shape(s) && FIRST <= c < |s.queues|
    ensures var r := BroadcastStep(s, c);
      r.current == s.current && r.queues[RUN] == s.queues[RUN] + s.queues[c] && r.queues[c] == []
    ensures var r := BroadcastStep(s, c);
      && |r.status| == |s.status|
      && forall t :: 0 <= t < |s.status| ==> r.status[t] == if t in s.queues[c] then Runnable else s.status[t]
    decreases |s.queues[c]|
  {
    var q := s.queues[c];
    if q != [] {
      BroadcastReadies(SignalStep(s, c), c);
      assert q == [q[0]] + q[1..];
      assert s.queues[RUN] + [q[0]] + q[1..] == s.queues[RUN] + q;
    }
  }

  lemma {:induction false} AddThreadsReady(s: State, k: nat)
    requires Shape(s)
    ensures var r := AddThreads(s, k);
      && r.current == s.current && r.queues[RUN] == s.queues[RUN] && |r.status| == |s.status| + k
      && (s.queues[FREE] == [] && k > 0 ==> r.queues[FREE] != [] && r.queues[FREE][0] == |s.status|)
      && (s.queues[FREE] != [] ==> r.queues[FREE] != [] && r.queues[FREE][0] == s.queues[FREE][0])
      && (forall t :: 0 <= t < |s.status| ==> r.status[t] == s.status[t])
      && (forall t :: |s.status| <= t < |s.status| + k ==> r.status[t] == Dead)
    decreases k
  {
    if k > 0 { AddThreadsReady(AddThread(s), k - 1); }
  }

  lemma StartReadies(s: State)
    requires Shape(s) && s.queues[FREE] != []
    ensures var r, t := Start(s), s.queues[FREE][0];
      r.current == s.current && r.queues[RUN] == s.queues[RUN] + [t] && r.status == s.status[t := Runnable]
  {
  }

  lemma GrownReadies(s: State, k: nat)
    requires Inv(s) && k > 0 && s.queues[FREE] == []
    ensures var g := AddThreads(s, k);
      && g.queues[FREE] != []
      && var r := Start(g);
         && r.current == s.current && r.queues[RUN] == s.queues[RUN] + [|s.status|] && |s.status| <= |r.status|
         && (forall t :: 0 <= t < |s.status| ==> r.status[t] == s.status[t])
         && (forall t :: |s.status| <= t < |r.status| ==> r.status[t] != Exiting)
  {
    AddThreadsReady(s, k);
    StartReadies(AddThreads(s, k));
  }

  /** What creation does to the run queue and to the states of threads. */
  ghost predicate Creates(s: State, r: State, t: nat) {
    && |s.queues| > RUN && |r.queues| > RUN && r.current == s.current && r.queues[RUN] == s.queues[RUN] + [t]
    && |s.status| <= |r.status|
    && (forall u :: 0 <= u < |s.status| ==> r.status[u] == s.status[u] || r.status[u] == Runnable)
    && (forall u :: |s.status| <= u < |r.status| ==> r.status[u] != Exiting)
  }

  lemma CreateIs(s: State)
    requires Inv(s)
    ensures var n, (r, code) := |s.status| - 1, CreateStep(s);
      if s.queues[FREE] != [] then code == Ok && Creates(s, r, s.queues[FREE][0])
      else if PoolSize(n) >= MAX_THREADS then code == Again && r == s
      else code == Ok && Creates(s, r, |s.status|)
  {
    var n := |s.status| - 1;
    if s.queues[FREE] != [] {
      StartReadies(s);
    } else if PoolSize(n) < MAX_THREADS {
      GrownReadies(s, PoolSize(n) - n);
    }
  }

  lemma LockReadies(s: State, m: nat)
    requires Inv(s) && FIRST <= m < |s.queues| && (s.current == MAIN ==> s.owner[m] == Nil || s.owner[m] == MAIN)
    ensures RunsOn(s, LockStep(s, m).0, [], LockStep(s, m).1)
  {
    MainReady(s);
  }

  lemma UnlockReadies(s: State, m: nat)
    requires Inv(s) && FIRST <= m < |s.queues|
    ensures var more := if s.owner[m] == s.current then First(s.queues[m]) else [];
      RunsOn(s, UnlockStep(s, m).0, more, UnlockStep(s, m).1)
  {
  }

  lemma YieldReadies(s: State)
    requires Inv(s) && s.queues[RUN] != []
    ensures RunsOn(s, YieldStep(s).0, [s.current], Switched)
  {
  }

  lemma WaitReadies(s: State, c: nat, m: nat, doing: Doing)
    requires Inv(s) && FIRST <= c < |s.queues| && FIRST <= m < |s.queues| && s.owner[m] == s.current != MAIN
    ensures var (r, code) := WaitStep(s, c, m, doing); code == Switched && RunsOn(s, r, First(s.queues[m]), code)
  {
    MainReady(s);
  }

  lemma JoinReadies(s: State, t: nat)
    requires Inv(s) && Enabled(s, OpJoin(t))
    ensures RunsOn(s, JoinStep(s, t).0, [], JoinStep(s, t).1)
  {
    if t < |s.status| && t != s.current && s.status[t] != Dead && s.status[t] != Exiting {
      ExitMutexIdle(s, t);
      MainReady(s);
    }
  }

  /** A thread other than the main one never finds the run queue empty. */
  lemma MainReady(s: State)
    requires Inv(s)
    ensures s.current != MAIN ==> s.queues[RUN] != []
  {
    assert s.current != MAIN ==> MAIN in s.queues[RUN];
  }

  lemma ExitReadies(s: State)
    requires Inv(s) && Enabled(s, OpExit)
    ensures RunsOn(s, ExitStep(s), Readied(s, OpExit), Switched)
  {
    MainReady(s);
  }

  lemma ResumeReadies(s: State)
    requires Inv(s) && Enabled(s, OpResume)
    ensures RunsOn(s, ResumeStep(s).0, [], ResumeStep(s).1)
  {
    assert Local(s, s.current);
    MainReady(s);
    if s.doing[s.current].Joining? {
      ResumeJoinInv(s);
      ExitMutexIdle(s, s.doing[s.current].target);
    }
  }

  /** Every call makes ready exactly those threads, and the processor goes to whom has been ready
      longest, or stays. */
  lemma FairStep(s: State, op: Op)
    requires Inv(s) && Enabled(s, op)
    ensures RunsOn(s, Next(s, op).0, Readied(s, op), Next(s, op).1)
  {
    MainReady(s);
    match op
    case OpTryLock(_) =>
    case OpLock(m) => LockReadies(s, m);
    case OpUnlock(m) => UnlockReadies(s, m);
    case OpWait(c, m) => if s.owner[m] == s.current { WaitReadies(s, c, m, Waiting(c, m)); }
    case OpSignal(_) =>
    case OpBroadcast(c) => BroadcastReadies(s, c);
    case OpYield => if s.queues[RUN] != [] { YieldReadies(s); }
    case OpExit => ExitReadies(s);
    case OpJoin(t) => JoinReadies(s, t);
    case OpCreate => CreateIs(s);
    case OpResume => ResumeReadies(s);
  }

  // ---------------------------------------------------------------- every ready thread runs

  /** One step of a first in, first out queue, seen from the thread at place b. */
  ghost predicate Advances(q: seq<nat>, q': seq<nat>, current: nat, gives: bool, b: nat)
    requires b < |q|
  {
    if !gives then b < |q'| && q'[b] == q[b]
    else if b == 0 then current == q[0]
    else b - 1 < |q'| && q'[b - 1] == q[b]
  }

  ghost predicate Serves(q: seq<nat>, q': seq<nat>, current: nat, gives: bool) {
    forall b :: 0 <= b < |q| ==> Advances(q, q', current, gives, b)
  }

  function Count(gives: seq<bool>, i: nat, j: nat): nat
    requires i <= j <= |gives|
    decreases j
  {
    if i == j then 0 else Count(gives, i, j - 1) + if gives[j - 1] then 1 else 0
  }

  lemma {:induction false} QueueServes(qs: seq<seq<nat>>, current: seq<nat>, gives: seq<bool>, i: nat, j: nat, a: nat)
    requires |qs| == |current| == |gives| + 1 && i <= j < |qs| && a < |qs[i]|
    requires forall k :: 0 <= k < |gives| ==> Serves(qs[k], qs[k + 1], current[k + 1], gives[k])
    ensures var n := Count(gives, i, j);
      if n <= a then a - n < |qs[j]| && qs[j][a - n] == qs[i][a] else exists k :: i < k <= j && current[k] == qs[i][a]
    decreases j
  {
    if i < j {
      QueueServes(qs, current, gives, i, j - 1, a);
      var n := Count(gives, i, j - 1);
      assert Serves(qs[j - 1], qs[j - 1 + 1], current[j - 1 + 1], gives[j - 1]);
      assert n <= a ==> Advances(qs[j - 1], qs[j], current[j], gives[j - 1], a - n);
    }
  }

  lemma RunsAdvances(s: State, r: State, more: seq<nat>, code: Code)
    requires RunsOn(s, r, more, code)
    ensures Serves(s.queues[RUN], r.queues[RUN], r.current, code == Switched)
  {
    var q := s.queues[RUN] + more;
    assert forall b :: 0 <= b < |s.queues[RUN]| ==> q[b] == s.queues[RUN][b];
  }

  ghost predicate Gives(s: State, op: Op) {
    Shape(s) && Enabled(s, op) && Next(s, op).1 == Switched
  }

  lemma RunAdvances(run: seq<State>, ops: seq<Op>, i: nat)
    requires Run(run, ops) && i < |ops|
    ensures |run[i].queues| > RUN && |run[i + 1].queues| > RUN
    ensures Serves(run[i].queues[RUN], run[i + 1].queues[RUN], run[i + 1].current, Gives(run[i], ops[i]))
  {
    RunInv(run, ops, i);
    assert Follows(run[i], ops[i], run[i + 1]);
    FairStep(run[i], ops[i]);
    RunsAdvances(run[i], run[i + 1], Readied(run[i], ops[i]), Next(run[i], ops[i]).1);
  }

  /** The steps that gave the processor away. */
  ghost function Given(run: seq<State>, ops: seq<Op>): (gives: seq<bool>)
    requires |run| == |ops| + 1
    ensures |gives| == |ops| && forall k :: 0 <= k < |ops| ==> gives[k] == Gives(run[k], ops[k])
  {
    seq(|ops|, k requires 0 <= k < |ops| => Gives(run[k], ops[k]))
  }

  /** A thread that is ready with a threads before it in the run queue has a - n before it after n
      switches, and after a + 1 switches it has had the processor. */
  lemma ReadyRuns(run: seq<State>, ops: seq<Op>, i: nat, j: nat, a: nat)
    requires Run(run, ops) && i <= j < |run| && |run[i].queues| > RUN && a < |run[i].queues[RUN]|
    ensures Reaches(run, i, j, a, Count(Given(run, ops), i, j))
  {
    var qs, current := RunQueues(run, ops);
    ReadyIn(run, qs, current, Given(run, ops), i, j, a);
  }

  /** What has become at time j of the thread that had a threads before it at time i, n switches ago. */
  ghost predicate Reaches(run: seq<State>, i: nat, j: nat, a: nat, n: nat)
    requires i <= j < |run| && |run[i].queues| > RUN && a < |run[i].queues[RUN]|
  {
    var t := run[i].queues[RUN][a];
    if n <= a then |run[j].queues| > RUN && a - n < |run[j].queues[RUN]| && run[j].queues[RUN][a - n] == t
    else exists k :: i < k <= j && run[k].current == t
  }

  lemma ReadyIn(run: seq<State>, qs: seq<seq<nat>>, current: seq<nat>, gives: seq<bool>, i: nat, j: nat, a: nat)
    requires |qs| == |current| == |run| == |gives| + 1 && i <= j < |run|
    requires forall k :: 0 <= k < |run| ==>
               |run[k].queues| > RUN && qs[k] == run[k].queues[RUN] && current[k] == run[k].current
    requires forall k :: 0 <= k < |gives| ==> Serves(qs[k], qs[k + 1], current[k + 1], gives[k])
    requires a < |run[i].queues[RUN]|
    ensures Reaches(run, i, j, a, Count(gives, i, j))
  {
    QueueServes(qs, current, gives, i, j, a);
    assert qs[i] == run[i].queues[RUN] && qs[j] == run[j].queues[RUN];
    if Count(gives, i, j) > a {
      var k :| i < k <= j && current[k] == qs[i][a];
      assert run[k].current == qs[i][a];
    }
  }

  lemma RunQueues(run: seq<State>, ops: seq<Op>) returns (qs: seq<seq<nat>>, current: seq<nat>)
    requires Run(run, ops)
    ensures |qs| == |current| == |run|
    ensures forall k :: 0 <= k < |run| ==>
              |run[k].queues| > RUN && qs[k] == run[k].queues[RUN] && current[k] == run[k].current
    ensures forall k :: 0 <= k < |ops| ==> Serves(qs[k], qs[k + 1], current[k + 1], Given(run, ops)[k])
  {
    var m := |run|;
    forall k | 0 <= k < m ensures |run[k].queues| > RUN { RunInv(run, ops, k); }
    qs := seq(m, k requires 0 <= k < m => run[k].queues[RUN]);
    current := seq(m, k requires 0 <= k < m => run[k].current);
    forall k | 0 <= k < m - 1 ensures Serves(qs[k], qs[k + 1], current[k + 1], Given(run, ops)[k]) {
      RunAdvances(run, ops, k);
    }
  }

  // ---------------------------------------------------------------- exits and joins

  /** No thread has begun to exit, and those that are new have not. */
  ghost predicate NoneExits(s: State, r: State) {
    |s.status| <= |r.status| &&
    forall t :: 0 <= t < |r.status| && r.status[t] == Exiting ==> t < |s.status| && s.status[t] == Exiting
  }

  lemma LockExits(s: State, m: nat)
    requires Shape(s) && m < |s.queues|
    ensures NoneExits(s, LockStep(s, m).0)
  {
  }

  lemma UnlockExits(s: State, m: nat)
    requires Shape(s) && m < |s.queues|
    ensures NoneExits(s, UnlockStep(s, m).0)
  {
  }

  lemma WaitExits(s: State, c: nat, m: nat, doing: Doing)
    requires Shape(s) && c < |s.queues| && m < |s.queues|
    ensures NoneExits(s, WaitStep(s, c, m, doing).0)
  {
    UnlockExits(s, m);
  }

  lemma JoinExits(s: State, t: nat)
    requires Shape(s)
    ensures NoneExits(s, JoinStep(s, t).0)
  {
    if t < |s.status| && t != s.current && s.status[t] != Dead && s.status[t] != Exiting {
      var (r, code) := TryLockStep(s, ExitMutex(s, t));
      if code == Ok { WaitExits(r, ExitEvent(s, t), ExitMutex(s, t), Joining(t)); }
    }
  }

  lemma CreateExits(s: State)
    requires Inv(s)
    ensures NoneExits(s, CreateStep(s).0)
  {
    CreateIs(s);
  }

  lemma ResumeExits(s: State)
    requires Inv(s) && Enabled(s, OpResume)
    ensures NoneExits(s, ResumeStep(s).0)
  {
    assert Local(s, s.current);
    var back := s.(doing := s.doing[s.current := User]);
    match s.doing[s.current]
    case Waiting(_, m) => LockExits(back, m);
    case Joining(t) =>
      var (locked, code) := TryLockStep(back, ExitMutex(s, t));
      UnlockExits(locked, ExitMutex(s, t));
    case _ =>
  }

  lemma ExitingStep(s: State, op: Op, t: nat)
    requires Inv(s) && Enabled(s, op) && t < |Next(s, op).0.status| && Next(s, op).0.status[t] == Exiting
    ensures t < |s.status| && (s.status[t] == Exiting || (op == OpExit && t == s.current))
  {
    match op
    case OpTryLock(m) =>
    case OpLock(m) => LockExits(s, m);
    case OpUnlock(m) => UnlockExits(s, m);
    case OpWait(c, m) => WaitExits(s, c, m, Waiting(c, m));
    case OpSignal(c) =>
    case OpBroadcast(c) => BroadcastReadies(s, c);
    case OpYield =>
    case OpExit =>
    case OpJoin(u) => JoinExits(s, u);
    case OpCreate => CreateExits(s);
    case OpResume => ResumeExits(s);
  }

  lemma NoneExitingFirst(run: seq<State>, ops: seq<Op>)
    requires Run(run, ops)
    ensures forall t :: 0 <= t < |run[0].status| ==> run[0].status[t] != Exiting
  {
  }

  /** A thread that is exiting has called exit. */
  lemma {:induction false} ExitedBefore(run: seq<State>, ops: seq<Op>, i: nat, t: nat)
    requires Run(run, ops) && i < |run| && t < |run[i].status| && run[i].status[t] == Exiting
    ensures exists k :: 0 <= k < i && ops[k] == OpExit && run[k].current == t
  {
    NoneExitingFirst(run, ops);
    if i > 0 {
      RunInv(run, ops, i - 1);
      assert Follows(run[i - 1], ops[i - 1], run[i]);
      ExitingStep(run[i - 1], ops[i - 1], t);
      if run[i - 1].status[t] == Exiting { ExitedBefore(run, ops, i - 1, t); }
    }
  }

  /** A join returns 0, at once or after a wait, only for a thread that has called exit, and frees it. */
  lemma JoinedMeansExited(run: seq<State>, ops: seq<Op>, i: nat, t: nat)
    requires Run(run, ops) && i < |ops| && Follows(run[i], ops[i], run[i + 1]) && Next(run[i], ops[i]).1 == Ok
    requires ops[i] == OpJoin(t) || (ops[i] == OpResume && run[i].doing[run[i].current] == Joining(t))
    ensures exists k :: 0 <= k < i && ops[k] == OpExit && run[k].current == t
    ensures t < |run[i + 1].status| && run[i + 1].status[t] == Dead
  {
    var s := run[i];
    RunInv(run, ops, i);
    Answered(s, ops[i]);
    if ops[i] == OpResume { ResumeJoinInv(s); }
    ExitedBefore(run, ops, i, t);
  }

  // ---------------------------------------------------------------- waiting

  lemma UnlockWaiters(s: State, m: nat, c: nat)
    requires Shape(s) && m < |s.queues| && FIRST <= c < |s.queues| && c != m
    ensures var r := UnlockStep(s, m).0; |r.queues| == |s.queues| && r.queues[c] == s.queues[c]
  {
  }

  lemma LockWaiters(s: State, m: nat, c: nat)
    requires Shape(s) && m < |s.queues| && FIRST <= c < |s.queues| && c != m
    ensures var r := LockStep(s, m).0; |r.queues| == |s.queues| && r.queues[c] == s.queues[c]
  {
  }

  lemma WaitWaiters(s: State, e: nat, m: nat, doing: Doing, c: nat)
    requires Shape(s) && FIRST <= e < |s.queues| && m < |s.queues| && FIRST <= c < |s.queues| && c != m
    ensures var r := WaitStep(s, e, m, doing).0;
      && |r.queues| == |s.queues|
      && r.queues[c] == if e == c && s.owner[m] == s.current then s.queues[c] + [s.current] else s.queues[c]
  {
    UnlockWaiters(s, m, c);
  }

  lemma SignalWaiters(s: State, d: nat, c: nat)
    requires Shape(s) && FIRST <= d < |s.queues| && FIRST <= c < |s.queues|
    ensures var q := s.queues[c]; SignalStep(s, d).queues[c] == if d == c && q != [] then q[1..] else q
  {
  }

  lemma ScheduleWaiters(s: State, c: nat)
    requires Shape(s) && FIRST <= c < |s.queues|
    ensures |Schedule(s).queues| == |s.queues| && Schedule(s).queues[c] == s.queues[c]
  {
  }

  lemma JoinWaiters(s: State, t: nat, c: nat)
    requires Shape(s) && UserCond(s, c)
    ensures var r := JoinStep(s, t).0; |r.queues| == |s.queues| && r.queues[c] == s.queues[c]
  {
    if t < |s.status| && t != s.current && s.status[t] != Dead && s.status[t] != Exiting {
      var (r, code) := TryLockStep(s, ExitMutex(s, t));
      if code == Ok { WaitWaiters(r, ExitEvent(s, t), ExitMutex(s, t), Joining(t), c); }
    }
  }

  lemma StartWaiters(s: State, c: nat)
    requires Shape(s) && s.queues[FREE] != [] && FIRST <= c < Base(s)
    ensures |Start(s).queues| == |s.queues| && Start(s).queues[c] == s.queues[c]
  {
  }

  lemma CreateWaiters(s: State, c: nat)
    requires Inv(s) && UserCond(s, c)
    ensures c < |CreateStep(s).0.queues| && CreateStep(s).0.queues[c] == s.queues[c]
  {
    var n := |s.status| - 1;
    CreateInv(s);
    if s.queues[FREE] != [] {
      StartWaiters(s, c);
    } else if PoolSize(n) < MAX_THREADS {
      AddThreadsKeeps(s, PoolSize(n) - n, c);
      StartWaiters(AddThreads(s, PoolSize(n) - n), c);
    }
  }

  lemma ResumeWaiters(s: State, c: nat)
    requires Inv(s) && Enabled(s, OpResume) && UserCond(s, c)
    ensures c < |ResumeStep(s).0.queues| && ResumeStep(s).0.queues[c] == s.queues[c]
  {
    assert Local(s, s.current);
    var back := s.(doing := s.doing[s.current := User]);
    match s.doing[s.current]
    case Waiting(_, m) => LockWaiters(back, m, c);
    case Joining(t) => JoinedWaiters(s, t, c);
    case _ =>
  }

  lemma JoinedWaiters(s: State, t: nat, c: nat)
    requires Inv(s) && s.doing[s.current] == Joining(t) && t < |s.status| && UserCond(s, c)
    ensures c < |ResumeStep(s).0.queues| && ResumeStep(s).0.queues[c] == s.queues[c]
  {
    var back := s.(doing := s.doing[s.current := User]);
    UnlockWaiters(TryLockStep(back, ExitMutex(s, t)).0, ExitMutex(s, t), c);
  }

  /** The queue of a condition variable: a wait joins it at the end, a signal takes its first thread
      out, a broadcast all of them, and nothing else touches it. */
  lemma WaitersAfter(s: State, op: Op, c: nat)
    requires Inv(s) && Enabled(s, op) && UserCond(s, c)
    ensures c < |Next(s, op).0.queues|
    ensures Next(s, op).0.queues[c] ==
            if op.OpWait? && op.c == c && s.owner[op.mutex] == s.current then s.queues[c] + [s.current]
            else if op == OpSignal(c) && s.queues[c] != [] then s.queues[c][1..]
            else if op == OpBroadcast(c) then []
            else s.queues[c]
  {
    match op
    case OpTryLock(m) =>
    case OpLock(m) => LockWaiters(s, m, c);
    case OpUnlock(m) => UnlockWaiters(s, m, c);
    case OpWait(e, m) => WaitWaiters(s, e, m, Waiting(e, m), c);
    case OpSignal(d) => SignalWaiters(s, d, c);
    case OpBroadcast(d) => if d == c { BroadcastReadies(s, c); } else { BroadcastKeeps(s, d, c); }
    case OpYield => ScheduleWaiters(Parked(s, RUN, Runnable, s.doing[s.current]), c);
    case OpExit =>
      var x, e := s.(status := s.status[s.current := Exiting]), ExitEvent(s, s.current);
      SignalWaiters(x, e, c);
      ScheduleWaiters(SignalStep(x, e), c);
    case OpJoin(u) => JoinWaiters(s, u, c);
    case OpCreate => CreateWaiters(s, c);
    case OpResume => ResumeWaiters(s, c);
  }

  // ---------------------------------------------------------------- mutexes

  /** The call gives mutex m up. */
  ghost predicate GivesUp(s: State, op: Op, m: nat)
    requires m < |s.owner|
  {
    (op == OpUnlock(m) || (op.OpWait? && op.mutex == m)) && s.owner[m] == s.current
  }

  /** The call asks for mutex m and has to have it before it returns. */
  ghost predicate Claims(s: State, op: Op, m: nat)
    requires Shape(s)
  {
    op == OpLock(m) || (op == OpResume && s.doing[s.current].Waiting? && s.doing[s.current].mutex == m)
  }

  ghost predicate MutexBecomes(s: State, op: Op, r: State, m: nat)
    requires Shape(s) && m < |s.queues|
  {
    var q := s.queues[m];
    && m < |r.queues| && m < |r.owner|
    && if GivesUp(s, op, m) then
         && r.owner[m] == (if q == [] then Nil else q[0]) && r.queues[m] == (if q == [] then [] else q[1..])
       else if (Claims(s, op, m) || op == OpTryLock(m)) && s.owner[m] == Nil then
         r.owner[m] == s.current && r.queues[m] == q
       else if Claims(s, op, m) && s.owner[m] != s.current then
         r.owner[m] == s.owner[m] && r.queues[m] == q + [s.current]
       else
         r.owner[m] == s.owner[m] && r.queues[m] == q
  }

  lemma LockMutex(s: State, k: nat, m: nat)
    requires Shape(s) && UserMutex(s, k) && UserMutex(s, m)
    ensures var r, q := LockStep(s, k).0, s.queues[m];
      && |r.queues| == |s.queues| == |r.owner|
      && r.owner[m] == (if k == m && s.owner[m] == Nil then s.current else s.owner[m])
      && r.queues[m] == (if k == m && s.owner[m] != Nil && s.owner[m] != s.current then q + [s.current] else q)
  {
  }

  lemma UnlockMutex(s: State, k: nat, m: nat)
    requires Shape(s) && UserMutex(s, m) && k < |s.queues|
    ensures var r, q := UnlockStep(s, k).0, s.queues[m];
      && |r.queues| == |s.queues| == |r.owner|
      && r.owner[m] == (if k == m && s.owner[m] == s.current then if q == [] then Nil else q[0] else s.owner[m])
      && r.queues[m] == (if k == m && s.owner[m] == s.current && q != [] then q[1..] else q)
  {
  }

  lemma WaitMutex(s: State, c: nat, k: nat, doing: Doing, m: nat)
    requires Shape(s) && UserMutex(s, m) && FIRST <= c < |s.queues| && c != m && k < |s.queues|
    ensures var r, u := WaitStep(s, c, k, doing).0, UnlockStep(s, k).0;
      && |r.queues| == |s.queues| == |r.owner|
      && r.owner[m] == (if s.owner[k] == s.current then u.owner[m] else s.owner[m])
      && r.queues[m] == (if s.owner[k] == s.current then u.queues[m] else s.queues[m])
  {
  }

  lemma JoinMutex(s: State, t: nat, m: nat)
    requires Inv(s) && UserMutex(s, m)
    ensures var r := JoinStep(s, t).0; |r.queues| == |s.queues| == |r.owner|
    ensures JoinStep(s, t).0.owner[m] == s.owner[m] && JoinStep(s, t).0.queues[m] == s.queues[m]
  {
    if t < |s.status| && t != s.current && s.status[t] != Dead && s.status[t] != Exiting {
      ExitMutexIdle(s, t);
      var (r, code) := TryLockStep(s, ExitMutex(s, t));
      WaitMutex(r, ExitEvent(s, t), ExitMutex(s, t), Joining(t), m);
      UnlockMutex(r, ExitMutex(s, t), m);
    }
  }

  lemma WokenMutex(s: State, m: nat)
    requires Inv(s) && Resumable(s) && s.doing[s.current].Waiting? && UserMutex(s, m)
    ensures MutexBecomes(s, OpResume, ResumeStep(s).0, m)
  {
    assert Local(s, s.current);
    LockMutex(s.(doing := s.doing[s.current := User]), s.doing[s.current].mutex, m);
  }

  lemma JoinedMutex(s: State, m: nat)
    requires Inv(s) && Resumable(s) && s.doing[s.current].Joining? && UserMutex(s, m)
    ensures MutexBecomes(s, OpResume, ResumeStep(s).0, m)
  {
    assert Local(s, s.current);
    var back, e := s.(doing := s.doing[s.current := User]), ExitMutex(s, s.doing[s.current].target);
    UnlockMutex(TryLockStep(back, e).0, e, m);
  }

  lemma ResumeMutex(s: State, m: nat)
    requires Inv(s) && Enabled(s, OpResume) && UserMutex(s, m)
    ensures MutexBecomes(s, OpResume, ResumeStep(s).0, m)
  {
    match s.doing[s.current]
    case Waiting(_, _) => WokenMutex(s, m);
    case Joining(_) => JoinedMutex(s, m);
    case _ =>
  }

  lemma {:induction false} AddThreadsOwner(s: State, k: nat, m: nat)
    requires Shape(s) && FIRST <= m < Base(s)
    ensures var r := AddThreads(s, k); m < |r.owner| && r.owner[m] == s.owner[m] && Base(r) == Base(s)
    decreases k
  {
    if k > 0 { AddThreadsOwner(AddThread(s), k - 1, m); }
  }

  lemma StartOwner(s: State, m: nat)
    requires Shape(s) && s.queues[FREE] != [] && FIRST <= m < Base(s)
    ensures |Start(s).owner| == |s.owner| && Start(s).owner[m] == s.owner[m]
  {
  }

  lemma CreateMutex(s: State, m: nat)
    requires Inv(s) && UserMutex(s, m)
    ensures var r := CreateStep(s).0;
      m < |r.queues| && m < |r.owner| && r.owner[m] == s.owner[m] && r.queues[m] == s.queues[m]
  {
    var n := |s.status| - 1;
    CreateInv(s);
    CreateKeeps(s, m);
    if s.queues[FREE] != [] {
      StartOwner(s, m);
    } else if PoolSize(n) < MAX_THREADS {
      AddThreadsOwner(s, PoolSize(n) - n, m);
      StartOwner(AddThreads(s, PoolSize(n) - n), m);
    }
  }

  lemma {:induction false} BroadcastOwner(s: State, c: nat)
    requires Shape(s) && c < |s.queues| && c != RUN
    ensures BroadcastStep(s, c).owner == s.owner
    decreases |s.queues[c]|
  {
    if s.queues[c] != [] { BroadcastOwner(SignalStep(s, c), c); }
  }

  lemma TryLockBecomes(s: State, k: nat, m: nat)
    requires Inv(s) && UserMutex(s, k) && UserMutex(s, m)
    ensures MutexBecomes(s, OpTryLock(k), TryLockStep(s, k).0, m)
  {
  }

  lemma LockBecomes(s: State, k: nat, m: nat)
    requires Inv(s) && UserMutex(s, k) && UserMutex(s, m)
    ensures MutexBecomes(s, OpLock(k), LockStep(s, k).0, m)
  {
    LockMutex(s, k, m);
  }

  lemma UnlockBecomes(s: State, k: nat, m: nat)
    requires Inv(s) && UserMutex(s, k) && UserMutex(s, m)
    ensures MutexBecomes(s, OpUnlock(k), UnlockStep(s, k).0, m)
  {
    UnlockMutex(s, k, m);
  }

  lemma WaitBecomes(s: State, c: nat, k: nat, m: nat)
    requires Inv(s) && UserCond(s, c) && UserMutex(s, k) && UserMutex(s, m)
    ensures MutexBecomes(s, OpWait(c, k), WaitStep(s, c, k, Waiting(c, k)).0, m)
  {
    WaitMutex(s, c, k, Waiting(c, k), m);
    UnlockMutex(s, k, m);
  }

  lemma SignalBecomes(s: State, c: nat, m: nat)
    requires Inv(s) && UserCond(s, c) && UserMutex(s, m)
    ensures MutexBecomes(s, OpSignal(c), SignalStep(s, c), m)
    ensures MutexBecomes(s, OpBroadcast(c), BroadcastStep(s, c), m)
  {
    SignalWaiters(s, c, m);
    BroadcastKeeps(s, c, m);
    BroadcastOwner(s, c);
  }

  lemma YieldBecomes(s: State, m: nat)
    requires Inv(s) && UserMutex(s, m)
    ensures MutexBecomes(s, OpYield, YieldStep(s).0, m)
  {
    ScheduleWaiters(Parked(s, RUN, Runnable, s.doing[s.current]), m);
  }

  lemma ExitBecomes(s: State, m: nat)
    requires Inv(s) && UserMutex(s, m)
    ensures MutexBecomes(s, OpExit, ExitStep(s), m)
  {
    var x, e := s.(status := s.status[s.current := Exiting]), ExitEvent(s, s.current);
    SignalWaiters(x, e, m);
    ScheduleWaiters(SignalStep(x, e), m);
  }

  lemma JoinBecomes(s: State, t: nat, m: nat)
    requires Inv(s) && UserMutex(s, m)
    ensures MutexBecomes(s, OpJoin(t), JoinStep(s, t).0, m)
  {
    JoinMutex(s, t, m);
  }

  lemma CreateBecomes(s: State, m: nat)
    requires Inv(s) && UserMutex(s, m)
    ensures MutexBecomes(s, OpCreate, CreateStep(s).0, m)
  {
    CreateMutex(s, m);
  }

  /** The owner and the queue of a mutex: whoever gives it up passes it to the first waiter, or frees it;
      whoever claims it gets it if it is free, and joins the queue at the end if it is another's;
      nothing else touches it. */
  lemma MutexAfter(s: State, op: Op, m: nat)
    requires Inv(s) && Enabled(s, op) && UserMutex(s, m)
    ensures MutexBecomes(s, op, Next(s, op).0, m)
  {
    match op
    case OpTryLock(k) => TryLockBecomes(s, k, m);
    case OpLock(k) => LockBecomes(s, k, m);
    case OpUnlock(k) => UnlockBecomes(s, k, m);
    case OpWait(c, k) => WaitBecomes(s, c, k, m);
    case OpSignal(c) => SignalBecomes(s, c, m);
    case OpBroadcast(c) => SignalBecomes(s, c, m);
    case OpYield => YieldBecomes(s, m);
    case OpExit => ExitBecomes(s, m);
    case OpJoin(t) => JoinBecomes(s, t, m);
    case OpCreate => CreateBecomes(s, m);
    case OpResume => ResumeMutex(s, m);
  }
}
