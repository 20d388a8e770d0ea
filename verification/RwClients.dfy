/** The readers/writer lock as its callers see it (lib/libcoro/rwlock.c): from the calls and their
    results alone, who has the lock for reading, how often, and who has it for writing. */
module RwClients {
  import opened CoroState
  import opened CoroInvariant
  import opened CoroThreads
  import opened CoroFrame
  import opened RwLock
  import opened RwProgress

  datatype Wish = None | Read | Write

  /** What a caller knows: the read locks it was given and has not given back, whether it was given
      the write lock, and what it has asked for in a call that has not returned. */
  datatype Client = Client(reading: int, writing: bool, wish: Wish)

  const NEWCOMER := Client(0, false, None)

  function Granted(c: Client, wish: Wish): Client {
    match wish
    case Read => c.(reading := c.reading + 1, wish := None)
    case Write => c.(writing := true, wish := None)
    case None => c
  }

  /** What a call and its result tell the caller. A call that has not returned yet is Switched. */
  function Told(c: Client, op: RwOp, code: Code): Client {
    match op
    case RdLock => if code == Ok then Granted(c, Read) else if code == Switched then c.(wish := Read) else c
    case WrLock => if code == Ok then Granted(c, Write) else if code == Switched then c.(wish := Write) else c
    case Go => if code == Ok then Granted(c, c.wish) else c
    case Unlock => if code != Ok then c else if c.writing then c.(writing := false) else c.(reading := c.reading - 1)
    case Other(_) => c
  }

  /** The callers after a step of thread t, when there are n threads. */
  function Observe(cs: seq<Client>, t: nat, op: RwOp, code: Code, n: nat): (r: seq<Client>)
    requires t < |cs| <= n
    ensures |r| == n
  {
    cs[t := Told(cs[t], op, code)] + seq(n - |cs|, _ => NEWCOMER)
  }

  ghost predicate Watches(cs: seq<Client>, w: Rw, op: RwOp, v: Rw, cs': seq<Client>) {
    && RwFollows(w, op, v) && w.co.current < |cs| <= |v.phase|
    && cs' == Observe(cs, w.co.current, op, RwNext(w, op).1, |v.phase|)
  }

  /** What the callers know all along a run, starting with nothing. */
  ghost predicate Watched(run: seq<Rw>, ops: seq<RwOp>, seen: seq<seq<Client>>) {
    && |run| == |seen| == |ops| + 1 && seen[0] == seq(|run[0].phase|, _ => NEWCOMER)
    && forall i :: 0 <= i < |ops| ==> Watches(seen[i], run[i], ops[i], run[i + 1], seen[i + 1])
  }

  // ---------------------------------------------------------------- the lock agrees

  function WishOf(p: Phase): Wish {
    match p
    case Outside => None
    case RdWait => Read
    case WrWait => Write
    case WrCond => Write
    case Writing => None
  }

  ghost predicate Agrees(cs: seq<Client>, w: Rw) {
    && |cs| == |w.phase| == |w.holds|
    && forall t :: 0 <= t < |cs| ==> cs[t] == Client(w.holds[t], w.phase[t] == Writing, WishOf(w.phase[t]))
  }

  /** A step changes what the lock has of its caller as the result tells, and nothing of others. */
  ghost predicate TellsTruth(w: Rw, op: RwOp, v: Rw, code: Code)
    requires Ids(w)
  {
    var t := w.co.current;
    && |v.phase| == |v.holds| && |w.phase| <= |v.phase|
    && (forall u :: 0 <= u < |w.phase| && u != t ==> v.phase[u] == w.phase[u] && v.holds[u] == w.holds[u])
    && (forall u :: |w.phase| <= u < |v.phase| ==> v.phase[u] == Outside && v.holds[u] == 0)
    && Client(v.holds[t], v.phase[t] == Writing, WishOf(v.phase[t])) ==
       Told(Client(w.holds[t], w.phase[t] == Writing, WishOf(w.phase[t])), op, code)
  }

  /** It is enough to say what becomes of the caller. */
  lemma TellsOf(w: Rw, op: RwOp, v: Rw, code: Code, p: Phase, h: nat)
    requires Ids(w) && v.phase == w.phase[w.co.current := p] && v.holds == w.holds[w.co.current := h]
    requires var t := w.co.current;
      Client(h, p == Writing, WishOf(p)) ==
      Told(Client(w.holds[t], w.phase[t] == Writing, WishOf(w.phase[t])), op, code)
    ensures TellsTruth(w, op, v, code)
  {
  }

  lemma RdTells(w: Rw)
    requires RwInv(w) && MayAsk(w, false)
    ensures TellsTruth(w, RdLock, RdStep(w).0, RdStep(w).1)
  {
    var (v, code) := RdStep(w);
    var t, locked := w.co.current, LockStep(w.co, w.rq).1;
    assert RwLocal(w, t);
    if locked == Switched {
      TellsOf(w, RdLock, v, code, RdWait, w.holds[t]);
    } else if locked == Ok {
      TakenInside(w);
      TakenLine(w);
      RdFinishInv(w.(co := LockStep(w.co, w.rq).0));
      TellsOf(w, RdLock, v, code, Outside, w.holds[t] + 1);
    } else {
      TellsOf(w, RdLock, v, code, w.phase[t], w.holds[t]);
    }
  }

  lemma WrTells(w: Rw)
    requires RwInv(w) && MayAsk(w, true)
    ensures TellsTruth(w, WrLock, WrStep(w).0, WrStep(w).1)
  {
    var (v, code) := WrStep(w);
    var t, locked := w.co.current, LockStep(w.co, w.rq).1;
    assert RwLocal(w, t);
    if locked == Switched {
      TellsOf(w, WrLock, v, code, WrWait, w.holds[t]);
    } else if locked == Ok {
      TakenInside(w);
      TakenLine(w);
      var inside := w.(co := LockStep(w.co, w.rq).0);
      ParkedLine(inside);
      WrResult(inside);
      TellsOf(w, WrLock, v, code, if w.readers == 0 then Writing else WrCond, w.holds[t]);
    } else {
      TellsOf(w, WrLock, v, code, w.phase[t], w.holds[t]);
    }
  }

  lemma WrResult(w: Rw)
    requires Inside(w) && (w.co.current == MAIN ==> w.readers == 0)
    ensures WrFinish(w).1 == if w.readers == 0 then Ok else Switched
  {
    if w.readers > 0 { WrParkInv(w); }
  }

  lemma WriterUnTells(w: Rw)
    requires RwInv(w) && MayUnlock(w) && w.writer == w.co.current
    ensures TellsTruth(w, Unlock, UnStep(w).0, UnStep(w).1)
  {
    assert RwLocal(w, w.co.current);
    WriterLeavesInv(w);
    TellsOf(w, Unlock, UnStep(w).0, Ok, Outside, w.holds[w.co.current]);
  }

  lemma ReaderUnTells(w: Rw)
    requires RwInv(w) && MayUnlock(w) && w.writer != w.co.current && w.readers > 0
    ensures TellsTruth(w, Unlock, UnStep(w).0, UnStep(w).1)
  {
    var t := w.co.current;
    assert RwLocal(w, t);
    UnInv(w);
    TellsOf(w, Unlock, UnStep(w).0, Ok, w.phase[t], w.holds[t] - 1);
  }

  lemma UnTells(w: Rw)
    requires RwInv(w) && MayUnlock(w)
    ensures TellsTruth(w, Unlock, UnStep(w).0, UnStep(w).1)
  {
    var t := w.co.current;
    if w.writer == t {
      WriterUnTells(w);
    } else if w.readers > 0 {
      ReaderUnTells(w);
    } else {
      TellsOf(w, Unlock, UnStep(w).0, Perm, w.phase[t], w.holds[t]);
    }
  }

  lemma LetInTells(w: Rw)
    requires RwInv(w) && w.phase[w.co.current] == RdWait
    ensures Resumable(w.co) && GoStep(w).1 == Ok && TellsTruth(w, Go, GoStep(w).0, GoStep(w).1)
  {
    HandedInside(w);
    RdFinishInv(w.(co := ResumeStep(w.co).0));
    TellsOf(w, Go, GoStep(w).0, Ok, Outside, w.holds[w.co.current] + 1);
  }

  lemma LetInWriterTells(w: Rw)
    requires RwInv(w) && w.phase[w.co.current] == WrWait
    ensures Resumable(w.co) && GoStep(w).1 == (if w.readers == 0 then Ok else Switched)
    ensures TellsTruth(w, Go, GoStep(w).0, GoStep(w).1)
  {
    HandedInside(w);
    var inside := w.(co := ResumeStep(w.co).0);
    ParkedLine(inside);
    WrResult(inside);
    var p, t := if w.readers == 0 then Writing else WrCond, w.co.current;
    TellsOf(w, Go, GoStep(w).0, GoStep(w).1, p, w.holds[t]);
  }

  lemma WokenTells(w: Rw)
    requires RwInv(w) && w.phase[w.co.current] == WrCond
    ensures Resumable(w.co) && GoStep(w).1 == Ok && w.readers == 0 && TellsTruth(w, Go, GoStep(w).0, GoStep(w).1)
  {
    var t, back := w.co.current, w.co.(doing := w.co.doing[w.co.current := User]);
    assert RwLocal(w, t) && Local(w.co, t);
    WokenWriterInv(w);
    BackInv(w.co);
    TakeAndGive(back, w.mx);
    assert GoStep(w).0 == Enter(w, Writing).(co := back);
    TellsOf(w, Go, GoStep(w).0, Ok, Writing, w.holds[t]);
  }

  lemma GoTells(w: Rw)
    requires RwInv(w) && w.phase[w.co.current] != Outside && w.phase[w.co.current] != Writing
    ensures Resumable(w.co) && TellsTruth(w, Go, GoStep(w).0, GoStep(w).1)
    ensures GoStep(w).1 == if w.phase[w.co.current] == RdWait || w.readers == 0 then Ok else Switched
  {
    match w.phase[w.co.current]
    case RdWait => LetInTells(w);
    case WrWait => LetInWriterTells(w);
    case WrCond => WokenTells(w);
  }

  lemma NextTells(w: Rw, op: RwOp)
    requires RwInv(w) && RwEnabled(w, op)
    ensures TellsTruth(w, op, RwNext(w, op).0, RwNext(w, op).1)
  {
    match op
    case RdLock => RdTells(w);
    case WrLock => WrTells(w);
    case Unlock => UnTells(w);
    case Go => GoTells(w);
    case Other(o) =>
      OtherLine(w, o);
      OtherInv(w, o);
  }

  lemma StepAgrees(cs: seq<Client>, w: Rw, op: RwOp, v: Rw, cs': seq<Client>)
    requires RwInv(w) && Agrees(cs, w) && Watches(cs, w, op, v, cs')
    ensures Agrees(cs', v)
  {
    NextTells(w, op);
  }

  ghost predicate StepsAgree(run: seq<Rw>, seen: seq<seq<Client>>) {
    && |run| == |seen| > 0 && Agrees(seen[0], run[0])
    && forall i :: 0 <= i < |run| - 1 && Agrees(seen[i], run[i]) ==> Agrees(seen[i + 1], run[i + 1])
  }

  lemma {:induction false} AllAgree(run: seq<Rw>, seen: seq<seq<Client>>, i: nat)
    requires StepsAgree(run, seen) && i < |run|
    ensures Agrees(seen[i], run[i])
  {
    if i > 0 {
      AllAgree(run, seen, i - 1);
      assert Agrees(seen[i - 1 + 1], run[i - 1 + 1]);
    }
  }

  /** In every run what the callers know is what the lock has recorded. */
  lemma RunAgrees(run: seq<Rw>, ops: seq<RwOp>, seen: seq<seq<Client>>, i: nat)
    requires RwRun(run, ops) && Watched(run, ops, seen) && i < |run|
    ensures RwInv(run[i]) && Agrees(seen[i], run[i])
  {
    forall k | 0 <= k < |run| - 1 && Agrees(seen[k], run[k]) ensures Agrees(seen[k + 1], run[k + 1]) {
      RwRunInv(run, ops, k);
      assert Watches(seen[k], run[k], ops[k], run[k + 1], seen[k + 1]);
      StepAgrees(seen[k], run[k], ops[k], run[k + 1], seen[k + 1]);
    }
    AllAgree(run, seen, i);
    RwRunInv(run, ops, i);
  }

  /** Every run can be watched. */
  lemma {:induction false} Watching(run: seq<Rw>, ops: seq<RwOp>) returns (seen: seq<seq<Client>>)
    requires RwRun(run, ops)
    ensures Watched(run, ops, seen)
    decreases |ops|
  {
    var n := |ops|;
    if n == 0 {
      seen := [seq(|run[0].phase|, _ => NEWCOMER)];
    } else {
      FrontRun(run, ops);
      var before := Watching(run[..n], ops[..n - 1]);
      RunAgrees(run[..n], ops[..n - 1], before, n - 1);
      var last := WatchOne(before[n - 1], run[n - 1], ops[n - 1], run[n]);
      WatchedMore(run, ops, before, last);
      seen := before + [last];
    }
  }

  lemma FrontRun(run: seq<Rw>, ops: seq<RwOp>)
    requires RwRun(run, ops) && ops != []
    ensures RwRun(run[..|ops|], ops[..|ops| - 1]) && RwFollows(run[|ops| - 1], ops[|ops| - 1], run[|ops|])
  {
    assert run[|ops| - 1 + 1] == run[|ops|];
  }

  lemma WatchOne(cs: seq<Client>, w: Rw, op: RwOp, v: Rw) returns (cs': seq<Client>)
    requires RwInv(w) && Agrees(cs, w) && RwFollows(w, op, v)
    ensures Watches(cs, w, op, v, cs')
  {
    NextTells(w, op);
    cs' := Observe(cs, w.co.current, op, RwNext(w, op).1, |v.phase|);
  }

  lemma WatchedMore(run: seq<Rw>, ops: seq<RwOp>, before: seq<seq<Client>>, last: seq<Client>)
    requires |run| == |ops| + 1 && ops != [] && Watched(run[..|ops|], ops[..|ops| - 1], before)
    requires Watches(before[|ops| - 1], run[|ops| - 1], ops[|ops| - 1], run[|ops|], last)
    ensures Watched(run, ops, before + [last])
  {
    var seen, n := before + [last], |ops|;
    forall i | 0 <= i < n ensures Watches(seen[i], run[i], ops[i], run[i + 1], seen[i + 1]) {
      if i < n - 1 {
        assert Watches(before[i], run[..n][i], ops[..n - 1][i], run[..n][i + 1], before[i + 1]);
      }
    }
  }

  // ---------------------------------------------------------------- what follows for callers

  /** Nobody has the lock for writing or waits in a request. */
  ghost predicate Quiet(cs: seq<Client>) {
    forall u :: 0 <= u < |cs| ==> !cs[u].writing && cs[u].wish == None
  }

  ghost predicate Unread(cs: seq<Client>) {
    forall u :: 0 <= u < |cs| ==> cs[u].reading == 0
  }

  /** Exclusion as callers see it: a thread whose write request has returned 0, and that has not
      unlocked since, is alone. Nobody else's has, and every read request that returned 0 has been
      unlocked since. */
  lemma CallersExclude(run: seq<Rw>, ops: seq<RwOp>, seen: seq<seq<Client>>, i: nat, t: nat, u: nat)
    requires RwRun(run, ops) && Watched(run, ops, seen) && i < |run| && t < |seen[i]| && u < |seen[i]|
    ensures seen[i][u].reading >= 0
    ensures seen[i][t].writing ==> seen[i][u].reading == 0 && (u != t ==> !seen[i][u].writing)
  {
    RunAgrees(run, ops, seen, i);
    WriterExcludes(run, ops, i, t, u);
  }

  lemma AgreesQuiet(cs: seq<Client>, w: Rw)
    requires RwInv(w) && Agrees(cs, w)
    ensures (Quiet(cs) <==> w.co.owner[w.rq] == Nil) && (Unread(cs) <==> w.readers == 0)
  {
    var l := LineOf(w);
    LineInv(w);
    if l.owner == Nil {
      forall u | 0 <= u < |cs| ensures !cs[u].writing && cs[u].wish == None { assert PhaseOk(l, u); }
    } else {
      assert PhaseOk(l, l.owner) && 0 <= l.owner < |cs|;
      assert cs[l.owner].writing || cs[l.owner].wish != None;
    }
    assert forall u :: 0 <= u < |cs| ==> cs[u].reading == l.holds[u];
  }

  /** The result of every call, as a function of what the callers know: a read request is granted at
      once exactly if nobody writes and nobody waits; a write request if moreover nobody reads; either
      is refused exactly if the caller has the lock for writing. A suspended read request that goes on
      is granted, a write request exactly if nobody reads any more. Unlocking fails exactly for a caller
      that has nothing. */
  lemma Results(run: seq<Rw>, ops: seq<RwOp>, seen: seq<seq<Client>>, i: nat)
    requires RwRun(run, ops) && Watched(run, ops, seen) && i < |ops|
    ensures RwFollows(run[i], ops[i], run[i + 1]) && run[i].co.current < |seen[i]|
    ensures var cs, me, code := seen[i], seen[i][run[i].co.current], RwNext(run[i], ops[i]).1;
      match ops[i]
      case RdLock => code == if Quiet(cs) then Ok else if me.writing then Deadlk else Switched
      case WrLock => code == if Quiet(cs) && Unread(cs) then Ok else if me.writing then Deadlk else Switched
      case Go => code == if me.wish == Read || Unread(cs) then Ok else Switched
      case Unlock => code == if me.writing || me.reading > 0 then Ok else Perm
      case Other(_) => true
  {
    RunAgrees(run, ops, seen, i);
    AgreesQuiet(seen[i], run[i]);
    assert Watches(seen[i], run[i], ops[i], run[i + 1], seen[i + 1]);
    match ops[i]
    case RdLock => RdResult(run[i]);
    case WrLock => WrLockResult(run[i]);
    case Go => GoTells(run[i]);
    case Unlock => UnResult(run[i]);
    case Other(_) =>
  }

  lemma RdResult(w: Rw)
    requires RwInv(w) && MayAsk(w, false)
    ensures RdStep(w).1 ==
            if w.co.owner[w.rq] == Nil then Ok else if w.phase[w.co.current] == Writing then Deadlk else Switched
  {
    assert RwLocal(w, w.co.current);
    if LockStep(w.co, w.rq).1 == Ok {
      TakenInside(w);
      RdFinishInv(w.(co := LockStep(w.co, w.rq).0));
    }
  }

  lemma WrLockResult(w: Rw)
    requires RwInv(w) && MayAsk(w, true)
    ensures WrStep(w).1 ==
            if w.co.owner[w.rq] == Nil && w.readers == 0 then Ok
            else if w.phase[w.co.current] == Writing then Deadlk else Switched
  {
    assert RwLocal(w, w.co.current);
    if LockStep(w.co, w.rq).1 == Ok {
      TakenInside(w);
      WrResult(w.(co := LockStep(w.co, w.rq).0));
    }
  }

  lemma UnResult(w: Rw)
    requires RwInv(w) && MayUnlock(w)
    ensures UnStep(w).1 == if w.phase[w.co.current] == Writing || w.holds[w.co.current] > 0 then Ok else Perm
  {
    assert RwLocal(w, w.co.current);
    UnInv(w);
    SumPositive(w.holds);
  }
}
