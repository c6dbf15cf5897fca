/** What the loss of the session that holds the advisory lock does to exclusive execution. */
module BatchJobsSessions {
  import opened Common
  import opened BatchJobEntity
  import opened BatchJobs
  import opened BatchJobsSafety
  import opened BatchJobsTheorems

  ghost predicate Charged(s: State, w: WorkerId) {
    w in s.workers && InCharge(s.workers[w].pc)
  }

  ghost predicate TwoInCharge(s: State) {
    exists w, v :: w != v && Charged(s, w) && Charged(s, v)
  }

  // ---------- who holds the lock ----------

  lemma {:induction false} HolderAfterMove(s: State, act: Action)
    requires HolderInCharge(s) && Enabled(s, act) && OnlyMovesWorker(act)
    ensures HolderInCharge(Next(s, act))
  {
  }

  lemma {:induction false} HolderAfterOthers(s: State, act: Action)
    requires HolderInCharge(s) && Enabled(s, act) && !OnlyMovesWorker(act)
    ensures HolderInCharge(Next(s, act))
  {
  }

  lemma {:induction false} HolderStaysInCharge(states: seq<State>, acts: seq<Action>, k: nat)
    requires IsRun(states, acts) && Init(states[0]) && k < |states|
    ensures HolderInCharge(states[k])
  {
    if k > 0 {
      HolderStaysInCharge(states, acts, k - 1);
      if OnlyMovesWorker(acts[k - 1]) {
        HolderAfterMove(states[k - 1], acts[k - 1]);
      } else {
        HolderAfterOthers(states[k - 1], acts[k - 1]);
      }
    }
  }

  /** The worker's session was lost while it held the lock. */
  ghost predicate LostBefore(states: seq<State>, acts: seq<Action>, k: nat, w: WorkerId)
    requires k <= |acts| < |states|
  {
    exists j :: 0 <= j < k && acts[j].LoseSession? && states[j].lock == HeldBy(w)
  }

  lemma {:induction false} AcquiredStays(s: State, act: Action, w: WorkerId)
    requires Enabled(s, act) && w in s.workers && s.workers[w].acquired
    ensures w in Next(s, act).workers && Next(s, act).workers[w].acquired
  {
  }

  lemma {:induction false} LosersAcquired(states: seq<State>, acts: seq<Action>, k: nat, w: WorkerId)
    requires IsRun(states, acts) && Init(states[0]) && k < |states| && LostBefore(states, acts, k, w)
    ensures w in states[k].workers && states[k].workers[w].acquired
  {
    RunKeepsInv(states, acts, k - 1);
    if LostBefore(states, acts, k - 1, w) {
      LosersAcquired(states, acts, k - 1, w);
    } else {
      HolderStaysInCharge(states, acts, k - 1);
      assert ReleasesOnce(states[k - 1].workers[w]);
    }
    AcquiredStays(states[k - 1], acts[k - 1], w);
  }

  /** Who comes to be in charge acquires the lock, and who stays in charge keeps it unless its
      session is lost. */
  lemma {:induction false} ChargeAndLock(s: State, act: Action, w: WorkerId)
    requires Enabled(s, act) && Charged(Next(s, act), w)
    ensures !Charged(s, w) ==>
      && w in s.workers && s.workers[w].pc.Acquiring? && Next(s, act).lock == HeldBy(w)
      && !act.LoseSession?
    ensures Charged(s, w) ==>
      (Next(s, act).lock == HeldBy(w) <==> s.lock == HeldBy(w) && !act.LoseSession?)
  {
  }

  /** A worker in charge no longer holds the lock exactly if its session was lost. */
  lemma {:induction false} LostIff(states: seq<State>, acts: seq<Action>, k: nat, w: WorkerId)
    requires IsRun(states, acts) && Init(states[0]) && k < |states| && Charged(states[k], w)
    ensures states[k].lock != HeldBy(w) <==> LostBefore(states, acts, k, w)
  {
    if k > 0 {
      var s, act := states[k - 1], acts[k - 1];
      RunKeepsInv(states, acts, k - 1);
      ChargeAndLock(s, act, w);
      if Charged(s, w) {
        LostIff(states, acts, k - 1, w);
      } else {
        assert ReleasesOnce(s.workers[w]);
        if LostBefore(states, acts, k - 1, w) {
          LosersAcquired(states, acts, k - 1, w);
        }
      }
      assert LostBefore(states, acts, k, w)
        <==> LostBefore(states, acts, k - 1, w) || (act.LoseSession? && s.lock == HeldBy(w));
    }
  }

  // ---------- how another worker gets in ----------

  lemma {:induction false} Fresh(used: set<nat>) returns (n: nat)
    ensures n !in used
  {
    n := 0;
    ghost var below: set<nat> := {};
    while n in used
      invariant below <= used && forall m: nat :: m in below <==> m < n
      decreases used - below
    {
      below := below + {n};
      n := n + 1;
    }
  }

  /** From a free lock, a process that starts a command-line run gets it. */
  lemma {:induction false} GetsIn(s: State, p: ProcId, u: WorkerId)
    returns (states: seq<State>, acts: seq<Action>)
    requires s.lock == Free && p !in s.procs && u !in s.workers
    ensures acts == [Boot(p), Arrive(u, p, Cli), PassGate(u), TryAcquire(u, false)]
    ensures IsRun(states, acts) && states[0] == s
    ensures var end := states[|acts|];
      && end.lock == HeldBy(u) && end.procs.Keys == s.procs.Keys + {p}
      && end.workers == s.workers[u := Worker(p, Cli, FindingOrphans, true, 0)]
  {
    acts := [Boot(p), Arrive(u, p, Cli), PassGate(u), TryAcquire(u, false)];
    var s1 := Next(s, acts[0]);
    var s2 := Next(s1, acts[1]);
    var s3 := Next(s2, acts[2]);
    assert s3.workers == s.workers[u := Worker(p, Cli, Acquiring, false, 0)];
    var s4 := Next(s3, acts[3]);
    states := [s, s1, s2, s3, s4];
  }

  lemma {:induction false} Joined(s1: seq<State>, a1: seq<Action>, s2: seq<State>, a2: seq<Action>)
    requires IsRun(s1, a1) && IsRun(s2, a2) && s1[|a1|] == s2[0]
    ensures IsRun(s1 + s2[1..], a1 + a2) && (s1 + s2[1..])[0] == s1[0]
    ensures (s1 + s2[1..])[|a1 + a2|] == s2[|a2|]
  {
    var states, acts := s1 + s2[1..], a1 + a2;
    forall k | 0 <= k < |acts| ensures Enabled(states[k], acts[k]) && states[k + 1] == Next(states[k], acts[k]) {
      if k < |a1| {
        assert states[k + 1] == s1[k + 1];
      } else {
        assert states[k] == s2[k - |a1|] && states[k + 1] == s2[k + 1 - |a1|];
      }
    }
  }

  /** The run can go on, without losing another session, until two workers are in charge. */
  ghost predicate CanBeShared(s: State) {
    exists states, acts ::
      IsRun(states, acts) && states[0] == s && SessionsLive(acts) && TwoInCharge(states[|acts|])
  }

  lemma {:induction false} ChargeAlong(states: seq<State>, acts: seq<Action>, k: nat)
    requires IsRun(states, acts) && ChargeOk(states[0]) && SessionsLive(acts) && k < |states|
    ensures ChargeOk(states[k])
  {
    if k > 0 {
      ChargeAlong(states, acts, k - 1);
      ChargeAfter(states[k - 1], acts[k - 1]);
    }
  }

  lemma {:induction false} SharedFromFree(s: State, w: WorkerId)
    requires Charged(s, w) && s.lock == Free
    ensures CanBeShared(s)
  {
    var p := Fresh(s.procs.Keys);
    var u := Fresh(s.workers.Keys);
    var states, acts := GetsIn(s, p, u);
    var end := states[|acts|];
    assert Charged(end, u) && Charged(end, w);
  }

  lemma {:induction false} LeftAloneCanBeShared(s: State, w: WorkerId)
    requires HolderInCharge(s) && Charged(s, w) && s.lock != HeldBy(w)
    ensures CanBeShared(s)
  {
    match s.lock
    case HeldBy(v) =>
      assert Charged(s, v);
      assert IsRun([s], []);
    case Free =>
      SharedFromFree(s, w);
    case Stranded =>
      var s1 := Next(s, SessionEnds);
      assert Charged(s1, w);
      SharedFromFree(s1, w);
      var states, acts :| IsRun(states, acts) && states[0] == s1 && SessionsLive(acts) && TwoInCharge(states[|acts|]);
      Joined([s, s1], [SessionEnds], states, acts);
  }

  /** In every reachable state: two workers can come to be in charge, with no further session
      lost, exactly if a worker in charge no longer holds the lock. */
  lemma {:induction false} SharedIffLeftAlone(states: seq<State>, acts: seq<Action>, k: nat)
    requires IsRun(states, acts) && Init(states[0]) && k < |states|
    ensures CanBeShared(states[k]) <==> exists w :: Charged(states[k], w) && states[k].lock != HeldBy(w)
  {
    var s := states[k];
    HolderStaysInCharge(states, acts, k);
    if w :| Charged(s, w) && s.lock != HeldBy(w) {
      LeftAloneCanBeShared(s, w);
    } else if CanBeShared(s) {
      var further, more :|
        IsRun(further, more) && further[0] == s && SessionsLive(more) && TwoInCharge(further[|more|]);
      ChargeAlong(further, more, |more|);
      assert false;
    }
  }

  /** That is, exactly if a session was lost while its worker held the lock, and that worker is
      still in charge. */
  lemma {:induction false} SharedIffLost(states: seq<State>, acts: seq<Action>, k: nat)
    requires IsRun(states, acts) && Init(states[0]) && k < |states|
    ensures CanBeShared(states[k]) <==> exists w :: Charged(states[k], w) && LostBefore(states, acts, k, w)
  {
    SharedIffLeftAlone(states, acts, k);
    forall w | Charged(states[k], w)
      ensures states[k].lock != HeldBy(w) <==> LostBefore(states, acts, k, w)
    {
      LostIff(states, acts, k, w);
    }
  }

  /** From any initial state: one process runs a batch and loses its session, then another one
      gets the lock, and both are in charge. */
  lemma {:induction false} LostSessionRun(s: State) returns (states: seq<State>, acts: seq<Action>)
    requires Init(s)
    ensures acts == [Boot(0), Arrive(0, 0, Cli), PassGate(0), TryAcquire(0, false), LoseSession,
                     Boot(1), Arrive(1, 1, Cli), PassGate(1), TryAcquire(1, false)]
    ensures IsRun(states, acts) && states[0] == s
    ensures Charged(states[9], 0) && Charged(states[9], 1) && TwoInCharge(states[9])
  {
    var states1, acts1 := GetsIn(s, 0, 0);
    var held := states1[|acts1|];
    var lost := Next(held, LoseSession);
    Joined(states1, acts1, [held, lost], [LoseSession]);
    var states2, acts2 := GetsIn(lost, 1, 1);
    var first := states1 + [held, lost][1..];
    Joined(first, acts1 + [LoseSession], states2, acts2);
    states, acts := first + states2[1..], acts1 + [LoseSession] + acts2;
    assert Charged(states[9], 0) && Charged(states[9], 1);
  }
}
