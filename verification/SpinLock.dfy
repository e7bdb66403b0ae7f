/** shared_spinlock: one atomic long that any number of threads load, compare-and-swap, store and
    decrement. A run is any interleaving of those atomic steps, with compare-and-swap allowed to
    fail for no reason. */
module SpinLock {
  import opened Sequences

  const LONG_MIN: int := -0x8000_0000_0000_0000
  const LONG_MAX: int := 0x7FFF_FFFF_FFFF_FFFF

  /** The four acquiring calls; lock_upgrade is lock_shared under another name. */
  datatype Op = Lock | TryLock | LockShared | TryLockShared

  /** Where a thread is inside a call: about to load the flag, or holding a loaded value. */
  datatype Pc = Idle | Loading(op: Op) | Have(op: Op, v: int)

  /** A thread and how often it holds the lock in either mode. */
  datatype Thread = Thread(pc: Pc, shared: nat, exclusive: nat)

  datatype State = State(flag: int, threads: seq<Thread>)

  datatype Act = Start(op: Op) | Load | Retry | Cas(spurious: bool) | Unlock | UnlockShared

  predicate Exclusive(op: Op) { op == Lock || op == TryLock }

  predicate Loops(op: Op) { op == Lock || op == LockShared }

  /** The loaded value says that the lock cannot be had now. */
  predicate Blocked(op: Op, v: int) {
    if Exclusive(op) then v != 0 else v < 0
  }

  function Desired(op: Op, v: int): int {
    if Exclusive(op) then LONG_MIN else if v == LONG_MAX then LONG_MIN else v + 1
  }

  /** The next pc after a failed test or swap that saw `flag`: the loops go on, the try forms give up. */
  function Failed(op: Op, flag: int): Pc {
    if Loops(op) then Have(op, flag) else Idle
  }

  /** The steps a well-behaved thread may take: it releases only what it holds. */
  predicate Enabled(th: Thread, a: Act) {
    match a
    case Start(_) => th.pc.Idle?
    case Load => th.pc.Loading?
    case Retry => th.pc.Have? && Blocked(th.pc.op, th.pc.v)
    case Cas(_) => th.pc.Have? && !Blocked(th.pc.op, th.pc.v)
    case Unlock => th.pc.Idle? && th.exclusive > 0
    case UnlockShared => th.pc.Idle? && th.shared > 0
  }

  predicate Swaps(flag: int, th: Thread, a: Act) {
    a == Cas(false) && th.pc.Have? && flag == th.pc.v
  }

  function Holding(th: Thread, op: Op): Thread {
    if Exclusive(op) then Thread(Idle, th.shared, th.exclusive + 1) else Thread(Idle, th.shared + 1, th.exclusive)
  }

  function ThreadAfter(flag: int, th: Thread, a: Act): Thread
    requires Enabled(th, a)
  {
    match a
    case Start(op) => th.(pc := Loading(op))
    case Load => th.(pc := Have(th.pc.op, flag))
    case Retry => th.(pc := Failed(th.pc.op, flag))
    case Cas(_) => if Swaps(flag, th, a) then Holding(th, th.pc.op) else th.(pc := Failed(th.pc.op, flag))
    case Unlock => th.(exclusive := th.exclusive - 1)
    case UnlockShared => th.(shared := th.shared - 1)
  }

  function FlagAfter(flag: int, th: Thread, a: Act): int
    requires Enabled(th, a)
  {
    match a
    case Cas(_) => if Swaps(flag, th, a) then Desired(th.pc.op, th.pc.v) else flag
    case Unlock => 0
    case UnlockShared => if flag == LONG_MIN then LONG_MAX else flag - 1
    case _ => flag
  }

  /** One atomic step of thread t. */
  predicate CanStep(s: State, t: nat, a: Act) {
    t < |s.threads| && Enabled(s.threads[t], a)
  }

  function Step(s: State, t: nat, a: Act): State
    requires CanStep(s, t, a)
  {
    State(FlagAfter(s.flag, s.threads[t], a), s.threads[t := ThreadAfter(s.flag, s.threads[t], a)])
  }

  // ---------------------------------------------------------------- who holds the lock

  function Readers(ts: seq<Thread>): nat {
    if ts == [] then 0 else ts[0].shared + Readers(ts[1..])
  }

  function Writers(ts: seq<Thread>): nat {
    if ts == [] then 0 else ts[0].exclusive + Writers(ts[1..])
  }

  lemma {:induction false} HoldersUpdate(ts: seq<Thread>, t: nat, th: Thread)
    requires t < |ts|
    ensures Readers(ts[t := th]) == Readers(ts) - ts[t].shared + th.shared
    ensures Writers(ts[t := th]) == Writers(ts) - ts[t].exclusive + th.exclusive
  {
    if t == 0 {
      assert ts[0 := th][1..] == ts[1..];
    } else {
      assert ts[t := th][1..] == ts[1..][t - 1 := th];
      HoldersUpdate(ts[1..], t - 1, th);
    }
  }

  lemma {:induction false} HoldersBound(ts: seq<Thread>, t: nat)
    requires t < |ts|
    ensures ts[t].shared <= Readers(ts) && ts[t].exclusive <= Writers(ts)
  {
    if t > 0 { HoldersBound(ts[1..], t - 1); }
  }

  lemma {:induction false} TwoHolders(ts: seq<Thread>, t: nat, u: nat)
    requires t < u < |ts|
    ensures ts[t].exclusive + ts[u].exclusive <= Writers(ts)
  {
    if t > 0 { TwoHolders(ts[1..], t - 1, u - 1); } else { HoldersBound(ts[1..], u - 1); }
  }

  /** The flag tells exactly who holds the lock: LONG_MIN means one writer and no reader, anything
      else is the number of readers, and then there is no writer. */
  ghost predicate Accurate(s: State) {
    || (s.flag == LONG_MIN && Writers(s.threads) == 1 && Readers(s.threads) == 0)
    || (0 <= s.flag <= LONG_MAX && s.flag == Readers(s.threads) && Writers(s.threads) == 0)
  }

  /** A reader is admitted although the count is already the largest long. */
  predicate Overflows(s: State, t: nat, a: Act)
    requires CanStep(s, t, a)
  {
    s.flag == LONG_MAX && Swaps(s.flag, s.threads[t], a)
  }

  /** Every step keeps the flag accurate, except exactly the one that counts past LONG_MAX. */
  lemma StepAccurate(s: State, t: nat, a: Act)
    requires Accurate(s) && CanStep(s, t, a)
    ensures Accurate(Step(s, t, a)) <==> !Overflows(s, t, a)
  {
    HoldersUpdate(s.threads, t, ThreadAfter(s.flag, s.threads[t], a));
    HoldersBound(s.threads, t);
  }

  // ---------------------------------------------------------------- whole runs

  /** A schedule: which thread takes which step. */
  type Schedule = seq<(nat, Act)>

  /** The schedule can be followed from s. */
  ghost predicate Follows(s: State, run: Schedule)
    decreases |run|
  {
    run == [] || (CanStep(s, run[0].0, run[0].1) && Follows(Step(s, run[0].0, run[0].1), run[1..]))
  }

  ghost function After(s: State, run: Schedule): (r: State)
    requires Follows(s, run)
    ensures |r.threads| == |s.threads|
    decreases |run|
  {
    if run == [] then s else After(Step(s, run[0].0, run[0].1), run[1..])
  }

  /** The reader count never leaves the range of a long. */
  ghost predicate Counted(s: State, run: Schedule)
    requires Follows(s, run)
    decreases |run|
  {
    run == [] || (!Overflows(s, run[0].0, run[0].1) && Counted(Step(s, run[0].0, run[0].1), run[1..]))
  }

  /** The flag is accurate at every point of the run. */
  ghost predicate AlwaysAccurate(s: State, run: Schedule)
    requires Follows(s, run)
    decreases |run|
  {
    Accurate(s) && (run == [] || AlwaysAccurate(Step(s, run[0].0, run[0].1), run[1..]))
  }

  /** The lock as constructed, with any number of threads that hold nothing. */
  ghost predicate Initial(s: State) {
    s.flag == 0 && forall i :: 0 <= i < |s.threads| ==> s.threads[i] == Thread(Idle, 0, 0)
  }

  lemma {:induction false} NobodyHolds(ts: seq<Thread>)
    requires forall i :: 0 <= i < |ts| ==> ts[i] == Thread(Idle, 0, 0)
    ensures Readers(ts) == 0 && Writers(ts) == 0
  {
    if ts != [] {
      assert forall i :: 0 <= i < |ts[1..]| ==> ts[1..][i] == ts[i + 1];
      NobodyHolds(ts[1..]);
    }
  }

  lemma {:induction false} RunAccurate(s: State, run: Schedule)
    requires Accurate(s) && Follows(s, run)
    ensures AlwaysAccurate(s, run) <==> Counted(s, run)
    ensures Counted(s, run) ==> Accurate(After(s, run))
    decreases |run|
  {
    if run != [] {
      StepAccurate(s, run[0].0, run[0].1);
      var s1 := Step(s, run[0].0, run[0].1);
      if Accurate(s1) { RunAccurate(s1, run[1..]); }
    }
  }

  /** From the fresh lock on, every interleaving keeps the flag accurate throughout, exactly as long
      as no reader is admitted on top of LONG_MAX others. */
  lemma EveryRunAccurate(s: State, run: Schedule)
    requires Initial(s) && Follows(s, run)
    ensures AlwaysAccurate(s, run) <==> Counted(s, run)
    ensures Counted(s, run) ==> Accurate(After(s, run))
  {
    NobodyHolds(s.threads);
    RunAccurate(s, run);
  }

  /** Mutual exclusion: a thread that holds the lock exclusively is alone with it, and holds it once. */
  lemma MutualExclusion(s: State, run: Schedule, t: nat, u: nat)
    requires Initial(s) && Follows(s, run) && Counted(s, run) && t < |s.threads| && u < |s.threads| && t != u
    requires After(s, run).threads[t].exclusive > 0
    ensures After(s, run).threads[t].exclusive == 1 && After(s, run).threads[t].shared == 0
    ensures After(s, run).threads[u].exclusive == 0 && After(s, run).threads[u].shared == 0
  {
    EveryRunAccurate(s, run);
    var ts := After(s, run).threads;
    HoldersBound(ts, t);
    HoldersBound(ts, u);
    if t < u { TwoHolders(ts, t, u); } else { TwoHolders(ts, u, t); }
  }

  lemma {:induction false} FollowsParts(s: State, a: Schedule, b: Schedule)
    requires Follows(s, a + b)
    ensures Follows(s, a) && Follows(After(s, a), b) && After(s, a + b) == After(After(s, a), b)
    decreases |a|
  {
    if a == [] {
      assert a + b == b;
    } else {
      assert (a + b)[1..] == a[1..] + b;
      FollowsParts(Step(s, a[0].0, a[0].1), a[1..], b);
    }
  }

  /** A thread that takes no step keeps what it holds. */
  lemma {:induction false} OthersKeep(s: State, run: Schedule, t: nat)
    requires Follows(s, run) && t < |s.threads| && forall i :: 0 <= i < |run| ==> run[i].0 != t
    ensures After(s, run).threads[t] == s.threads[t]
    decreases |run|
  {
    if run != [] {
      assert forall i :: 0 <= i < |run[1..]| ==> run[1..][i] == run[i + 1];
      assert run[0].0 != t;
      OthersKeep(Step(s, run[0].0, run[0].1), run[1..], t);
    }
  }

  /** A stretch of a run without a step of a reader: no thread is a writer at its end, whatever the others did. */
  lemma ReaderShutsWritersOut(s: State, before: Schedule, during: Schedule, t: nat, u: nat)
    requires Initial(s) && Follows(s, before + during) && Counted(s, before + during) && t < |s.threads|
      && u < |s.threads|
    requires Follows(s, before) && After(s, before).threads[t].shared > 0
    requires forall i :: 0 <= i < |during| ==> during[i].0 != t
    ensures After(s, before + during).threads[u].exclusive == 0
  {
    FollowsParts(s, before, during);
    OthersKeep(After(s, before), during, t);
    EveryRunAccurate(s, before + during);
    HoldersBound(After(s, before + during).threads, t);
    HoldersBound(After(s, before + during).threads, u);
  }

  // ---------------------------------------------------------------- what upgrading does not give

  /** unlock_upgrade_and_lock is a release followed by a fresh lock. Thread t releases its shared lock after
      `before`; in `during` it is on its way to the exclusive one and has not got it, and at the end another
      thread u is the writer. */
  ghost predicate Overtaken(s: State, before: Schedule, during: Schedule, t: nat, u: nat) {
    && Follows(s, Upgrade(before, t, during)) && t < |s.threads| && u < |s.threads| && t != u
    && (forall i :: 0 <= i < |during| && during[i].0 == t ==> during[i].1 == Start(Lock) || !during[i].1.Start?)
    && After(s, Upgrade(before, t, during)).threads[t].exclusive == 0
    && After(s, Upgrade(before, t, during)).threads[u].exclusive > 0
  }

  function Upgrade(before: Schedule, t: nat, during: Schedule): Schedule {
    before + ([(t, UnlockShared)] + during)
  }

  /** Of the other threads, only those in w ask for the exclusive lock. */
  ghost predicate OnlyWriters(run: Schedule, t: nat, w: set<nat>) {
    forall i :: 0 <= i < |run| && run[i].0 != t && run[i].1.Start? && Exclusive(run[i].1.op) ==> run[i].0 in w
  }

  /** There is a run in which the upgrade of t is overtaken and only threads in w ask for the exclusive lock. */
  ghost predicate CanBeOvertaken(s: State, t: nat, w: set<nat>) {
    exists before, during, u ::
      Overtaken(s, before, during, t, u) && OnlyWriters(Upgrade(before, t, during), t, w)
  }

  /** An upgrade can be overtaken exactly if some other thread may ask for the exclusive lock. */
  lemma OvertakenIff(s: State, t: nat, w: set<nat>)
    requires Initial(s) && t < |s.threads|
    ensures CanBeOvertaken(s, t, w) <==> exists u: nat :: u in w && u != t && u < |s.threads|
  {
    if before, during, u :| Overtaken(s, before, during, t, u) && OnlyWriters(Upgrade(before, t, during), t, w) {
      var run := Upgrade(before, t, during);
      if u !in w {
        assert forall i :: 0 <= i < |run| && run[i].0 == u ==> !(run[i].1.Start? && Exclusive(run[i].1.op));
        NeverWriter(s, run, u);
      }
    }
    if u: nat :| u in w && u != t && u < |s.threads| {
      var before, during := OvertakingRun(s, t, u);
    }
  }

  /** With every thread free to ask for it, that is any lock shared by two threads. */
  lemma UpgradeCanBeOvertaken(s: State)
    requires Initial(s)
    ensures (exists before, during, t, u :: Overtaken(s, before, during, t, u)) <==> |s.threads| >= 2
  {
    if |s.threads| >= 2 {
      var before, during := OvertakingRun(s, 0, 1);
    }
  }

  /** The overtaker was not a writer at the release: it came in between. */
  lemma OvertakenBetween(s: State, before: Schedule, during: Schedule, t: nat, u: nat)
    requires Initial(s) && Overtaken(s, before, during, t, u) && Counted(s, Upgrade(before, t, during))
    ensures Follows(s, before) && After(s, before).threads[u].exclusive == 0 && After(s, before).threads[t].shared > 0
  {
    FollowsParts(s, before, [(t, UnlockShared)] + during);
    CountedParts(s, before, [(t, UnlockShared)] + during);
    EveryRunAccurate(s, before);
    HoldersBound(After(s, before).threads, t);
    HoldersBound(After(s, before).threads, u);
  }

  lemma {:induction false} CountedParts(s: State, a: Schedule, b: Schedule)
    requires Follows(s, a + b) && Counted(s, a + b)
    ensures Follows(s, a) && Counted(s, a)
    decreases |a|
  {
    if a != [] {
      assert (a + b)[1..] == a[1..] + b;
      CountedParts(Step(s, a[0].0, a[0].1), a[1..], b);
    }
  }

  /** A thread is not inside an exclusive call and holds nothing exclusively. */
  predicate NoWriter(th: Thread) {
    th.exclusive == 0 && (th.pc.Idle? || !Exclusive(th.pc.op))
  }

  /** A thread that never starts an exclusive call never becomes the writer. */
  lemma {:induction false} NeverWriter(s: State, run: Schedule, u: nat)
    requires Follows(s, run) && u < |s.threads| && NoWriter(s.threads[u])
    requires forall i :: 0 <= i < |run| && run[i].0 == u ==> !(run[i].1.Start? && Exclusive(run[i].1.op))
    ensures After(s, run).threads[u].exclusive == 0
    decreases |run|
  {
    if run != [] {
      assert forall i :: 0 <= i < |run[1..]| ==> run[1..][i] == run[i + 1];
      NeverWriter(Step(s, run[0].0, run[0].1), run[1..], u);
    }
  }

  lemma {:induction false} FollowsJoin(s: State, a: Schedule, b: Schedule)
    requires Follows(s, a) && Follows(After(s, a), b)
    ensures Follows(s, a + b) && After(s, a + b) == After(After(s, a), b)
    decreases |a|
  {
    if a == [] {
      assert a + b == b;
    } else {
      assert (a + b)[1..] == a[1..] + b;
      FollowsJoin(Step(s, a[0].0, a[0].1), a[1..], b);
    }
  }

  lemma OneStep(s: State, t: nat, a: Act)
    requires CanStep(s, t, a)
    ensures Follows(s, [(t, a)]) && After(s, [(t, a)]) == Step(s, t, a)
  {
    assert [(t, a)][1..] == [];
  }

  function Acquiring(t: nat, op: Op): Schedule { [(t, Start(op)), (t, Load), (t, Cas(false))] }

  /** The lock can be had: nobody has it for an exclusive call, only readers have it for a shared one, and they can
      still be counted. */
  predicate Free(flag: int, op: Op) {
    match op
    case Lock => flag == 0
    case TryLock => flag == 0
    case LockShared => 0 <= flag < LONG_MAX
    case TryLockShared => 0 <= flag < LONG_MAX
  }

  /** The flag when it has been had. */
  function Taken(flag: int, op: Op): int {
    match op
    case Lock => LONG_MIN
    case TryLock => LONG_MIN
    case LockShared => flag + 1
    case TryLockShared => flag + 1
  }

  /** The thread holds the lock once more in the mode it asked for, and is done with the call. */
  predicate GotIt(th: Thread, th': Thread, op: Op) {
    && th'.pc == Idle
    && th'.exclusive == th.exclusive + (if op == Lock || op == TryLock then 1 else 0)
    && th'.shared == th.shared + (if op == LockShared || op == TryLockShared then 1 else 0)
  }

  /** After these steps only thread t and the flag have changed: it got the lock. */
  ghost predicate Got(s: State, run: Schedule, t: nat, op: Op) {
    && Follows(s, run) && t < |s.threads| && After(s, run).flag == Taken(s.flag, op)
    && GotIt(s.threads[t], After(s, run).threads[t], op)
    && forall u :: 0 <= u < |s.threads| && u != t ==> After(s, run).threads[u] == s.threads[u]
  }

  /** A thread that nobody disturbs gets a lock that can be had, whatever number of readers have it. */
  lemma Acquires(s: State, t: nat, op: Op)
    requires t < |s.threads| && s.threads[t].pc.Idle? && Free(s.flag, op)
    ensures Got(s, Acquiring(t, op), t, op)
    ensures After(s, Acquiring(t, op)) == State(Taken(s.flag, op), s.threads[t := Holding(s.threads[t], op)])
  {
    AcquiresNow(s, t, op);
  }

  lemma AcquiresNow(s: State, t: nat, op: Op)
    requires t < |s.threads| && s.threads[t].pc.Idle? && Free(s.flag, op)
    ensures Follows(s, Acquiring(t, op))
    ensures After(s, Acquiring(t, op)) == State(Taken(s.flag, op), s.threads[t := Holding(s.threads[t], op)])
  {
    var s1 := Step(s, t, Start(op));
    var s2 := Step(s1, t, Load);
    OneStep(s2, t, Cas(false));
    OneStep(s1, t, Load);
    OneStep(s, t, Start(op));
    FollowsJoin(s1, [(t, Load)], [(t, Cas(false))]);
    FollowsJoin(s, [(t, Start(op))], [(t, Load)] + [(t, Cas(false))]);
    assert Acquiring(t, op) == [(t, Start(op))] + ([(t, Load)] + [(t, Cas(false))]);
    LastPut(s.threads, t, s1.threads[t], s2.threads[t], Holding(s.threads[t], op));
  }

  lemma LastPut(ts: seq<Thread>, t: nat, a: Thread, b: Thread, c: Thread)
    requires t < |ts|
    ensures ts[t := a][t := b][t := c] == ts[t := c]
  {
  }

  /** Two readers hold the lock at once. */
  lemma ReadersShare(s: State, t: nat, u: nat)
    requires Initial(s) && t < |s.threads| && u < |s.threads| && t != u
    ensures var run := Acquiring(t, LockShared) + Acquiring(u, TryLockShared);
      Follows(s, run) && After(s, run).flag == 2
        && After(s, run).threads[t].shared == 1 && After(s, run).threads[u].shared == 1
  {
    Acquires(s, t, LockShared);
    Acquires(After(s, Acquiring(t, LockShared)), u, TryLockShared);
    FollowsJoin(s, Acquiring(t, LockShared), Acquiring(u, TryLockShared));
  }

  /** What a waiting thread does next: it loads the flag again if the value it has forbids the lock or is out of date,
      and swaps. */
  function Finishing(t: nat, v: int, flag: int, op: Op): Schedule {
    if v == flag then [(t, Cas(false))]
    else if Blocked(op, v) then [(t, Retry), (t, Cas(false))] else [(t, Cas(false)), (t, Cas(false))]
  }

  /** A thread that has waited, whatever it saw last, gets the lock as soon as it can be had and nobody disturbs it. */
  lemma WaitsThenAcquires(s: State, t: nat)
    requires t < |s.threads| && s.threads[t].pc.Have? && Loops(s.threads[t].pc.op) && Free(s.flag, s.threads[t].pc.op)
    ensures Got(s, Finishing(t, s.threads[t].pc.v, s.flag, s.threads[t].pc.op), t, s.threads[t].pc.op)
  {
    var op, v := s.threads[t].pc.op, s.threads[t].pc.v;
    if v == s.flag {
      OneStep(s, t, Cas(false));
    } else {
      var a := if Blocked(op, v) then Retry else Cas(false);
      OneStep(s, t, a);
      OneStep(Step(s, t, a), t, Cas(false));
      FollowsJoin(s, [(t, a)], [(t, Cas(false))]);
      assert Finishing(t, v, s.flag, op) == [(t, a)] + [(t, Cas(false))];
    }
  }

  /** The value that was loaded forbids the lock. */
  predicate Forbids(v: int, op: Op) {
    match op
    case Lock => v != 0
    case TryLock => v != 0
    case LockShared => v < 0
    case TryLockShared => v < 0
  }

  /** How a call ends. Only a step of the thread itself ends it: with the lock, which could be had then, or in a try
      form without it and without any change, because the value it loaded forbids the lock or the swap failed. A call
      that waits never gives up. */
  lemma CallEnds(s: State, t: nat, a: Act)
    requires CanStep(s, t, a) && !s.threads[t].pc.Idle? && Step(s, t, a).threads[t].pc.Idle?
    requires LONG_MIN <= s.flag <= LONG_MAX
    ensures s.threads[t].pc.Have?
    ensures Swaps(s.flag, s.threads[t], a) ==> GotIt(s.threads[t], Step(s, t, a).threads[t], s.threads[t].pc.op)
    ensures Swaps(s.flag, s.threads[t], a) && !Overflows(s, t, a) ==>
      Free(s.flag, s.threads[t].pc.op) && Step(s, t, a).flag == Taken(s.flag, s.threads[t].pc.op)
    ensures !Swaps(s.flag, s.threads[t], a) ==>
      && Step(s, t, a) == State(s.flag, s.threads[t := s.threads[t].(pc := Idle)])
      && s.threads[t].pc.op in {TryLock, TryLockShared}
      && (Forbids(s.threads[t].pc.v, s.threads[t].pc.op) || s.threads[t].pc.v != s.flag || a == Cas(true))
  {
  }

  /** A try form that loads a value that forbids the lock fails at its next step, and one that does not swaps. */
  lemma TryDecides(s: State, t: nat, a: Act)
    requires CanStep(s, t, a) && s.threads[t].pc.Have?
    ensures a == Retry <==> Forbids(s.threads[t].pc.v, s.threads[t].pc.op)
    ensures a.Cas? <==> !Forbids(s.threads[t].pc.v, s.threads[t].pc.op)
  {
  }

  function Overtaking(t: nat, u: nat): Schedule { [(t, Start(Lock))] + Acquiring(u, Lock) }

  /** Thread t starts to lock, and u locks first. */
  lemma OvertakesNow(s: State, t: nat, u: nat)
    requires t < |s.threads| && u < |s.threads| && t != u && s.flag == 0
    requires s.threads[t] == Thread(Idle, 0, 0) && s.threads[u] == Thread(Idle, 0, 0)
    ensures Follows(s, Overtaking(t, u))
    ensures After(s, Overtaking(t, u)).threads[t].exclusive == 0 && After(s, Overtaking(t, u)).threads[u].exclusive == 1
  {
    OneStep(s, t, Start(Lock));
    Acquires(Step(s, t, Start(Lock)), u, Lock);
    FollowsJoin(s, [(t, Start(Lock))], Acquiring(u, Lock));
  }

  lemma OvertakerAsks(t: nat, u: nat)
    ensures forall w: set<nat> :: u in w ==> OnlyWriters(Upgrade(Acquiring(t, LockShared), t, Overtaking(t, u)), t, w)
  {
    var run := Upgrade(Acquiring(t, LockShared), t, Overtaking(t, u));
    assert forall i :: 0 <= i < |run| ==> run[i].0 == t || run[i].0 == u;
  }

  /** A reader that comes and goes leaves the lock as it was. */
  lemma ReadsAndReleases(s: State, t: nat)
    requires t < |s.threads| && s.threads[t].pc.Idle? && s.flag == 0
    ensures Follows(s, Acquiring(t, LockShared) + [(t, UnlockShared)])
    ensures After(s, Acquiring(t, LockShared) + [(t, UnlockShared)]) == s
  {
    Acquires(s, t, LockShared);
    var s1 := After(s, Acquiring(t, LockShared));
    OneStep(s1, t, UnlockShared);
    FollowsJoin(s, Acquiring(t, LockShared), [(t, UnlockShared)]);
    assert Step(s1, t, UnlockShared).threads == s.threads;
  }

  /** Thread t becomes a reader, gives the lock up to upgrade and starts to lock; u locks first. */
  lemma OvertakingRun(s: State, t: nat, u: nat) returns (before: Schedule, during: Schedule)
    requires Initial(s) && t < |s.threads| && u < |s.threads| && t != u
    ensures Overtaken(s, before, during, t, u)
    ensures forall w: set<nat> :: u in w ==> OnlyWriters(Upgrade(before, t, during), t, w)
  {
    before, during := Acquiring(t, LockShared), Overtaking(t, u);
    OvertakerAsks(t, u);
    ReadsAndReleases(s, t);
    OvertakesNow(s, t, u);
    FollowsJoin(s, before + [(t, UnlockShared)], during);
    Assoc(before, [(t, UnlockShared)], during);
  }
}
