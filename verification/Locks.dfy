/** The locking discipline of the broker. Each operation is written down as the locks it takes, the
    choices it makes and the browser flows it runs, following the calls of the code; threads take
    steps in any order, and new requests arrive at any time. */
module Locks {
  datatype Lock = Switching | Renewal | Target | State

  /** Locks are taken from the highest rank down; the two of rank 1 are never held together. */
  function Rank(lock: Lock): nat {
    match lock
    case Switching => 3
    case Renewal => 2
    case Target => 1
    case State => 1
  }

  /** `Held` and `Flowing` appear only while a program runs. */
  datatype Program =
    | Done
    | Seq(first: Program, second: Program)
    | Either(left: Program, right: Program)
    | With(lock: Lock, body: Program)
    | TryWith(lock: Lock, body: Program)
    | Held(lock: Lock, body: Program)
    | Flow(body: Program)
    | Flowing(body: Program)

  predicate Next(p: Program, taken: set<Lock>, q: Program) {
    match p
    case Done => false
    case Seq(a, b) => (a.Done? && q == b) || (q.Seq? && q.second == b && Next(a, taken, q.first))
    case Either(a, b) => q == a || q == b
    case With(lock, body) => lock !in taken && q == Held(lock, body)
    case TryWith(lock, body) => q == if lock in taken then Done else Held(lock, body)
    case Held(lock, body) => (body.Done? && q.Done?) || (q.Held? && q.lock == lock && Next(body, taken, q.body))
    case Flow(body) => q == Flowing(body)
    case Flowing(body) => (body.Done? && q.Done?) || (q.Flowing? && Next(body, taken, q.body))
  }

  function HeldBy(p: Program): set<Lock> {
    match p
    case Seq(a, _) => HeldBy(a)
    case Held(lock, body) => {lock} + HeldBy(body)
    case Flowing(body) => HeldBy(body)
    case _ => {}
  }

  predicate InFlow(p: Program) {
    match p
    case Seq(a, _) => InFlow(a)
    case Held(_, body) => InFlow(body)
    case Flowing(_) => true
    case _ => false
  }

  /** The lock a program is about to block on. */
  function WaitsFor(p: Program): set<Lock> {
    match p
    case Seq(a, _) => WaitsFor(a)
    case Held(_, body) => WaitsFor(body)
    case Flowing(body) => WaitsFor(body)
    case With(lock, _) => {lock}
    case _ => {}
  }

  // ------------------------------------------------------------ the discipline

  /** The highest rank a program takes or holds. */
  function Top(p: Program): nat {
    match p
    case Done => 0
    case Seq(a, b) => if Top(a) < Top(b) then Top(b) else Top(a)
    case Either(a, b) => if Top(a) < Top(b) then Top(b) else Top(a)
    case With(lock, body) => if Rank(lock) < Top(body) then Top(body) else Rank(lock)
    case TryWith(lock, body) => if Rank(lock) < Top(body) then Top(body) else Rank(lock)
    case Held(lock, body) => if Rank(lock) < Top(body) then Top(body) else Rank(lock)
    case Flow(body) => Top(body)
    case Flowing(body) => Top(body)
  }

  /** Under a lock only locks of a lower rank are taken, so no lock is ever taken twice. */
  predicate Ordered(p: Program) {
    match p
    case Done => true
    case Seq(a, b) => Ordered(a) && Ordered(b)
    case Either(a, b) => Ordered(a) && Ordered(b)
    case With(lock, body) => Top(body) < Rank(lock) && Ordered(body)
    case TryWith(lock, body) => Top(body) < Rank(lock) && Ordered(body)
    case Held(lock, body) => Top(body) < Rank(lock) && Ordered(body)
    case Flow(body) => Ordered(body)
    case Flowing(body) => Ordered(body)
  }

  /** Some browser flow may run without the renewal lock. */
  predicate Loose(p: Program) {
    match p
    case Done => false
    case Seq(a, b) => Loose(a) || Loose(b)
    case Either(a, b) => Loose(a) || Loose(b)
    case With(lock, body) => lock != Renewal && Loose(body)
    case TryWith(lock, body) => lock != Renewal && Loose(body)
    case Held(lock, body) => lock != Renewal && Loose(body)
    case Flow(_) => true
    case Flowing(_) => true
  }

  /** Not started yet. */
  predicate Fresh(p: Program) {
    match p
    case Done => true
    case Seq(a, b) => Fresh(a) && Fresh(b)
    case Either(a, b) => Fresh(a) && Fresh(b)
    case With(_, body) => Fresh(body)
    case TryWith(_, body) => Fresh(body)
    case Flow(body) => Fresh(body)
    case _ => false
  }

  /** Started at most where the program stands. */
  predicate Running(p: Program) {
    match p
    case Seq(a, b) => Running(a) && Fresh(b)
    case Held(_, body) => Running(body)
    case Flowing(body) => Running(body)
    case _ => Fresh(p)
  }

  ghost predicate Disciplined(p: Program) {
    Running(p) && Ordered(p) && !Loose(p)
  }

  function Size(p: Program): nat {
    match p
    case Done => 0
    case Seq(a, b) => 1 + Size(a) + Size(b)
    case Either(a, b) => 1 + Size(a) + Size(b)
    case With(_, body) => 2 + Size(body)
    case TryWith(_, body) => 2 + Size(body)
    case Held(_, body) => 1 + Size(body)
    case Flow(body) => 2 + Size(body)
    case Flowing(body) => 1 + Size(body)
  }

  lemma {:induction false} FreshHoldsNothing(p: Program)
    requires Fresh(p)
    ensures Running(p) && HeldBy(p) == {} && !InFlow(p)
  {
    if p.Seq? {
      FreshHoldsNothing(p.first);
    }
  }

  lemma {:induction false} HeldIsRanked(p: Program, lock: Lock)
    requires lock in HeldBy(p)
    ensures Rank(lock) <= Top(p) && !p.Done?
  {
    match p
    case Seq(a, _) => HeldIsRanked(a, lock);
    case Held(mine, body) => if lock != mine { HeldIsRanked(body, lock); }
    case Flowing(body) => HeldIsRanked(body, lock);
  }

  lemma {:induction false} WaitIsRanked(p: Program, lock: Lock)
    requires lock in WaitsFor(p)
    ensures Rank(lock) <= Top(p)
  {
    match p
    case Seq(a, _) => WaitIsRanked(a, lock);
    case Held(_, body) => WaitIsRanked(body, lock);
    case Flowing(body) => WaitIsRanked(body, lock);
    case With(_, _) =>
  }

  /** A disciplined program waits only for locks ranked below all those it holds. */
  lemma {:induction false} WaitsBelow(p: Program, held: Lock, wanted: Lock)
    requires Ordered(p) && held in HeldBy(p) && wanted in WaitsFor(p)
    ensures Rank(wanted) < Rank(held)
  {
    match p
    case Seq(a, _) => WaitsBelow(a, held, wanted);
    case Flowing(body) => WaitsBelow(body, held, wanted);
    case Held(lock, body) =>
      if held == lock { WaitIsRanked(body, wanted); } else { WaitsBelow(body, held, wanted); }
  }

  /** A flow runs only under the renewal lock. */
  lemma {:induction false} FlowHoldsRenewal(p: Program)
    requires InFlow(p) && !Loose(p)
    ensures Renewal in HeldBy(p)
  {
    match p
    case Seq(a, _) => FlowHoldsRenewal(a);
    case Held(lock, body) => if lock != Renewal { FlowHoldsRenewal(body); }
  }

  /** One step keeps the discipline, takes only a lock that was free, and brings the end nearer. */
  lemma {:induction false} StepKeepsDiscipline(p: Program, taken: set<Lock>, q: Program)
    requires Disciplined(p) && Next(p, taken, q)
    ensures Disciplined(q) && Top(q) <= Top(p) && Size(q) < Size(p)
    ensures forall lock :: lock in HeldBy(q) ==> lock in HeldBy(p) || lock !in taken
  {
    StepKeepsShape(p, taken, q);
  }

  lemma {:induction false} StepKeepsShape(p: Program, taken: set<Lock>, q: Program)
    requires Running(p) && Ordered(p) && Next(p, taken, q)
    ensures Running(q) && Ordered(q) && (Loose(q) ==> Loose(p)) && Top(q) <= Top(p) && Size(q) < Size(p)
    ensures forall lock :: lock in HeldBy(q) ==> lock in HeldBy(p) || lock !in taken
  {
    match p
    case Seq(a, b) =>
      if a.Done? && q == b { FreshHoldsNothing(b); } else { StepKeepsShape(a, taken, q.first); }
    case Either(a, b) => FreshHoldsNothing(q);
    case With(_, body) => FreshHoldsNothing(body);
    case TryWith(_, body) => FreshHoldsNothing(body);
    case Flow(body) => FreshHoldsNothing(body);
    case Held(_, body) =>
      if !(body.Done? && q.Done?) { StepKeepsShape(body, taken, q.body); }
    case Flowing(body) =>
      if !(body.Done? && q.Done?) { StepKeepsShape(body, taken, q.body); }
  }

  /** Only a program that is done, or waits for a taken lock, has no step. */
  lemma {:induction false} StepsUnlessBlocked(p: Program, taken: set<Lock>) returns (q: Program)
    requires !p.Done? && WaitsFor(p) !! taken
    ensures Next(p, taken, q)
  {
    match p
    case Seq(a, b) =>
      if a.Done? { q := b; } else { var a' := StepsUnlessBlocked(a, taken); q := Seq(a', b); }
    case Either(a, _) => q := a;
    case With(lock, body) => q := Held(lock, body);
    case TryWith(lock, body) => q := if lock in taken then Done else Held(lock, body);
    case Held(lock, body) =>
      if body.Done? { q := Done; } else { var next := StepsUnlessBlocked(body, taken); q := Held(lock, next); }
    case Flow(body) => q := Flowing(body);
    case Flowing(body) =>
      if body.Done? { q := Done; } else { var next := StepsUnlessBlocked(body, taken); q := Flowing(next); }
  }

  // ------------------------------------------------------------ threads

  function Taken(threads: seq<Program>): set<Lock> {
    set i, lock | 0 <= i < |threads| && lock in HeldBy(threads[i]) :: lock
  }

  /** Every thread keeps to the discipline and no lock has two holders. */
  ghost predicate Safe(threads: seq<Program>) {
    && (forall i :: 0 <= i < |threads| ==> Disciplined(threads[i]))
    && (forall i, j :: 0 <= i < j < |threads| ==> HeldBy(threads[i]) !! HeldBy(threads[j]))
  }

  ghost predicate Steps(threads: seq<Program>, i: nat, later: seq<Program>) {
    i < |threads| && |later| == |threads| && later == threads[i := later[i]]
    && Next(threads[i], Taken(threads), later[i])
  }

  ghost predicate SomeoneStepped(threads: seq<Program>, later: seq<Program>) {
    exists i :: Steps(threads, i, later)
  }

  ghost predicate CanStep(threads: seq<Program>) {
    exists i, later :: Steps(threads, i, later)
  }

  /** A thread takes a step, or a request arrives. */
  ghost predicate SystemStep(threads: seq<Program>, later: seq<Program>) {
    SomeoneStepped(threads, later) || (exists operation :: later == threads + [Code(operation)])
  }

  ghost predicate IsRun(run: seq<seq<Program>>) {
    run != [] && run[0] == [] && forall k :: 0 <= k < |run| - 1 ==> SystemStep(run[k], run[k + 1])
  }

  lemma OneHolder(threads: seq<Program>, i: nat, j: nat, lock: Lock)
    requires Safe(threads) && i < |threads| && j < |threads| && lock in HeldBy(threads[j])
    ensures lock in HeldBy(threads[i]) ==> i == j
  {
    if i < j {
      assert HeldBy(threads[i]) !! HeldBy(threads[j]);
    } else if j < i {
      assert HeldBy(threads[j]) !! HeldBy(threads[i]);
    }
  }

  lemma StepKeepsSafe(threads: seq<Program>, i: nat, later: seq<Program>)
    requires Safe(threads) && Steps(threads, i, later)
    ensures Safe(later)
  {
    StepKeepsDiscipline(threads[i], Taken(threads), later[i]);
    forall j, lock | 0 <= j < |threads| && j != i && lock in HeldBy(threads[j])
      ensures lock !in HeldBy(later[i])
    {
      assert lock in Taken(threads);
      OneHolder(threads, i, j, lock);
    }
  }

  lemma NoThreadsAreSafe()
    ensures Safe([])
  {
  }

  lemma SystemStepKeepsSafe(threads: seq<Program>, later: seq<Program>)
    requires Safe(threads) && SystemStep(threads, later)
    ensures Safe(later)
  {
    hide Code, Disciplined, Steps, HeldBy;
    if i :| Steps(threads, i, later) {
      StepKeepsSafe(threads, i, later);
    } else {
      var operation :| later == threads + [Code(operation)];
      OperationsAreDisciplined(operation);
      FreshHoldsNothing(Code(operation));
    }
  }

  /** In every run of any requests: mutual exclusion and the discipline hold in the end, and so,
      every prefix of a run being a run, throughout. */
  lemma {:induction false} RunsAreSafe(run: seq<seq<Program>>)
    requires IsRun(run)
    ensures Safe(run[|run| - 1])
  {
    hide Code, SystemStep, Safe;
    if |run| > 1 {
      RunsAreSafe(run[..|run| - 1]);
      assert SystemStep(run[|run| - 2], run[|run| - 1]);
      SystemStepKeepsSafe(run[|run| - 2], run[|run| - 1]);
    } else {
      NoThreadsAreSafe();
    }
  }

  /** No deadlock: in every reachable state, if any operation is unfinished some thread can step. */
  lemma NoDeadlock(run: seq<seq<Program>>, i: nat)
    requires IsRun(run) && i < |run[|run| - 1]| && !run[|run| - 1][i].Done?
    ensures CanStep(run[|run| - 1])
  {
    hide Safe, CanStep, SystemStep;
    RunsAreSafe(run);
    SomeoneSteps(run[|run| - 1], i, 4);
  }

  /** The thread that holds what this one waits for waits, if at all, for a lock of lower rank. */
  lemma {:induction false} SomeoneSteps(threads: seq<Program>, i: nat, bound: nat)
    requires Safe(threads) && i < |threads| && !threads[i].Done?
    requires forall lock :: lock in WaitsFor(threads[i]) ==> Rank(lock) < bound
    ensures CanStep(threads)
    decreases bound
  {
    var taken := Taken(threads);
    if WaitsFor(threads[i]) !! taken {
      var q := StepsUnlessBlocked(threads[i], taken);
      assert Steps(threads, i, threads[i := q]);
    } else {
      var lock :| lock in WaitsFor(threads[i]) && lock in taken;
      var j :| 0 <= j < |threads| && lock in HeldBy(threads[j]);
      HeldIsRanked(threads[j], lock);
      forall wanted | wanted in WaitsFor(threads[j])
        ensures Rank(wanted) < Rank(lock)
      {
        WaitsBelow(threads[j], lock, wanted);
      }
      SomeoneSteps(threads, j, Rank(lock));
    }
  }

  lemma {:induction false} HeldOfEqualRank(p: Program, a: Lock, b: Lock)
    requires Ordered(p) && a in HeldBy(p) && b in HeldBy(p) && Rank(a) == Rank(b)
    ensures a == b
  {
    match p
    case Seq(first, _) => HeldOfEqualRank(first, a, b);
    case Flowing(body) => HeldOfEqualRank(body, a, b);
    case Held(lock, body) =>
      if a == lock && b != lock { HeldIsRanked(body, b); }
      else if b == lock && a != lock { HeldIsRanked(body, a); }
      else if a != lock { HeldOfEqualRank(body, a, b); }
  }

  /** No thread ever holds target and state together. */
  lemma NeverTargetAndState(run: seq<seq<Program>>, i: nat)
    requires IsRun(run) && i < |run[|run| - 1]|
    ensures !(Target in HeldBy(run[|run| - 1][i]) && State in HeldBy(run[|run| - 1][i]))
  {
    hide HeldBy, Running, Ordered, Loose, SystemStep;
    RunsAreSafe(run);
    var thread := run[|run| - 1][i];
    assert Disciplined(thread);
    if Target in HeldBy(thread) && State in HeldBy(thread) {
      HeldOfEqualRank(thread, Target, State);
    }
  }

  /** At most one thread is inside a browser flow, and it holds the renewal lock: a page that is
      open implies that the lock is held. */
  lemma OneFlowAtATime(run: seq<seq<Program>>, i: nat, j: nat)
    requires IsRun(run) && i < |run[|run| - 1]| && j < |run[|run| - 1]|
    requires InFlow(run[|run| - 1][i]) && InFlow(run[|run| - 1][j])
    ensures i == j && Renewal in HeldBy(run[|run| - 1][i])
  {
    var threads := run[|run| - 1];
    RunsAreSafe(run);
    FlowHoldsRenewal(threads[i]);
    FlowHoldsRenewal(threads[j]);
    OneHolder(threads, i, j, Renewal);
  }

  function Work(threads: seq<Program>): nat {
    if threads == [] then 0 else Size(threads[0]) + Work(threads[1..])
  }

  lemma {:induction false} WorkOfUpdate(threads: seq<Program>, i: nat, q: Program)
    requires i < |threads|
    ensures Work(threads[i := q]) == Work(threads) - Size(threads[i]) + Size(q)
  {
    if i == 0 {
      assert threads[i := q][1..] == threads[1..];
    } else {
      assert threads[i := q][1..] == threads[1..][i - 1 := q];
      WorkOfUpdate(threads[1..], i - 1, q);
    }
  }

  lemma StepWorks(threads: seq<Program>, later: seq<Program>)
    requires Safe(threads) && SomeoneStepped(threads, later)
    ensures Safe(later) && Work(later) < Work(threads)
  {
    var i: nat :| Steps(threads, i, later);
    StepKeepsSafe(threads, i, later);
    StepKeepsDiscipline(threads[i], Taken(threads), later[i]);
    WorkOfUpdate(threads, i, later[i]);
  }

  /** What is under way finishes: threads that step without new requests do so at most `Work` times,
      so with `NoDeadlock` every operation ends. */
  lemma {:induction false} WorkRunsOut(run: seq<seq<Program>>)
    requires run != [] && Safe(run[0])
    requires forall k :: 0 <= k < |run| - 1 ==> SomeoneStepped(run[k], run[k + 1])
    ensures Safe(run[|run| - 1]) && Work(run[|run| - 1]) + |run| - 1 <= Work(run[0])
  {
    hide Safe, Steps, SomeoneStepped, Work, Disciplined, Next;
    if |run| > 1 {
      var shorter := run[..|run| - 1];
      forall k | 0 <= k < |shorter| - 1
        ensures SomeoneStepped(shorter[k], shorter[k + 1])
      {
        assert SomeoneStepped(run[k], run[k + 1]);
      }
      WorkRunsOut(shorter);
      var k := |run| - 2;
      assert SomeoneStepped(run[k], run[k + 1]);
      StepWorks(run[k], run[k + 1]);
    }
  }

  // ------------------------------------------------------------ the operations

  datatype Mode = Idp | Static | Unconfigured

  /** What a piece of the code may take: locks up to `top`, and a browser flow only if `loose`. */
  predicate Takes(p: Program, top: nat, loose: bool) {
    Fresh(p) && Ordered(p) && Top(p) <= top && (Loose(p) ==> loose)
  }

  function Then(a: Program, b: Program): (p: Program)
    ensures forall top, loose :: Takes(a, top, loose) && Takes(b, top, loose) ==> Takes(p, top, loose)
  {
    Seq(a, b)
  }

  function Or(a: Program, b: Program): (p: Program)
    ensures forall top, loose :: Takes(a, top, loose) && Takes(b, top, loose) ==> Takes(p, top, loose)
  {
    Either(a, b)
  }

  function Maybe(a: Program): (p: Program)
    ensures forall top, loose :: Takes(a, top, loose) ==> Takes(p, top, loose)
  {
    assert forall top, loose :: Takes(Done, top, loose);
    Or(a, Done)
  }

  function UnderRenewal(a: Program): (p: Program)
    ensures Takes(a, 1, true) ==> forall top, loose :: 2 <= top ==> Takes(p, top, loose)
  {
    With(Renewal, a)
  }

  function UnderSwitching(a: Program): (p: Program)
    ensures Takes(a, 2, false) ==> Takes(p, 3, false)
  {
    With(Switching, a)
  }

  /** One statement under a lock. */
  function Briefly(lock: Lock): (p: Program)
    ensures Takes(p, Rank(lock), false)
  {
    With(lock, Done)
  }

  datatype Context = Interactive | NonInteractive

  function Forget(clearSession: bool): (p: Program)
    ensures Takes(p, 1, false)
  {
    if clearSession then Then(Briefly(State), Briefly(State)) else Briefly(State)
  }

  function ApplySavedSettings(): (p: Program)
    ensures Takes(p, 1, false)
  {
    Maybe(Then(Briefly(Target), Maybe(
      Then(Briefly(Target),
      Then(Maybe(Or(Forget(true), Forget(false))),
      Then(Maybe(Briefly(State)), Briefly(Target)))))))
  }

  function Refresh(): (p: Program)
    ensures Takes(p, 2, false)
  {
    Maybe(Then(Briefly(Target), Maybe(UnderRenewal(ApplySavedSettings()))))
  }

  function RefreshUnlessRenewing(): (p: Program)
    ensures Takes(p, 2, false)
  {
    Maybe(Then(Briefly(Target), Maybe(TryWith(Renewal, ApplySavedSettings()))))
  }

  /** The page is published from inside the browser flow and withdrawn after it. */
  function IdentityToken(context: Context): (p: Program)
    ensures Takes(p, 1, context.Interactive?)
  {
    Then(if context.Interactive? then Maybe(Flow(Briefly(State))) else Done, Briefly(State))
  }

  function SessionCredential(context: Context): (p: Program)
    ensures Takes(p, 1, context.Interactive?)
  {
    Then(Briefly(State), Then(Maybe(IdentityToken(context)), Then(Briefly(State), Maybe(Briefly(State)))))
  }

  function KeyOrCredential(): (p: Program)
    ensures Takes(p, 1, false)
  {
    Maybe(Then(Briefly(State), Maybe(Briefly(State))))
  }

  function IssueAfterDeadBearer(context: Context): (p: Program)
    ensures Takes(p, 1, context.Interactive?)
  {
    Then(Briefly(State), Then(SessionCredential(context), Maybe(Then(KeyOrCredential(), Maybe(Briefly(State))))))
  }

  /** Falls back to `Issue` only outside an IdP, where `Issue` takes no renewal lock. */
  function IssueFromSession(context: Context, mode: Mode): (p: Program)
    ensures Takes(p, 1, context.Interactive?)
    decreases 1
  {
    if !mode.Idp? then Issue(context, mode)
    else
      Then(Briefly(State), Or(Briefly(State),
        Then(SessionCredential(context),
             Maybe(Then(Maybe(KeyOrCredential()), Or(Briefly(State), IssueAfterDeadBearer(context)))))))
  }

  function IssueUnderRenewalLock(context: Context, mode: Mode): (p: Program)
    ensures Takes(p, 1, context.Interactive?)
    decreases 2
  {
    Then(IssueFromSession(context, mode), Maybe(Briefly(State)))
  }

  /** Under the lock the target is read again and may be in any mode. */
  function IssueForAnyTarget(context: Context): (p: Program)
    ensures Takes(p, 1, context.Interactive?)
    decreases 3
  {
    Then(Briefly(Target),
      Or(IssueUnderRenewalLock(context, Idp),
         Or(IssueUnderRenewalLock(context, Static), IssueUnderRenewalLock(context, Unconfigured))))
  }

  function Issue(context: Context, mode: Mode): (p: Program)
    ensures Takes(p, if mode.Idp? then 2 else 1, false)
    decreases if mode.Idp? then 4 else 0
  {
    match mode
    case Unconfigured => Done
    case Static => Briefly(State)
    case Idp => Then(Briefly(State), Or(Briefly(State), UnderRenewal(IssueForAnyTarget(context))))
  }

  function IssueInAnyMode(context: Context): (p: Program)
    ensures Takes(p, 2, false)
  {
    Or(Issue(context, Idp), Or(Issue(context, Static), Issue(context, Unconfigured)))
  }

  function IssueUnlessRenewing(context: Context): (p: Program)
    ensures Takes(p, 2, false)
  {
    Or(Or(Issue(context, Static), Issue(context, Unconfigured)),
       Then(Briefly(State), Or(Briefly(State), TryWith(Renewal, IssueForAnyTarget(context)))))
  }

  function Admit(): (p: Program)
    ensures Takes(p, 2, false)
  {
    Then(Refresh(), Then(Briefly(Target), Maybe(Briefly(State))))
  }

  function ExtendKey(): (p: Program)
    ensures Takes(p, 1, false)
  {
    Then(Briefly(State), Maybe(Or(Briefly(State),
      Then(Briefly(State), Then(SessionCredential(NonInteractive), Maybe(KeyOrCredential()))))))
  }

  function Status(): (p: Program)
    ensures Takes(p, 2, false)
  {
    Then(RefreshUnlessRenewing(), Then(Briefly(Target), Briefly(State)))
  }

  function SwitchedInPlace(): (p: Program)
    ensures Takes(p, 2, false)
  {
    Then(Briefly(Target), Then(IssueInAnyMode(NonInteractive), Maybe(Status())))
  }

  /** The renewal lock is given back before the status of a completed switch is read. */
  function ApplySwitch(): (p: Program)
    ensures Takes(p, 2, false)
  {
    Then(
      UnderRenewal(Maybe(
        Then(Briefly(Target), Then(Briefly(State), Then(ApplySavedSettings(),
        Then(IssueForAnyTarget(NonInteractive), Maybe(
          Then(ApplySavedSettings(), Then(Briefly(Target), Maybe(Briefly(State))))))))))),
      Maybe(Status()))
  }

  function RefreshAndSwitch(): (p: Program)
    ensures Takes(p, 2, false)
  {
    Then(Refresh(), Then(Briefly(Target), Maybe(Or(SwitchedInPlace(), ApplySwitch()))))
  }

  function Switch(): (p: Program)
    ensures Takes(p, 3, false)
  {
    UnderSwitching(RefreshAndSwitch())
  }

  function OwnSignIn(): (p: Program)
    ensures Takes(p, 1, true)
  {
    Then(Forget(true), Then(Briefly(State), Then(IssueUnderRenewalLock(Interactive, Idp),
      Then(Briefly(State), Maybe(Briefly(State))))))
  }

  function SignIn(): (p: Program)
    ensures Takes(p, 2, false)
  {
    Then(Briefly(State), Then(Refresh(), UnderRenewal(
      Then(Briefly(Target), Maybe(Then(Maybe(Briefly(State)), Maybe(OwnSignIn())))))))
  }

  /** The operations that requests, the timer, the proxy and the account service run on the broker. */
  datatype Operation =
    | Credential(context: Context)
    | ProxyCredential(context: Context)
    | BearerForProxy
    | SignInRequest
    | SignOutRequest
    | SwitchRequest
    | SwitchRefusal
    | StatusRequest
    | Tick
    | Shutdown
    | SessionIdentity
    | SessionIdentityUnlessRenewing
    | SessionBearer(context: Context)
    | SessionBearerForDaemon
    | SessionBearerUnlessRenewing

  function ServeOrIssue(): (p: Program)
    ensures Takes(p, 2, false)
  {
    Then(Briefly(State), Maybe(UnderRenewal(IssueForAnyTarget(NonInteractive))))
  }

  function BearForProxy(): (p: Program)
    ensures Takes(p, 2, false)
  {
    Then(Refresh(), Then(Briefly(State), Maybe(ServeOrIssue())))
  }

  function SignOut(): (p: Program)
    ensures Takes(p, 2, false)
  {
    Then(Refresh(), UnderRenewal(Then(Briefly(Target), Maybe(Forget(true)))))
  }

  function MinuteTick(): (p: Program)
    ensures Takes(p, 2, false)
  {
    Then(Refresh(), UnderRenewal(Then(Briefly(Target), Maybe(
      Then(Briefly(State), Maybe(Then(Maybe(SessionCredential(NonInteractive)), Maybe(ExtendKey()))))))))
  }

  function Identify(refresh: Program): (p: Program)
    requires Takes(refresh, 2, false)
    ensures Takes(p, 2, false)
  {
    Then(refresh, Then(Briefly(Target), Briefly(State)))
  }

  /** A request for a credential, or for a bearer that goes with who it identifies. */
  function AdmitAndIssue(context: Context): (p: Program)
    ensures Takes(p, 2, false)
  {
    Then(Admit(), Maybe(Then(IssueInAnyMode(context), Maybe(Briefly(State)))))
  }

  function BearUnlessRenewing(): (p: Program)
    ensures Takes(p, 2, false)
  {
    Then(RefreshUnlessRenewing(), Then(Briefly(Target), Then(Maybe(Briefly(State)), Maybe(
      Then(IssueUnlessRenewing(NonInteractive), Maybe(Briefly(State)))))))
  }

  function BearForTheDaemon(): (p: Program)
    ensures Takes(p, 2, false)
  {
    Then(Refresh(), Then(Briefly(Target), Then(IssueInAnyMode(NonInteractive), Maybe(Briefly(State)))))
  }

  function ShutDown(): (p: Program)
    ensures Takes(p, 2, false)
  {
    UnderRenewal(Then(Briefly(Target), Forget(false)))
  }

  function RefuseSwitch(): (p: Program)
    ensures Takes(p, 2, false)
  {
    Then(Refresh(), Briefly(Target))
  }

  function Code(operation: Operation): (p: Program)
    ensures Takes(p, 3, false)
  {
    match operation
    case Credential(context) => AdmitAndIssue(context)
    case ProxyCredential(context) => AdmitAndIssue(context)
    case BearerForProxy => BearForProxy()
    case SignInRequest => SignIn()
    case SignOutRequest => SignOut()
    case SwitchRequest => Switch()
    case SwitchRefusal => RefuseSwitch()
    case StatusRequest => Status()
    case Tick => MinuteTick()
    case Shutdown => ShutDown()
    case SessionIdentity => Identify(Refresh())
    case SessionIdentityUnlessRenewing => Identify(RefreshUnlessRenewing())
    case SessionBearer(context) => AdmitAndIssue(context)
    case SessionBearerForDaemon => BearForTheDaemon()
    case SessionBearerUnlessRenewing => BearUnlessRenewing()
  }

  /** Every operation takes its locks in the order switching, renewal, then target or state, never
      the last two together and never one twice, and runs a browser flow only under the renewal lock.
      (A sign-in that finds a page pending shows that page again; it starts no flow by that.) */
  lemma OperationsAreDisciplined(operation: Operation)
    ensures Disciplined(Code(operation)) && Fresh(Code(operation))
  {
    FreshHoldsNothing(Code(operation));
    assert Takes(Code(operation), 3, false);
  }
}
