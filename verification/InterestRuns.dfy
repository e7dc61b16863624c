/** Interest runs of several processes over one data directory.

    Each process takes the lock, runs its session request by request, and gives the lock back;
    users add transactions and payees at any time. A host process may be killed outright: the
    system then frees its lock, while its bridge child may still carry out the import it was
    handed. A run is any sequence of steps; an impossible step leaves the state as it is. */
module InterestRuns {
  import opened Common
  import opened Interest
  import opened Ledger

  datatype Run = Run(config: Config, force: bool)

  /** How far a process is. `Outside` it does not hold the lock. `bound` is the next payee id at
      the time of the check for an existing transaction. `Importing` has ensured the payee and
      handed the transaction to the bridge. */
  datatype Phase =
    | Outside
    | Holding
    | HasLast(date: int, payment: int)
    | Checked(date: int, payment: int, bound: nat)
    | Computed(date: int, interest: int, bound: nat)
    | Importing(key: Key, interest: int)
    | Finished

  datatype Process = Process(run: Run, phase: Phase)

  /** An import handed to the bridge child of a host that was killed. */
  datatype Orphan = Orphan(key: Key, interest: int)

  /** `extras` counts the transactions that reached the ledger in another way than by a checked
      run that finished: by a forced run, by an orphan, or by a user's own hand. */
  datatype State = State(
    ledger: Ledger,
    lock: Option<nat>,
    processes: map<nat, Process>,
    orphans: seq<Orphan>,
    extras: multiset<Key>)

  datatype Step =
    | TryLock(p: nat, run: Run)
    | ReadLast(p: nat, tx: Transaction)
    | Check(p: nat)
    | Compute(p: nat)
    | NamePayee(p: nat)
    | ImportDone(p: nat)
    | Leave(p: nat)
    | Kill(p: nat)
    | OrphanImports(i: nat)
    | OrphanDies(i: nat)
    | UserAdds(tx: Transaction)
    | UserNames(name: string)

  /** Takes the lock if it is free. */
  function DoTryLock(s: State, p: nat, run: Run): State {
    if s.lock.Some? || (p in s.processes && !s.processes[p].phase.Outside?) then s
    else s.(lock := Some(p), processes := s.processes[p := Process(run, Holding)])
  }

  function Move(s: State, p: nat, phase: Phase): State
    requires p in s.processes
  {
    s.(processes := s.processes[p := s.processes[p].(phase := phase)])
  }

  function DoReadLast(s: State, p: nat, tx: Transaction): State {
    if p !in s.processes || !s.processes[p].phase.Holding? || !IsLast(s.ledger, s.processes[p].run.config.account, tx) then s
    else Move(s, p, HasLast(tx.date, tx.amount))
  }

  /** Looks for an existing transaction unless forced; finding one ends the run. */
  function DoCheck(s: State, p: nat): State {
    if p !in s.processes || !s.processes[p].phase.HasLast? then s
    else
      var run, phase := s.processes[p].run, s.processes[p].phase;
      if !run.force && FindTransaction(s.ledger, run.config.account, phase.date, run.config.payeeName).Some?
      then Move(s, p, Finished)
      else Move(s, p, Checked(phase.date, phase.payment, s.ledger.nextPayee))
  }

  function DoCompute(s: State, p: nat): State {
    if p !in s.processes || !s.processes[p].phase.Checked? then s
    else
      var config, phase := s.processes[p].run.config, s.processes[p].phase;
      var balance := BalanceBefore(s.ledger.transactions, config.account, config.period.CutoffFor(phase.date));
      var interest := ApplyBankPayment(balance, phase.payment, config.rate, config.round).interest;
      Move(s, p, if interest == 0 then Finished else Computed(phase.date, interest, phase.bound))
  }

  function DoNamePayee(s: State, p: nat): State {
    if p !in s.processes || !s.processes[p].phase.Computed? then s
    else
      var run, phase := s.processes[p].run, s.processes[p].phase;
      var (ledger, id) := EnsurePayee(s.ledger, run.config.payeeName);
      var key := Key(run.config.account, phase.date, id);
      Move(s, p, Importing(key, phase.interest)).(ledger := ledger)
  }

  function DoImportDone(s: State, p: nat): State {
    if p !in s.processes || !s.processes[p].phase.Importing? then s
    else
      var run, phase := s.processes[p].run, s.processes[p].phase;
      Move(s, p, Finished).(ledger := Import(s.ledger, phase.key, phase.interest),
                            extras := if run.force then s.extras + multiset{phase.key} else s.extras)
  }

  /** The run is over, or some request failed: the child is waited for and the lock given back. */
  function DoLeave(s: State, p: nat): State {
    if p !in s.processes || s.processes[p].phase.Outside? then s
    else Move(s, p, Outside).(lock := None)
  }

  /** The host is killed: the lock is free, an import in progress goes on without it. */
  function DoKill(s: State, p: nat): State {
    if p !in s.processes || s.processes[p].phase.Outside? then s
    else
      var phase := s.processes[p].phase;
      var gone := Move(s, p, Outside).(lock := None);
      if phase.Importing? then gone.(orphans := s.orphans + [Orphan(phase.key, phase.interest)]) else gone
  }

  function DoOrphanImports(s: State, i: nat): State {
    if i >= |s.orphans| then s
    else s.(ledger := Import(s.ledger, s.orphans[i].key, s.orphans[i].interest),
            orphans := s.orphans[..i] + s.orphans[i + 1..], extras := s.extras + multiset{s.orphans[i].key})
  }

  function DoOrphanDies(s: State, i: nat): State {
    if i >= |s.orphans| then s else s.(orphans := s.orphans[..i] + s.orphans[i + 1..])
  }

  function DoUserAdds(s: State, tx: Transaction): State {
    if tx.payee.Some? && tx.payee.value >= s.ledger.nextPayee then s
    else
      s.(ledger := s.ledger.(transactions := s.ledger.transactions + [tx]),
         extras := if tx.payee.Some? then s.extras + multiset{Key(tx.account, tx.date, tx.payee.value)} else s.extras)
  }

  /** A user creates a payee, even one whose name exists. */
  function DoUserNames(s: State, name: string): State {
    s.(ledger := s.ledger.(payees := s.ledger.payees + [Payee(s.ledger.nextPayee, name)],
                           nextPayee := s.ledger.nextPayee + 1))
  }

  function Do(s: State, step: Step): State {
    match step
    case TryLock(p, run) => DoTryLock(s, p, run)
    case ReadLast(p, tx) => DoReadLast(s, p, tx)
    case Check(p) => DoCheck(s, p)
    case Compute(p) => DoCompute(s, p)
    case NamePayee(p) => DoNamePayee(s, p)
    case ImportDone(p) => DoImportDone(s, p)
    case Leave(p) => DoLeave(s, p)
    case Kill(p) => DoKill(s, p)
    case OrphanImports(i) => DoOrphanImports(s, i)
    case OrphanDies(i) => DoOrphanDies(s, i)
    case UserAdds(tx) => DoUserAdds(s, tx)
    case UserNames(name) => DoUserNames(s, name)
  }

  function Initial(ledger: Ledger): State {
    State(ledger, None, map[], [], multiset{})
  }

  function After(ledger: Ledger, steps: seq<Step>): State {
    if steps == [] then Initial(ledger) else Do(After(ledger, steps[..|steps| - 1]), steps[|steps| - 1])
  }

  // ----- invariants

  /** Every process that is inside holds the lock. */
  predicate Exclusive(s: State) {
    forall p <- s.processes :: !s.processes[p].phase.Outside? ==> s.lock == Some(p)
  }

  predicate Inside(s: State) {
    s.lock.Some? && s.lock.value in s.processes
  }

  /** The checked import the lock's holder has in hand, if any. */
  function InHand(s: State, key: Key): nat {
    if Inside(s) && !s.processes[s.lock.value].run.force
       && s.processes[s.lock.value].phase.Importing? && s.processes[s.lock.value].phase.key == key then 1 else 0
  }

  predicate KeysKnown(s: State) {
    && Valid(s.ledger)
    && (forall i :: 0 <= i < |s.orphans| ==> s.orphans[i].key.payee < s.ledger.nextPayee)
    && (Inside(s) && s.processes[s.lock.value].phase.Importing? ==>
          s.processes[s.lock.value].phase.key.payee < s.ledger.nextPayee)
  }

  /** A key the holder may be about to use: its payee is the one found by name, or newer than the
      check. */
  predicate MayUse(s: State, run: Run, date: int, bound: nat, key: Key) {
    && key.account == run.config.account && key.date == date
    && (key.payee >= bound || FirstPayee(s.ledger.payees, run.config.payeeName) == Some(key.payee))
  }

  ghost predicate IsClear(s: State, run: Run, date: int, bound: nat) {
    && bound <= s.ledger.nextPayee
    && forall key :: MayUse(s, run, date, bound, key) ==> Count(s.ledger.transactions, key) <= s.extras[key]
  }

  /** Since an unforced run's check came out clear, nothing but extras has been added. */
  ghost predicate HolderClear(s: State) {
    Inside(s) && !s.processes[s.lock.value].run.force ==>
      var run, phase := s.processes[s.lock.value].run, s.processes[s.lock.value].phase;
      && (phase.Checked? ==> IsClear(s, run, phase.date, phase.bound))
      && (phase.Computed? ==> IsClear(s, run, phase.date, phase.bound))
  }

  /** How often a key may occur without any extras: once, or as often as it did at the start. */
  function Allowed(base: Ledger, key: Key): nat {
    if Count(base.transactions, key) > 1 then Count(base.transactions, key) else 1
  }

  ghost predicate Bounded(s: State, base: Ledger) {
    forall key :: Count(s.ledger.transactions, key) + InHand(s, key) <= s.extras[key] + Allowed(base, key)
  }

  ghost predicate Inv(s: State, base: Ledger) {
    Exclusive(s) && KeysKnown(s) && HolderClear(s) && Bounded(s, base)
  }

  lemma InitiallyInv(base: Ledger)
    requires Valid(base)
    ensures Inv(Initial(base), base)
  {
  }

  lemma TryLockKeepsInv(s: State, base: Ledger, p: nat, run: Run)
    requires Inv(s, base)
    ensures Inv(DoTryLock(s, p, run), base)
  {
    hide Valid, Allowed, Count, FirstPayee;
  }

  lemma MoveKeepsInv(s: State, base: Ledger, p: nat, phase: Phase)
    requires Inv(s, base) && p in s.processes && !s.processes[p].phase.Outside?
    requires !phase.Outside? && !phase.Checked? && !phase.Computed? && !phase.Importing?
    ensures Inv(Move(s, p, phase), base)
  {
    hide Valid, Allowed, Count, FirstPayee;
  }

  lemma LeaveKeepsInv(s: State, base: Ledger, p: nat)
    requires Inv(s, base)
    ensures Inv(DoLeave(s, p), base)
  {
    hide Valid, Allowed, Count, FirstPayee;
  }

  lemma CheckKeepsInv(s: State, base: Ledger, p: nat)
    requires Inv(s, base)
    ensures Inv(DoCheck(s, p), base)
  {
    if p in s.processes && s.processes[p].phase.HasLast? {
      var run, date := s.processes[p].run, s.processes[p].phase.date;
      forall key | MayUse(s, run, date, s.ledger.nextPayee, key)
        && FindTransaction(s.ledger, run.config.account, date, run.config.payeeName).None?
        ensures Count(s.ledger.transactions, key) <= s.extras[key]
      {
        if key.payee >= s.ledger.nextPayee {
          CountOfUnused(s.ledger.transactions, key);
        }
      }
    }
    hide Valid, Allowed, Count, FirstPayee, FindTransaction;
  }

  lemma ComputeKeepsInv(s: State, base: Ledger, p: nat)
    requires Inv(s, base)
    ensures Inv(DoCompute(s, p), base)
  {
    hide Valid, Allowed, Count, FirstPayee, ApplyBankPayment, BalanceBefore;
  }

  lemma NamePayeeKeepsInv(s: State, base: Ledger, p: nat)
    requires Inv(s, base)
    ensures Inv(DoNamePayee(s, p), base)
  {
    if p in s.processes && s.processes[p].phase.Computed? {
      var run, phase := s.processes[p].run, s.processes[p].phase;
      var key := Key(run.config.account, phase.date, EnsurePayee(s.ledger, run.config.payeeName).1);
      assert !run.force ==> MayUse(s, run, phase.date, phase.bound, key);
      hide Allowed, Count, FirstPayee;
    }
  }

  lemma ImportDoneKeepsInv(s: State, base: Ledger, p: nat)
    requires Inv(s, base)
    ensures Inv(DoImportDone(s, p), base)
  {
    if p in s.processes && s.processes[p].phase.Importing? {
      var phase := s.processes[p].phase;
      forall key {
        CountOfMore(s.ledger.transactions, Transaction(phase.key.account, phase.key.date, Some(phase.key.payee), phase.interest), key);
      }
    }
    hide Allowed, Count, FirstPayee;
  }

  lemma KillKeepsInv(s: State, base: Ledger, p: nat)
    requires Inv(s, base)
    ensures Inv(DoKill(s, p), base)
  {
    hide Valid, Allowed, Count, FirstPayee;
  }

  lemma OrphanKeepsInv(s: State, base: Ledger, i: nat)
    requires Inv(s, base)
    ensures Inv(DoOrphanImports(s, i), base) && Inv(DoOrphanDies(s, i), base)
  {
    if i < |s.orphans| {
      var orphan, without := s.orphans[i], s.orphans[..i] + s.orphans[i + 1..];
      var tx := Transaction(orphan.key.account, orphan.key.date, Some(orphan.key.payee), orphan.interest);
      forall key {
        CountOfMore(s.ledger.transactions, tx, key);
      }
      assert forall j :: 0 <= j < |without| ==> without[j] in s.orphans;
    }
    hide Allowed, Count, FirstPayee;
  }

  lemma UserAddsKeepsInv(s: State, base: Ledger, tx: Transaction)
    requires Inv(s, base)
    ensures Inv(DoUserAdds(s, tx), base)
  {
    forall key {
      CountOfMore(s.ledger.transactions, tx, key);
    }
    hide Allowed, Count, FirstPayee;
  }

  lemma UserNamesKeepsClear(s: State, name: string)
    requires HolderClear(s)
    ensures HolderClear(DoUserNames(s, name))
  {
    if Inside(s) {
      var run := s.processes[s.lock.value].run;
      FirstPayeeOfMore(s.ledger.payees, Payee(s.ledger.nextPayee, name), run.config.payeeName);
    }
    hide Count, FirstPayee;
  }

  lemma UserNamesKeepsInv(s: State, base: Ledger, name: string)
    requires Inv(s, base)
    ensures Inv(DoUserNames(s, name), base)
  {
    UserNamesKeepsClear(s, name);
    hide HolderClear, Allowed, Count;
  }

  lemma StepKeepsInv(s: State, base: Ledger, step: Step)
    requires Inv(s, base)
    ensures Inv(Do(s, step), base)
  {
    match step
    case TryLock(p, run) => TryLockKeepsInv(s, base, p, run);
    case ReadLast(p, tx) =>
      if p in s.processes && !s.processes[p].phase.Outside? {
        MoveKeepsInv(s, base, p, HasLast(tx.date, tx.amount));
      }
    case Check(p) => CheckKeepsInv(s, base, p);
    case Compute(p) => ComputeKeepsInv(s, base, p);
    case NamePayee(p) => NamePayeeKeepsInv(s, base, p);
    case ImportDone(p) => ImportDoneKeepsInv(s, base, p);
    case Leave(p) => LeaveKeepsInv(s, base, p);
    case Kill(p) => KillKeepsInv(s, base, p);
    case OrphanImports(i) => OrphanKeepsInv(s, base, i);
    case OrphanDies(i) => OrphanKeepsInv(s, base, i);
    case UserAdds(tx) => UserAddsKeepsInv(s, base, tx);
    case UserNames(name) => UserNamesKeepsInv(s, base, name);
    hide Inv, DoCheck, DoCompute, DoNamePayee, DoImportDone, DoKill, DoOrphanImports, DoUserAdds, DoUserNames, DoTryLock;
  }

  lemma {:induction false} InvAlways(base: Ledger, steps: seq<Step>)
    requires Valid(base)
    ensures Inv(After(base, steps), base)
  {
    hide Inv, Do;
    if steps == [] {
      InitiallyInv(base);
    } else {
      InvAlways(base, steps[..|steps| - 1]);
      StepKeepsInv(After(base, steps[..|steps| - 1]), base, steps[|steps| - 1]);
    }
  }

  // ----- main results

  /** At most one process is ever inside. */
  lemma MutualExclusion(base: Ledger, steps: seq<Step>, p: nat, q: nat)
    requires Valid(base)
    requires var s := After(base, steps);
             p in s.processes && q in s.processes && !s.processes[p].phase.Outside? && !s.processes[q].phase.Outside?
    ensures p == q && After(base, steps).lock == Some(p)
  {
    InvAlways(base, steps);
  }

  /** However runs, kills, users and orphans interleave, a key never occurs more often than once
      (or than it did at the start) plus the transactions that came by force, by an orphan or by
      hand. */
  lemma OncePlusExtras(base: Ledger, steps: seq<Step>, key: Key)
    requires Valid(base)
    ensures var s := After(base, steps); Count(s.ledger.transactions, key) <= Allowed(base, key) + s.extras[key]
  {
    InvAlways(base, steps);
    hide KeysKnown, HolderClear, Exclusive, Count, Allowed;
  }

  /** No forced run, no orphaned import of the payee that lands, no user entering the payee's
      transactions. */
  predicate Orderly(base: Ledger, steps: seq<Step>, payee: nat) {
    forall i :: 0 <= i < |steps| ==> OrderlyStep(After(base, steps[..i]), steps[i], payee)
  }

  predicate OrderlyStep(s: State, step: Step, payee: nat) {
    match step
    case TryLock(_, run) => !run.force
    case OrphanImports(i) => i < |s.orphans| ==> s.orphans[i].key.payee != payee
    case UserAdds(tx) => tx.payee != Some(payee)
    case _ => true
  }

  predicate NoForce(s: State) {
    forall p <- s.processes :: !s.processes[p].run.force
  }

  lemma {:induction false} OrderlyAddsNothing(base: Ledger, steps: seq<Step>, key: Key)
    requires Orderly(base, steps, key.payee)
    ensures After(base, steps).extras[key] == 0 && NoForce(After(base, steps))
  {
    if steps != [] {
      var front, step := steps[..|steps| - 1], steps[|steps| - 1];
      assert forall i :: 0 <= i < |front| ==> front[..i] == steps[..i];
      OrderlyAddsNothing(base, front, key);
      assert OrderlyStep(After(base, front), step, key.payee);
      OrderlyStepAddsNothing(After(base, front), step, key);
    }
  }

  lemma OrderlyStepAddsNothing(s: State, step: Step, key: Key)
    requires s.extras[key] == 0 && NoForce(s) && OrderlyStep(s, step, key.payee)
    ensures Do(s, step).extras[key] == 0 && NoForce(Do(s, step))
  {
    hide FindTransaction, BalanceBefore, EnsurePayee, ApplyBankPayment, Import;
  }

  /** Interest is applied at most once for an account, date and payee, over every orderly run. */
  lemma AtMostOnce(base: Ledger, steps: seq<Step>, key: Key)
    requires Valid(base) && Count(base.transactions, key) <= 1 && Orderly(base, steps, key.payee)
    ensures Count(After(base, steps).ledger.transactions, key) <= 1
  {
    OncePlusExtras(base, steps, key);
    OrderlyAddsNothing(base, steps, key);
    hide After;
  }

  // ----- one undisturbed session is one run

  /** The requests of the plan phase. */
  function PlanSession(s: State, p: nat, run: Run, tx: Transaction): State {
    DoCompute(DoCheck(DoReadLast(DoTryLock(s, p, run), p, tx), p), p)
  }

  /** A whole session; the requests that follow an early end find nothing to do. */
  function Session(s: State, p: nat, run: Run, tx: Transaction): State {
    DoLeave(DoImportDone(DoNamePayee(PlanSession(s, p, run, tx), p), p), p)
  }

  lemma PlanSessionIsPlan(s: State, p: nat, run: Run, tx: Transaction)
    requires s.lock.None? && (p in s.processes ==> s.processes[p].phase.Outside?)
    requires IsLast(s.ledger, run.config.account, tx) && run.config.payeeName != ""
    ensures var outcome := Plan(s.ledger, map[run.config.account := false], run.config, run.force, Some(tx));
            var phase := if outcome.Ready? then Computed(tx.date, outcome.plan.interest, s.ledger.nextPayee) else Finished;
            PlanSession(s, p, run, tx) == s.(lock := Some(p), processes := s.processes[p := Process(run, phase)])
  {
    hide ApplyBankPayment, BalanceBefore, FindTransaction, IsLast;
    var read := s.(lock := Some(p), processes := s.processes[p := Process(run, HasLast(tx.date, tx.amount))]);
    assert DoReadLast(DoTryLock(s, p, run), p, tx) == read;
  }

  lemma ApplySession(s: State, p: nat)
    requires p in s.processes && s.processes[p].phase.Computed?
    ensures var run, phase := s.processes[p].run, s.processes[p].phase;
            var (ledger, id) := EnsurePayee(s.ledger, run.config.payeeName);
            var after := DoImportDone(DoNamePayee(s, p), p);
            && p in after.processes && after.processes[p].phase == Finished
            && after.ledger == Import(ledger, Key(run.config.account, phase.date, id), phase.interest)
  {
    hide EnsurePayee;
  }

  /** Request by request and undisturbed, a session does to the ledger what the plan and its
      application do at once. */
  lemma SessionIsRun(s: State, p: nat, run: Run, tx: Transaction)
    requires s.lock.None? && (p in s.processes ==> s.processes[p].phase.Outside?)
    requires IsLast(s.ledger, run.config.account, tx) && run.config.payeeName != ""
    ensures var after := Session(s, p, run, tx);
            && after.lock.None?
            && after.ledger == RunOnce(s.ledger, map[run.config.account := false], run.config, run.force, Some(tx))
  {
    PlanSessionIsPlan(s, p, run, tx);
    PlanDate(s.ledger, map[run.config.account := false], run.config, run.force, tx);
    var planned := PlanSession(s, p, run, tx);
    hide IsLast, PlanSession, Plan, EnsurePayee, Import;
    if planned.processes[p].phase.Computed? {
      ApplySession(planned, p);
      hide DoNamePayee, DoImportDone;
    } else {
      assert DoImportDone(DoNamePayee(planned, p), p) == planned;
    }
  }

  lemma PlanDate(ledger: Ledger, accounts: map<string, bool>, config: Config, force: bool, tx: Transaction)
    ensures var outcome := Plan(ledger, accounts, config, force, Some(tx)); outcome.Ready? ==> outcome.plan.date == tx.date
  {
    hide ApplyBankPayment, BalanceBefore, FindTransaction;
  }

  // ----- a host killed during its import

  function PlanSteps(p: nat, run: Run, tx: Transaction): seq<Step> {
    [TryLock(p, run), ReadLast(p, tx), Check(p), Compute(p)]
  }

  lemma AfterMore(base: Ledger, steps: seq<Step>, step: Step)
    ensures After(base, steps + [step]) == Do(After(base, steps), step)
  {
    assert (steps + [step])[..|steps|] == steps;
  }

  lemma AfterPlanSteps(base: Ledger, steps: seq<Step>, p: nat, run: Run, tx: Transaction)
    ensures After(base, steps + PlanSteps(p, run, tx)) == PlanSession(After(base, steps), p, run, tx)
  {
    hide After, DoTryLock, DoReadLast, DoCheck, DoCompute;
    var one := steps + [TryLock(p, run)];
    var two := one + [ReadLast(p, tx)];
    var three := two + [Check(p)];
    AfterMore(base, steps, TryLock(p, run));
    AfterMore(base, one, ReadLast(p, tx));
    AfterMore(base, two, Check(p));
    AfterMore(base, three, Compute(p));
    assert three + [Compute(p)] == steps + PlanSteps(p, run, tx);
  }

  /** The host is killed with its import handed over. */
  function KillSteps(run: Run, tx: Transaction): seq<Step> {
    PlanSteps(1, run, tx) + [NamePayee(1)] + [Kill(1)]
  }

  /** Another process runs meanwhile. */
  function KilledOnce(run: Run, tx: Transaction): seq<Step> {
    KillSteps(run, tx) + PlanSteps(2, run, tx) + [NamePayee(2)] + [OrphanImports(0)] + [ImportDone(2)]
  }

  /** Naming the payee changes no plan: nothing has been imported under a new one. */
  lemma NamingKeepsPlan(ledger: Ledger, accounts: map<string, bool>, config: Config, tx: Transaction)
    requires Valid(ledger)
    ensures var named := EnsurePayee(ledger, config.payeeName).0;
            Plan(named, accounts, config, false, Some(tx)) == Plan(ledger, accounts, config, false, Some(tx))
            && FirstPayee(named.payees, config.payeeName) == Some(EnsurePayee(ledger, config.payeeName).1)
  {
    FirstPayeeOfMore(ledger.payees, Payee(ledger.nextPayee, config.payeeName), config.payeeName);
    if FirstPayee(ledger.payees, config.payeeName).None? {
      CountOfUnused(ledger.transactions, Key(config.account, tx.date, ledger.nextPayee));
    }
    hide ApplyBankPayment, BalanceBefore;
  }

  /** Whether an unforced run by itself would apply interest. */
  predicate WouldApply(base: Ledger, run: Run, tx: Transaction) {
    && Valid(base) && IsLast(base, run.config.account, tx) && !run.force && run.config.payeeName != ""
    && Plan(base, map[run.config.account := false], run.config, false, Some(tx)).Ready?
  }

  function PlannedInterest(base: Ledger, run: Run, tx: Transaction): int
    requires WouldApply(base, run, tx)
  {
    Plan(base, map[run.config.account := false], run.config, false, Some(tx)).plan.interest
  }

  function PlannedKey(base: Ledger, run: Run, tx: Transaction): Key {
    Key(run.config.account, tx.date, EnsurePayee(base, run.config.payeeName).1)
  }

  lemma NamedThenKilled(s: State)
    requires 1 in s.processes && s.processes[1].phase.Computed? && s.processes.Keys == {1} && s.orphans == []
    ensures var run, phase, after := s.processes[1].run, s.processes[1].phase, DoKill(DoNamePayee(s, 1), 1);
            var (ledger, id) := EnsurePayee(s.ledger, run.config.payeeName);
            && after.ledger == ledger && after.lock.None? && 2 !in after.processes
            && after.orphans == [Orphan(Key(run.config.account, phase.date, id), phase.interest)]
  {
    hide EnsurePayee;
  }

  lemma KillStepsTaken(base: Ledger, run: Run, tx: Transaction)
    ensures After(base, KillSteps(run, tx)) == DoKill(DoNamePayee(PlanSession(Initial(base), 1, run, tx), 1), 1)
  {
    hide PlanSession, DoNamePayee, DoKill;
    var steps := PlanSteps(1, run, tx);
    AfterPlanSteps(base, [], 1, run, tx);
    assert [] + steps == steps;
    AfterMore(base, steps, NamePayee(1));
    AfterMore(base, steps + [NamePayee(1)], Kill(1));
    assert After(base, []) == Initial(base);
    hide PlanSteps, After;
  }

  lemma AfterKill(base: Ledger, run: Run, tx: Transaction)
    requires WouldApply(base, run, tx)
    ensures var s := After(base, KillSteps(run, tx));
            && s.ledger == EnsurePayee(base, run.config.payeeName).0 && s.lock.None? && 2 !in s.processes
            && s.orphans == [Orphan(PlannedKey(base, run, tx), PlannedInterest(base, run, tx))]
  {
    hide Plan, PlanSession, After, IsLast, EnsurePayee, Valid, DoNamePayee, DoKill, KillSteps;
    KillStepsTaken(base, run, tx);
    PlanSessionIsPlan(Initial(base), 1, run, tx);
    NamedThenKilled(PlanSession(Initial(base), 1, run, tx));
  }

  lemma PlannedAgain(base: Ledger, run: Run, tx: Transaction)
    requires WouldApply(base, run, tx)
    ensures var named := EnsurePayee(base, run.config.payeeName).0;
            && WouldApply(named, run, tx) && PlannedInterest(named, run, tx) == PlannedInterest(base, run, tx)
            && EnsurePayee(named, run.config.payeeName) == (named, PlannedKey(base, run, tx).payee)
            && Count(base.transactions, PlannedKey(base, run, tx)) == 0
  {
    NamingKeepsPlan(base, map[run.config.account := false], run.config, tx);
    PlannedKeyIsNew(base, map[run.config.account := false], run.config, tx);
    hide ApplyBankPayment, BalanceBefore, Plan;
  }

  lemma BothLand(s: State, key: Key, interest: int)
    requires 2 in s.processes && s.processes[2].phase.Computed? && s.orphans == [Orphan(key, interest)]
    requires s.processes[2].phase.interest == interest
    requires var (run, date) := (s.processes[2].run, s.processes[2].phase.date);
             EnsurePayee(s.ledger, run.config.payeeName) == (s.ledger, key.payee)
             && key == Key(run.config.account, date, key.payee)
    ensures var imported := Transaction(key.account, key.date, Some(key.payee), interest);
            DoImportDone(DoOrphanImports(DoNamePayee(s, 2), 0), 2).ledger.transactions ==
            s.ledger.transactions + [imported] + [imported]
  {
    hide EnsurePayee;
  }

  /** Whenever an unforced run would apply interest, killing its host during the import and
      running once more can apply it twice: the lock is free while the import still goes on. */
  lemma KilledHostDoubles(base: Ledger, run: Run, tx: Transaction)
    requires WouldApply(base, run, tx)
    ensures Count(base.transactions, PlannedKey(base, run, tx)) == 0
    ensures Count(After(base, KilledOnce(run, tx)).ledger.transactions, PlannedKey(base, run, tx)) == 2
  {
    hide After, PlanSession, IsLast, Valid, Plan, EnsurePayee, FirstPayee, PlanSteps, Count;
    hide DoNamePayee, DoOrphanImports, DoImportDone;
    var key, interest := PlannedKey(base, run, tx), PlannedInterest(base, run, tx);
    var imported := Transaction(key.account, key.date, Some(key.payee), interest);
    AfterKill(base, run, tx);
    PlannedAgain(base, run, tx);
    var s := After(base, KillSteps(run, tx));
    PlanSessionIsPlan(s, 2, run, tx);
    PlanDate(s.ledger, map[run.config.account := false], run.config, false, tx);
    BothLand(PlanSession(s, 2, run, tx), key, interest);
    LastSteps(base, run, tx);
    CountOfMore(base.transactions, imported, key);
    CountOfMore(base.transactions + [imported], imported, key);
    EnsureKeepsTransactions(base, run.config.payeeName);
  }

  lemma EnsureKeepsTransactions(ledger: Ledger, name: string)
    ensures EnsurePayee(ledger, name).0.transactions == ledger.transactions
  {
  }

  lemma LastSteps(base: Ledger, run: Run, tx: Transaction)
    ensures After(base, KilledOnce(run, tx)) ==
            DoImportDone(DoOrphanImports(DoNamePayee(PlanSession(After(base, KillSteps(run, tx)), 2, run, tx), 2), 0), 2)
  {
    hide After, PlanSession, KillSteps, PlanSteps, DoNamePayee, DoOrphanImports, DoImportDone;
    var steps := KillSteps(run, tx);
    AfterPlanSteps(base, steps, 2, run, tx);
    var planned := steps + PlanSteps(2, run, tx);
    AfterMore(base, planned, NamePayee(2));
    AfterMore(base, planned + [NamePayee(2)], OrphanImports(0));
    AfterMore(base, planned + [NamePayee(2)] + [OrphanImports(0)], ImportDone(2));
  }
}
