/** An account ledger as the bridge sees it, and one interest run against it: a read-only plan,
    then at most one payee and one transaction written. */
module Ledger {
  import opened Common
  import opened Numbers
  import opened Interest

  datatype Payee = Payee(id: nat, name: string)

  datatype Transaction = Transaction(account: string, date: int, payee: Option<nat>, amount: int)

  /** `nextPayee` is the id the next new payee gets; no payee has it yet. */
  datatype Ledger = Ledger(payees: seq<Payee>, nextPayee: nat, transactions: seq<Transaction>)

  /** What a duplicate is a duplicate of. */
  datatype Key = Key(account: string, date: int, payee: nat)

  predicate HasKey(tx: Transaction, key: Key) {
    tx.account == key.account && tx.date == key.date && tx.payee == Some(key.payee)
  }

  function Count(transactions: seq<Transaction>, key: Key): nat {
    if transactions == [] then 0
    else
      Count(transactions[..|transactions| - 1], key) + if HasKey(transactions[|transactions| - 1], key) then 1 else 0
  }

  predicate Valid(ledger: Ledger) {
    && (forall i :: 0 <= i < |ledger.payees| ==> ledger.payees[i].id < ledger.nextPayee)
    && (forall i :: 0 <= i < |ledger.transactions| ==>
          ledger.transactions[i].payee.Some? ==> ledger.transactions[i].payee.value < ledger.nextPayee)
  }

  // ----- lookups

  /** The id of the first payee with the given name. */
  function FirstPayee(payees: seq<Payee>, name: string): (id: Option<nat>)
    ensures id.None? <==> forall i :: 0 <= i < |payees| ==> payees[i].name != name
    ensures id.Some? ==> exists i :: 0 <= i < |payees| && payees[i] == Payee(id.value, name)
                                     && forall j :: 0 <= j < i ==> payees[j].name != name
  {
    if payees == [] then None
    else if payees[0].name == name then
      assert payees[0] == Payee(payees[0].id, name);
      Some(payees[0].id)
    else
      var later := FirstPayee(payees[1..], name);
      assert payees == [payees[0]] + payees[1..];
      assert forall i :: 0 <= i < |payees| - 1 ==> payees[i + 1] == payees[1..][i];
      later
  }

  /** The first transaction with the given key. */
  function FirstWithKey(transactions: seq<Transaction>, key: Key): (tx: Option<Transaction>)
    ensures tx.None? <==> Count(transactions, key) == 0
    ensures tx.Some? ==> tx.value in transactions && HasKey(tx.value, key)
  {
    if transactions == [] then None
    else
      var front, last := transactions[..|transactions| - 1], transactions[|transactions| - 1];
      match FirstWithKey(front, key)
      case Some(tx) => Some(tx)
      case None => if HasKey(last, key) then Some(last) else None
  }

  function FindTransaction(ledger: Ledger, account: string, date: int, payeeName: string): Option<Transaction> {
    match FirstPayee(ledger.payees, payeeName)
    case None => None
    case Some(id) => FirstWithKey(ledger.transactions, Key(account, date, id))
  }

  /** Whether a transaction is among the account's latest; among several on the last day the
      query may return any. */
  predicate IsLast(ledger: Ledger, account: string, tx: Transaction) {
    && tx in ledger.transactions && tx.account == account
    && forall i :: 0 <= i < |ledger.transactions| && ledger.transactions[i].account == account ==>
                     ledger.transactions[i].date <= tx.date
  }

  /** The sum of an account's transactions dated strictly before a day. */
  function BalanceBefore(transactions: seq<Transaction>, account: string, date: int): int {
    if transactions == [] then 0
    else
      var tx := transactions[|transactions| - 1];
      BalanceBefore(transactions[..|transactions| - 1], account, date)
        + if tx.account == account && tx.date < date then tx.amount else 0
  }

  /** The sum of an account's transactions from a day on. */
  function SumFrom(transactions: seq<Transaction>, account: string, date: int): int {
    if transactions == [] then 0
    else
      var tx := transactions[|transactions| - 1];
      SumFrom(transactions[..|transactions| - 1], account, date)
        + if tx.account == account && tx.date >= date then tx.amount else 0
  }

  function Balance(transactions: seq<Transaction>, account: string): int {
    if transactions == [] then 0
    else
      var tx := transactions[|transactions| - 1];
      Balance(transactions[..|transactions| - 1], account) + if tx.account == account then tx.amount else 0
  }

  // ----- writes

  /** Creates the payee unless one of that name exists, and gives its id. */
  function EnsurePayee(ledger: Ledger, name: string): (Ledger, nat) {
    match FirstPayee(ledger.payees, name)
    case Some(id) => (ledger, id)
    case None =>
      (ledger.(payees := ledger.payees + [Payee(ledger.nextPayee, name)], nextPayee := ledger.nextPayee + 1),
       ledger.nextPayee)
  }

  function Import(ledger: Ledger, key: Key, amount: int): Ledger {
    ledger.(transactions := ledger.transactions + [Transaction(key.account, key.date, Some(key.payee), amount)])
  }

  // ----- one run

  datatype Config = Config(account: string, payeeName: string, period: InterestPeriod, rate: real, round: bool)

  datatype InterestPlan = InterestPlan(date: int, cutoff: int, balance: int, interest: int, newBalance: int)

  datatype PlanOutcome =
    | AccountNotFound
    | AccountClosed
    | NoTransactions
    | MissingPayeeName
    | AlreadyApplied(date: int, amount: int)
    | NoInterest(balance: int, cutoff: int)
    | Ready(plan: InterestPlan)

  /** The plan phase. `accounts` says of each account whether it is closed; `lastTx` is what the
      query for the last transaction returned. */
  function Plan(ledger: Ledger, accounts: map<string, bool>, config: Config, force: bool, lastTx: Option<Transaction>): PlanOutcome {
    if config.account !in accounts then AccountNotFound
    else if accounts[config.account] then AccountClosed
    else if lastTx.None? then NoTransactions
    else if !force && config.payeeName == "" then MissingPayeeName
    else
      var date := lastTx.value.date;
      var existing := if force then None else FindTransaction(ledger, config.account, date, config.payeeName);
      if existing.Some? then AlreadyApplied(existing.value.date, existing.value.amount)
      else
        var cutoff := config.period.CutoffFor(date);
        var balance := BalanceBefore(ledger.transactions, config.account, cutoff);
        var result := ApplyBankPayment(balance, lastTx.value.amount, config.rate, config.round);
        if result.interest == 0 then NoInterest(balance, cutoff)
        else Ready(InterestPlan(date, cutoff, balance, result.interest, result.newBalance))
  }

  /** The live apply phase: the payee, then the transaction. */
  function Apply(ledger: Ledger, config: Config, plan: InterestPlan): Ledger {
    var (withPayee, id) := EnsurePayee(ledger, config.payeeName);
    Import(withPayee, Key(config.account, plan.date, id), plan.interest)
  }

  /** One live run. */
  function RunOnce(ledger: Ledger, accounts: map<string, bool>, config: Config, force: bool, lastTx: Option<Transaction>): Ledger {
    match Plan(ledger, accounts, config, force, lastTx)
    case Ready(plan) => if config.payeeName == "" then ledger else Apply(ledger, config, plan)
    case _ => ledger
  }

  /** The budget the bridge has open, updated in place. */
  class Budget {
    var payees: seq<Payee>
    var nextPayee: nat
    var transactions: seq<Transaction>

    function Snapshot(): Ledger
      reads this
    {
      Ledger(payees, nextPayee, transactions)
    }

    constructor (ledger: Ledger)
      ensures Snapshot() == ledger
    {
      payees, nextPayee, transactions := ledger.payees, ledger.nextPayee, ledger.transactions;
    }

    /** Afterwards the first payee of that name has the returned id. A payee is added only if
        there was none of that name, behind the others and with an id none of them has. */
    method NamePayee(name: string) returns (id: nat)
      requires Valid(Snapshot())
      modifies this
      ensures Valid(Snapshot()) && transactions == old(transactions)
      ensures FirstPayee(payees, name) == Some(id)
      ensures old(payees) <= payees
      ensures if (exists p <- old(payees) :: p.name == name) then payees == old(payees)
              else |payees| == |old(payees)| + 1 && forall p <- old(payees) :: p.id != id
      ensures forall other :: other != name ==> FirstPayee(payees, other) == FirstPayee(old(payees), other)
      ensures (Snapshot(), id) == EnsurePayee(old(Snapshot()), name)
    {
      forall other {
        FirstPayeeOfMore(payees, Payee(nextPayee, name), other);
      }
      var found := FirstPayee(payees, name);
      if found.Some? {
        return found.value;
      }
      id := nextPayee;
      payees, nextPayee := payees + [Payee(id, name)], id + 1;
    }

    /** One more transaction of that account, date and payee, none of any other; only its
        account's balance moves, by the amount. */
    method ImportTransaction(key: Key, amount: int)
      modifies this
      ensures forall k :: Count(transactions, k) == Count(old(transactions), k) + if k == key then 1 else 0
      ensures forall account :: Balance(transactions, account)
                             == Balance(old(transactions), account) + if account == key.account then amount else 0
      ensures Snapshot() == Import(old(Snapshot()), key, amount)
    {
      var tx := Transaction(key.account, key.date, Some(key.payee), amount);
      forall k
        ensures Count(transactions + [tx], k) == Count(transactions, k) + if k == key then 1 else 0
      {
        CountOfMore(transactions, tx, k);
      }
      assert (transactions + [tx])[..|transactions|] == transactions;
      transactions := transactions + [Transaction(key.account, key.date, Some(key.payee), amount)];
    }

    /** The plan, read off request by request. It is ready exactly for a listed and open account
        with a last transaction, a payee name and no transaction of that payee on that day (both
        unless forced), and interest on the balance before the day before. */
    method MakePlan(accounts: map<string, bool>, config: Config, force: bool, lastTx: Option<Transaction>) returns (outcome: PlanOutcome)
      ensures outcome == Plan(Snapshot(), accounts, config, force, lastTx)
      ensures outcome == AccountNotFound <==> config.account !in accounts
      ensures outcome == AccountClosed <==> config.account in accounts && accounts[config.account]
      ensures outcome == NoTransactions <==> config.account in accounts && !accounts[config.account] && lastTx.None?
      ensures outcome == MissingPayeeName <==>
              config.account in accounts && !accounts[config.account] && lastTx.Some? && !force && config.payeeName == ""
      ensures outcome.AlreadyApplied? <==>
              && config.account in accounts && !accounts[config.account] && lastTx.Some? && !force && config.payeeName != ""
              && FirstPayee(payees, config.payeeName).Some?
              && Count(transactions, Key(config.account, lastTx.value.date, FirstPayee(payees, config.payeeName).value)) > 0
      ensures outcome.AlreadyApplied? ==>
              outcome.date == lastTx.value.date && exists tx <- transactions ::
                HasKey(tx, Key(config.account, lastTx.value.date, FirstPayee(payees, config.payeeName).value)) && tx.amount == outcome.amount
      ensures outcome.Ready? <==>
              && config.account in accounts && !accounts[config.account] && lastTx.Some?
              && (force || (config.payeeName != "" &&
                            (FirstPayee(payees, config.payeeName).None? ||
                             Count(transactions, Key(config.account, lastTx.value.date, FirstPayee(payees, config.payeeName).value)) == 0)))
              && InterestOn(Abs(BalanceBefore(transactions, config.account, lastTx.value.date - 1)), config.rate, config.round) != 0
      ensures outcome.NoInterest? ==>
              && outcome.cutoff == lastTx.value.date - 1
              && outcome.balance == BalanceBefore(transactions, config.account, lastTx.value.date - 1)
              && InterestOn(Abs(outcome.balance), config.rate, config.round) == 0
      ensures outcome.Ready? ==>
              var interest := InterestOn(Abs(outcome.plan.balance), config.rate, config.round);
              && outcome.plan.date == lastTx.value.date && outcome.plan.cutoff == lastTx.value.date - 1
              && outcome.plan.balance == BalanceBefore(transactions, config.account, lastTx.value.date - 1)
              && outcome.plan.interest == (if outcome.plan.balance < 0 then -interest else interest)
              && outcome.plan.newBalance == (if outcome.plan.balance < 0 then outcome.plan.balance - interest + lastTx.value.amount
                                             else outcome.plan.balance + interest - lastTx.value.amount)
    {
      hide InterestOn;
      if config.account !in accounts {
        return AccountNotFound;
      }
      if accounts[config.account] {
        return AccountClosed;
      }
      if lastTx.None? {
        return NoTransactions;
      }
      var date := lastTx.value.date;
      if !force {
        if config.payeeName == "" {
          return MissingPayeeName;
        }
        var existing := FindTransaction(Snapshot(), config.account, date, config.payeeName);
        if existing.Some? {
          return AlreadyApplied(existing.value.date, existing.value.amount);
        }
      }
      var cutoff := config.period.CutoffFor(date);
      var balance := BalanceBefore(transactions, config.account, cutoff);
      var result := ApplyBankPayment(balance, lastTx.value.amount, config.rate, config.round);
      if result.interest == 0 {
        return NoInterest(balance, cutoff);
      }
      return Ready(InterestPlan(date, cutoff, balance, result.interest, result.newBalance));
    }

    /** One live run. Applying moves the account's balance by the planned interest, adds one
        transaction for its account, date and payee and none for any other; after an unforced
        application there is exactly one. Anything but a ready plan changes nothing. */
    method RunLive(accounts: map<string, bool>, config: Config, force: bool, lastTx: Option<Transaction>) returns (outcome: PlanOutcome)
      requires Valid(Snapshot())
      modifies this
      ensures outcome == Plan(old(Snapshot()), accounts, config, force, lastTx)
      ensures config.account !in accounts ==> outcome == AccountNotFound && Snapshot() == old(Snapshot())
      ensures config.account in accounts && accounts[config.account] ==> outcome == AccountClosed && Snapshot() == old(Snapshot())
      ensures outcome.Ready? ==>
              && lastTx.Some? && outcome.plan.date == lastTx.value.date && outcome.plan.cutoff == lastTx.value.date - 1
              && outcome.plan.balance == BalanceBefore(old(transactions), config.account, lastTx.value.date - 1)
              && Abs(outcome.plan.interest) == Abs(InterestOn(Abs(outcome.plan.balance), config.rate, config.round)) != 0
      ensures !outcome.Ready? || config.payeeName == "" ==> Snapshot() == old(Snapshot())
      ensures outcome.Ready? && config.payeeName != "" ==>
              && Balance(transactions, config.account) == Balance(old(transactions), config.account) + outcome.plan.interest
              && FirstPayee(payees, config.payeeName).Some?
              && var key := Key(config.account, lastTx.value.date, FirstPayee(payees, config.payeeName).value);
              && (forall k :: Count(transactions, k) == Count(old(transactions), k) + if k == key then 1 else 0)
              && (!force ==> Count(transactions, key) == 1)
      ensures Snapshot() == RunOnce(old(Snapshot()), accounts, config, force, lastTx)
    {
      hide InterestOn, BalanceBefore, ApplyBankPayment, Plan, Count, Balance, FirstPayee;
      outcome := MakePlan(accounts, config, force, lastTx);
      if outcome.Ready? && config.payeeName != "" {
        ghost var before := Snapshot();
        PlannedKeyIsNew(before, accounts, config, lastTx.value);
        var id := NamePayee(config.payeeName);
        ImportTransaction(Key(config.account, outcome.plan.date, id), outcome.plan.interest);
      }
    }
  }

  // ----- what a run guarantees

  lemma FirstPayeeOfMore(payees: seq<Payee>, payee: Payee, name: string)
    ensures FirstPayee(payees + [payee], name) ==
            if FirstPayee(payees, name).Some? then FirstPayee(payees, name)
            else if payee.name == name then Some(payee.id) else None
  {
    if payees == [] {
      assert FirstPayee([payee], name) == if payee.name == name then Some(payee.id) else FirstPayee([], name);
    } else {
      FirstPayeeOfMore(payees[1..], payee, name);
      assert (payees + [payee])[1..] == payees[1..] + [payee];
    }
  }

  lemma CountOfMore(transactions: seq<Transaction>, tx: Transaction, key: Key)
    ensures Count(transactions + [tx], key) == Count(transactions, key) + if HasKey(tx, key) then 1 else 0
  {
    assert (transactions + [tx])[..|transactions|] == transactions;
  }

  /** An id no transaction uses has no key counted. */
  lemma {:induction false} CountOfUnused(transactions: seq<Transaction>, key: Key)
    requires forall i :: 0 <= i < |transactions| ==> transactions[i].payee != Some(key.payee)
    ensures Count(transactions, key) == 0
  {
    if transactions != [] {
      CountOfUnused(transactions[..|transactions| - 1], key);
    }
  }

  /** Applying adds exactly one transaction, of the plan's key, and afterwards finds the payee. */
  lemma ApplyAddsOne(ledger: Ledger, config: Config, plan: InterestPlan)
    requires Valid(ledger)
    ensures var after := Apply(ledger, config, plan);
            && Valid(after)
            && FirstPayee(after.payees, config.payeeName).Some?
            && var key := Key(config.account, plan.date, FirstPayee(after.payees, config.payeeName).value);
            && after.transactions == ledger.transactions + [Transaction(key.account, key.date, Some(key.payee), plan.interest)]
            && Count(after.transactions, key) == Count(ledger.transactions, key) + 1
  {
    FirstPayeeOfMore(ledger.payees, Payee(ledger.nextPayee, config.payeeName), config.payeeName);
    hide FirstPayee, Count;
    var key := Key(config.account, plan.date, EnsurePayee(ledger, config.payeeName).1);
    CountOfMore(ledger.transactions, Transaction(key.account, key.date, Some(key.payee), plan.interest), key);
  }

  /** An unforced plan is ready only if no transaction has the key its application will use. */
  lemma PlannedKeyIsNew(ledger: Ledger, accounts: map<string, bool>, config: Config, lastTx: Transaction)
    requires Valid(ledger)
    ensures Plan(ledger, accounts, config, false, Some(lastTx)).Ready? ==>
            Count(ledger.transactions, Key(config.account, lastTx.date, EnsurePayee(ledger, config.payeeName).1)) == 0
  {
    hide ApplyBankPayment;
    if FirstPayee(ledger.payees, config.payeeName).None? {
      CountOfUnused(ledger.transactions, Key(config.account, lastTx.date, ledger.nextPayee));
    }
  }

  /** A second unforced run right after an applied one finds exactly the transaction just added,
      whichever last transaction it is given, and changes nothing. */
  lemma SecondRunSkips(ledger: Ledger, accounts: map<string, bool>, config: Config, lastTx: Transaction, lastTx': Transaction)
    requires Valid(ledger) && IsLast(ledger, config.account, lastTx)
    requires Plan(ledger, accounts, config, false, Some(lastTx)).Ready?
    requires IsLast(RunOnce(ledger, accounts, config, false, Some(lastTx)), config.account, lastTx')
    ensures var plan := Plan(ledger, accounts, config, false, Some(lastTx)).plan;
            var after := RunOnce(ledger, accounts, config, false, Some(lastTx));
            && after == Apply(ledger, config, plan)
            && Plan(after, accounts, config, false, Some(lastTx')) == AlreadyApplied(lastTx.date, plan.interest)
            && RunOnce(after, accounts, config, false, Some(lastTx')) == after
  {
    var plan := Plan(ledger, accounts, config, false, Some(lastTx)).plan;
    var after := Apply(ledger, config, plan);
    ApplyAddsOne(ledger, config, plan);
    var key := Key(config.account, plan.date, FirstPayee(after.payees, config.payeeName).value);
    PlannedKeyIsNew(ledger, accounts, config, lastTx);
    var added := Transaction(key.account, key.date, Some(key.payee), plan.interest);
    assert after.transactions[..|ledger.transactions|] == ledger.transactions;
    assert FirstWithKey(after.transactions, key) == Some(added);
    assert after.transactions[|ledger.transactions|] == added;
    assert lastTx'.date == lastTx.date by {
      var i :| 0 <= i < |ledger.transactions| && ledger.transactions[i] == lastTx;
      var j :| 0 <= j < |after.transactions| && after.transactions[j] == lastTx';
      assert after.transactions[i] == lastTx;
      assert j < |ledger.transactions| ==> ledger.transactions[j] == lastTx';
    }
  }

  lemma {:induction false} BalanceSplits(transactions: seq<Transaction>, account: string, date: int)
    ensures Balance(transactions, account) == BalanceBefore(transactions, account, date) + SumFrom(transactions, account, date)
  {
    if transactions != [] {
      BalanceSplits(transactions[..|transactions| - 1], account, date);
    }
  }

  /** The new balance a run reports, forced or not, is the account's balance afterwards exactly
      when the transactions from the cutoff day on amount to the payment alone: what lowers a
      debt, or what is taken from savings. The balance is taken strictly before the cutoff, so the
      day between the cutoff and the payment must be empty as well. */
  lemma ReportedBalance(ledger: Ledger, accounts: map<string, bool>, config: Config, force: bool, lastTx: Transaction)
    requires Valid(ledger) && Plan(ledger, accounts, config, force, Some(lastTx)).Ready? && config.payeeName != ""
    ensures var reported := Plan(ledger, accounts, config, force, Some(lastTx)).plan.newBalance;
            var after := RunOnce(ledger, accounts, config, force, Some(lastTx));
            var cutoff := lastTx.date - 1;
            reported == Balance(after.transactions, config.account) <==>
            SumFrom(ledger.transactions, config.account, cutoff) ==
              (if BalanceBefore(ledger.transactions, config.account, cutoff) >= 0 then -lastTx.amount else lastTx.amount)
  {
    hide InterestOn;
    var plan := Plan(ledger, accounts, config, force, Some(lastTx)).plan;
    ApplyAddsOne(ledger, config, plan);
    var after := Apply(ledger, config, plan);
    BalanceSplits(ledger.transactions, config.account, plan.cutoff);
    assert after.transactions[..|ledger.transactions|] == ledger.transactions;
  }

  /** A debt of 100.00, a charge of 20.00 on the day before the last payment, and a payment of
      50.00. */
  const CHARGED: Ledger := Ledger([], 0, [
    Transaction("loan", 1, None, -100_00), Transaction("loan", 9, None, -20_00), Transaction("loan", 10, None, 50_00)])

  const LOAN: Config := Config("loan", "Bank", InterestPeriod.Monthly, 0.01, true)

  /** The charge is left out: the run reports a new balance of -51.00 where the account has -71.00. */
  lemma ReportedBalanceExample()
    ensures var plan := Plan(CHARGED, map["loan" := false], LOAN, false, Some(CHARGED.transactions[2]));
            var after := RunOnce(CHARGED, map["loan" := false], LOAN, false, Some(CHARGED.transactions[2]));
            && IsLast(CHARGED, "loan", CHARGED.transactions[2])
            && plan == Ready(InterestPlan(10, 9, -100_00, -1_00, -51_00))
            && Balance(after.transactions, "loan") == -71_00
  {
    var ts := CHARGED.transactions;
    var key := Key("loan", 10, 0);
    assert ts[..2][..1] == ts[..1] && ts[..1][..0] == [];
    assert BalanceBefore(ts[..1], "loan", 9) == -100_00;
    assert BalanceBefore(ts[..2], "loan", 9) == -100_00;
    assert BalanceBefore(ts, "loan", 9) == -100_00;
    assert Balance(ts[..1], "loan") == -100_00;
    assert Balance(ts[..2], "loan") == -120_00;
    assert Balance(ts, "loan") == -70_00;
    assert ApplyBankPayment(-100_00, 50_00, 0.01, true) == BankPaymentResult(-1_00, 49_00, -51_00);
    var plan := InterestPlan(10, 9, -100_00, -1_00, -51_00);
    assert FirstPayee([], "Bank") == None;
    hide ApplyBankPayment, BalanceBefore, FirstPayee, Balance;
    AppliedBalance(CHARGED, LOAN, plan);
  }

  lemma AppliedBalance(ledger: Ledger, config: Config, plan: InterestPlan)
    requires Valid(ledger)
    ensures Balance(Apply(ledger, config, plan).transactions, config.account) == Balance(ledger.transactions, config.account) + plan.interest
  {
    ApplyAddsOne(ledger, config, plan);
    var after := Apply(ledger, config, plan);
    assert after.transactions[..|ledger.transactions|] == ledger.transactions;
  }
}
