/** The original session (backup.py): deposit and withdraw read and check their own
    amount and append to the caller's transaction list in place; the summary and the
    projection are loops; `main` is a menu loop over the balance and the list. */
module Backup {
  import opened Wrappers
  import opened Text
  import opened Ledger

  /** The Python list `transactions` that `main` creates and the operations append to. */
  class TransactionList {
    var entries: seq<Transaction>

    constructor ()
      ensures entries == []
    {
      entries := [];
    }

    method Append(t: Transaction)
      modifies this
      ensures entries == old(entries) + [t]
    {
      entries := entries + [t];
    }
  }

  /** `deposit(balance, transactions)`. `amount` is what `float()` made of the reply,
      None when it raised ValueError. A positive amount is added and logged; anything
      else leaves balance and list as they were. */
  method Deposit(balance: real, transactions: TransactionList, amount: Option<real>) returns (newBalance: real)
    modifies transactions
    ensures amount.Some? && amount.value > 0.0 ==>
              newBalance == balance + amount.value
              && transactions.entries == old(transactions.entries) + [Transaction(DepositKind, amount.value)]
    ensures !(amount.Some? && amount.value > 0.0) ==>
              newBalance == balance && transactions.entries == old(transactions.entries)
  {
    newBalance := balance;
    if amount.None? {
      return;
    }
    if amount.value <= 0.0 {
      // "Amount must be positive."
    } else {
      newBalance := newBalance + amount.value;
      transactions.Append(Transaction(DepositKind, amount.value));
    }
  }

  /** `withdraw(balance, transactions)`: refuses an unparsable or non-positive amount
      and one above the balance ("Insufficient funds."), leaving balance and list as
      they were; otherwise subtracts and logs the amount. */
  method Withdraw(balance: real, transactions: TransactionList, amount: Option<real>) returns (newBalance: real)
    modifies transactions
    ensures amount.Some? && 0.0 < amount.value <= balance ==>
              newBalance == balance - amount.value && newBalance >= 0.0
              && transactions.entries == old(transactions.entries) + [Transaction(WithdrawKind, amount.value)]
    ensures !(amount.Some? && 0.0 < amount.value <= balance) ==>
              newBalance == balance && transactions.entries == old(transactions.entries)
  {
    newBalance := balance;
    if amount.None? {
      return;
    }
    if amount.value <= 0.0 {
      // "Amount must be positive."
    } else if amount.value > newBalance {
      // "Insufficient funds."
    } else {
      newBalance := newBalance - amount.value;
      transactions.Append(Transaction(WithdrawKind, amount.value));
    }
  }

  /** The classification `summary` applies: an entry of kind "deposit" is a deposit,
      every other entry a withdrawal, so the two counts cover the whole list. */
  function Tally(transactions: seq<Transaction>): (r: Report)
    ensures r.deposits + r.withdrawals == |transactions|
    ensures r.deposits == |KindPositions(transactions, DepositKind)|
  {
    AmountsPartition(transactions, DepositKind);
    AmountsCountKind(transactions, DepositKind);
    var deposits, others := Amounts(transactions, DepositKind), OtherAmounts(transactions, DepositKind);
    Report(|deposits|, Sum(deposits), |others|, Sum(others))
  }

  /** `summary(transactions)`: one pass over the list with two counters and two totals.
      The counts add up to the length of the list; on a log of deposits and
      withdrawals only, the withdrawal side is exactly the withdrawals. */
  method Summary(transactions: seq<Transaction>) returns (r: Report)
    ensures r == Tally(transactions)
    ensures r.deposits + r.withdrawals == |transactions|
    ensures WellTagged(transactions) ==>
              r.withdrawals == |Amounts(transactions, WithdrawKind)|
              && r.withdrawalTotal == Sum(Amounts(transactions, WithdrawKind))
  {
    var deposits, withdrawals := 0, 0;
    var totalDep, totalWit := 0.0, 0.0;
    for i := 0 to |transactions|
      invariant deposits == |Amounts(transactions[..i], DepositKind)|
      invariant totalDep == Sum(Amounts(transactions[..i], DepositKind))
      invariant withdrawals == |OtherAmounts(transactions[..i], DepositKind)|
      invariant totalWit == Sum(OtherAmounts(transactions[..i], DepositKind))
    {
      var t := transactions[i];
      assert transactions[..i + 1] == transactions[..i] + [t];
      AmountsAppend(transactions[..i], t, DepositKind);
      if t.kind == DepositKind {
        SumAppend(Amounts(transactions[..i], DepositKind), t.amount);
        assert OtherAmounts(transactions[..i], DepositKind) + [] == OtherAmounts(transactions[..i], DepositKind);
        deposits := deposits + 1;
        totalDep := totalDep + t.amount;
      } else {
        SumAppend(OtherAmounts(transactions[..i], DepositKind), t.amount);
        assert Amounts(transactions[..i], DepositKind) + [] == Amounts(transactions[..i], DepositKind);
        withdrawals := withdrawals + 1;
        totalWit := totalWit + t.amount;
      }
    }
    assert transactions[..|transactions|] == transactions;
    r := Report(deposits, totalDep, withdrawals, totalWit);
    AmountsPartition(transactions, DepositKind);
    if WellTagged(transactions) {
      OtherThanDepositIsWithdraw(transactions);
    }
  }

  /** `interest_projection(balance)`: `months` is what `int()` made of the reply, None
      when it raised ValueError (nothing is shown). Otherwise the rows for months
      1..months, each a month of 2% interest on the row before; no rows when
      months <= 0. The caller's balance is a value parameter and is not changed. */
  method InterestProjection(balance: real, months: Option<int>) returns (rows: Option<seq<real>>)
    ensures months.None? ==> rows.None?
    ensures months.Some? ==> rows.Some? && |rows.value| == (if months.value < 0 then 0 else months.value)
    ensures months.Some? ==> forall i :: 0 <= i < |rows.value| ==> rows.value[i] == balance * Pow(1.0 + Rate, i + 1)
  {
    if months.None? {
      return None;
    }
    var n: nat := if months.value < 0 then 0 else months.value;
    var shown: seq<real> := [];
    var b := balance;
    var m := 1;
    while m <= months.value
      invariant 1 <= m <= n + 1
      invariant shown + Projection(b, n + 1 - m) == Projection(balance, n)
    {
      b := b + b * Rate;
      shown := shown + [b];
      m := m + 1;
    }
    assert shown == Projection(balance, n);
    forall i | 0 <= i < |shown| ensures shown[i] == balance * Pow(1.0 + Rate, i + 1) {
      ProjectionAt(balance, n, i);
    }
    rows := Some(shown);
  }

  /** `confirm_exit()`: the reply lower-cased is "y" or "yes". */
  function ConfirmExit(answer: string): (r: bool)
    ensures r <==> AnswersYes(answer)
  {
    LowerIsYes(answer);
    Lower(answer) == "y" || Lower(answer) == "yes"
  }

  /** One pass of the menu loop: the choice typed, and the reply to the prompt that
      choice leads to (only the one the choice uses matters). */
  datatype Turn = Turn(choice: string, amount: Option<real>, months: Option<int>, answer: string)

  /** The only turn that ends the session: choice "6" and a confirmed exit. */
  predicate EndsSession(t: Turn)
  {
    t.choice == "6" && ConfirmExit(t.answer)
  }

  /** What one turn of `main` does to the balance and the list: choice "2" deposits
      a positive amount, choice "3" withdraws a positive amount that the balance
      covers; every other turn, and every refused amount, leaves both as they were. */
  function Step(s: Session, t: Turn): (r: Session)
    ensures s.log <= r.log && |r.log| <= |s.log| + 1
    ensures |r.log| == |s.log| ==> r == s
  {
    if t.choice == "2" && t.amount.Some? && t.amount.value > 0.0 then
      Session(s.balance + t.amount.value, s.log + [Transaction(DepositKind, t.amount.value)])
    else if t.choice == "3" && t.amount.Some? && 0.0 < t.amount.value <= s.balance then
      Session(s.balance - t.amount.value, s.log + [Transaction(WithdrawKind, t.amount.value)])
    else
      s
  }

  /** The session after the given turns, from `start` and an empty list. */
  function Replay(start: real, turns: seq<Turn>): Session
  {
    if turns == [] then Session(start, []) else Step(Replay(start, turns[..|turns| - 1]), turns[|turns| - 1])
  }

  /** A turn keeps the session invariant, and keeps the balance non-negative once it is. */
  lemma StepKeepsAccounts(start: real, s: Session, t: Turn)
    requires Accounted(start, s.balance, s.log)
    ensures Accounted(start, Step(s, t).balance, Step(s, t).log)
    ensures s.balance >= 0.0 ==> Step(s, t).balance >= 0.0
    ensures |Step(s, t).log| <= |s.log| + 1
  {
    if t.choice == "2" && t.amount.Some? && t.amount.value > 0.0 {
      AccountedAppend(start, s.balance, s.log, Transaction(DepositKind, t.amount.value));
    } else if t.choice == "3" && t.amount.Some? && 0.0 < t.amount.value <= s.balance {
      AccountedAppend(start, s.balance, s.log, Transaction(WithdrawKind, t.amount.value));
    }
  }

  /** Across any run of turns the balance equals start + deposits - withdrawals over
      the log, every entry is a positive deposit or withdrawal, at most one entry is
      logged per turn, and a non-negative start keeps the balance non-negative. */
  lemma {:induction false} ReplayKeepsAccounts(start: real, turns: seq<Turn>)
    ensures Accounted(start, Replay(start, turns).balance, Replay(start, turns).log)
    ensures start >= 0.0 ==> Replay(start, turns).balance >= 0.0
    ensures |Replay(start, turns).log| <= |turns|
  {
    if turns != [] {
      ReplayKeepsAccounts(start, turns[..|turns| - 1]);
      StepKeepsAccounts(start, Replay(start, turns[..|turns| - 1]), turns[|turns| - 1]);
    }
  }

  /** The body of `main`'s loop for one turn: dispatches on the choice, updating the
      balance and the list as Step says, and says whether the session ends. */
  method Dispatch(balance: real, transactions: TransactionList, t: Turn) returns (newBalance: real, exit: bool)
    modifies transactions
    ensures Session(newBalance, transactions.entries) == Step(Session(balance, old(transactions.entries)), t)
    ensures exit == EndsSession(t)
  {
    newBalance, exit := balance, false;
    if t.choice == "1" {
      // shows the balance
    } else if t.choice == "2" {
      newBalance := Deposit(balance, transactions, t.amount);
    } else if t.choice == "3" {
      newBalance := Withdraw(balance, transactions, t.amount);
    } else if t.choice == "4" {
      var report := Summary(transactions.entries);
    } else if t.choice == "5" {
      var rows := InterestProjection(balance, t.months);
    } else if t.choice == "6" {
      if ConfirmExit(t.answer) {
        exit := true;
      }
    } else {
      // "Invalid option; please choose 1-6."
    }
  }

  /** `main()` from the starting balance on: `start` is whatever `float()` accepted in
      `get_user_info`, negative included. Runs the turns until a confirmed exit or
      until the script runs out; `used` is the number of turns run, and the balance
      and list are those Replay gives for them. */
  method RunMenu(start: real, turns: seq<Turn>) returns (balance: real, log: seq<Transaction>, used: nat, exited: bool)
    ensures used <= |turns|
    ensures forall j :: 0 <= j < used - 1 ==> !EndsSession(turns[j])
    ensures exited <==> 0 < used && EndsSession(turns[used - 1])
    ensures !exited ==> used == |turns|
    ensures Session(balance, log) == Replay(start, turns[..used])
    ensures WellTagged(log) && AllPositive(log) && balance == Net(start, log)
    ensures start >= 0.0 ==> balance >= 0.0
  {
    balance := start;
    var transactions := new TransactionList();
    used, exited := 0, false;
    while used < |turns| && !exited
      invariant used <= |turns|
      invariant forall j :: 0 <= j < used - 1 ==> !EndsSession(turns[j])
      invariant exited <==> 0 < used && EndsSession(turns[used - 1])
      invariant Session(balance, transactions.entries) == Replay(start, turns[..used])
    {
      assert turns[..used + 1][..used] == turns[..used];
      balance, exited := Dispatch(balance, transactions, turns[used]);
      used := used + 1;
    }
    log := transactions.entries;
    ReplayKeepsAccounts(start, turns[..used]);
  }
}
