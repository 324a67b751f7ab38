/** The refactored session (index2.py): deposit, withdraw and the interest
    calculation are functions of their arguments, input validation lives in
    `get_float`/`get_int`, and `main` updates the balance and appends to the log. */
module Refactor {
  import opened Wrappers
  import opened Text
  import opened Ledger

  /** What `get_float` returns: only positive numbers. */
  type PositiveReal = x: real | x > 0.0 witness 1.0

  /** What `get_int` returns: only positive whole numbers. */
  type PositiveInt = n: int | n > 0 witness 1

  /** One round of `get_float`'s loop. `parsed` is what `float()` made of the reply,
      None when it raised ValueError. Some(value) is the value returned; None means
      the error is shown and the prompt repeated. */
  function GetFloat(parsed: Option<real>): (r: Option<PositiveReal>)
    ensures r.Some? <==> parsed.Some? && parsed.value > 0.0
    ensures r.Some? ==> r.value == parsed.value
  {
    if parsed.None? || parsed.value <= 0.0 then None else Some(parsed.value)
  }

  /** One round of `get_int`'s loop, as GetFloat for whole numbers. */
  function GetInt(parsed: Option<int>): (r: Option<PositiveInt>)
    ensures r.Some? <==> parsed.Some? && parsed.value > 0
    ensures r.Some? ==> r.value == parsed.value
  {
    if parsed.None? || parsed.value <= 0 then None else Some(parsed.value)
  }

  /** `get_string(prompt)`: the reply with surrounding whitespace removed. */
  function GetString(reply: string): string
  {
    Strip(reply)
  }

  /** What `get_string` returns: no longer than the reply, no whitespace at either
      end, and the reply itself when it holds no whitespace. */
  lemma GetStringTrims(reply: string)
    ensures |GetString(reply)| <= |reply|
    ensures var r := GetString(reply); r == [] || (!IsSpace(r[0]) && !IsSpace(r[|r| - 1]))
    ensures (forall k :: 0 <= k < |reply| ==> !IsSpace(reply[k])) ==> GetString(reply) == reply
  {
    StripTrims(reply);
  }

  /** `deposit(balance, amount)`. */
  function Deposit(balance: real, amount: real): (r: real)
    ensures amount > 0.0 ==> r > balance
  {
    balance + amount
  }

  /** `withdraw(balance, amount)`: fails with "Insufficient funds." exactly when the
      amount exceeds the balance; otherwise what is left, never negative. */
  function Withdraw(balance: real, amount: real): (r: Result<real, string>)
    ensures r.Err? <==> amount > balance
    ensures r.Err? ==> r.error == "Insufficient funds."
    ensures r.Ok? ==> r.value >= 0.0 && r.value + amount == balance
  {
    if amount > balance then Err("Insufficient funds.") else Ok(balance - amount)
  }

  /** A withdrawal undoes a deposit of the same amount exactly when the balance
      before the deposit was not negative. */
  lemma WithdrawUndoesDeposit(balance: real, amount: real)
    ensures Withdraw(Deposit(balance, amount), amount) == Ok(balance) <==> balance >= 0.0
  {
    if balance < 0.0 {
      assert Withdraw(Deposit(balance, amount), amount).Err?;
    }
  }

  /** A deposit undoes a successful withdrawal of the same amount. */
  lemma DepositUndoesWithdraw(balance: real, amount: real)
    requires Withdraw(balance, amount).Ok?
    ensures Deposit(Withdraw(balance, amount).value, amount) == balance
  {
  }

  /** `calculate_interest(balance, months)`: the balance after each of the next
      months, month 1 first; `range(months)` is empty for months <= 0. */
  method CalculateInterest(balance: real, months: int) returns (projections: seq<real>)
    ensures |projections| == (if months < 0 then 0 else months)
    ensures projections == Projection(balance, |projections|)
    ensures forall i :: 0 <= i < |projections| ==> projections[i] == balance * Pow(1.0 + Rate, i + 1)
  {
    var n: nat := if months < 0 then 0 else months;
    projections := [];
    var b := balance;
    for k := 0 to n
      invariant |projections| == k
      invariant projections + Projection(b, n - k) == Projection(balance, n)
    {
      b := b + b * Rate;
      projections := projections + [b];
    }
    forall i | 0 <= i < n ensures projections[i] == balance * Pow(1.0 + Rate, i + 1) {
      ProjectionAt(balance, n, i);
    }
  }

  /** The aggregation of `show_summary(transactions)`: the deposits and the
      withdrawals picked out by kind, each counted and summed. Each count is the
      number of log entries of that kind, and the counts cover the whole log exactly
      when it holds no entry of another kind. */
  function ShowSummary(transactions: seq<Transaction>): (r: Report)
    ensures r.deposits + r.withdrawals <= |transactions|
    ensures r.deposits + r.withdrawals == |transactions| <==> WellTagged(transactions)
    ensures r.deposits == |KindPositions(transactions, DepositKind)|
    ensures r.withdrawals == |KindPositions(transactions, WithdrawKind)|
  {
    KindsCoverLog(transactions);
    AmountsCountKind(transactions, DepositKind);
    AmountsCountKind(transactions, WithdrawKind);
    var deposits := Amounts(transactions, DepositKind);
    var withdrawals := Amounts(transactions, WithdrawKind);
    Report(|deposits|, Sum(deposits), |withdrawals|, Sum(withdrawals))
  }

  /** Whenever the session invariant holds, the balance is the start plus the
      deposit total minus the withdrawal total that `show_summary` reports, and the
      summary's counts cover every entry of the log. */
  lemma SummaryMatchesBalance(start: real, balance: real, log: seq<Transaction>)
    requires Accounted(start, balance, log)
    ensures balance == start + ShowSummary(log).depositTotal - ShowSummary(log).withdrawalTotal
    ensures ShowSummary(log).deposits + ShowSummary(log).withdrawals == |log|
  {
    var r := ShowSummary(log);
    assert r.depositTotal - r.withdrawalTotal == Net(0.0, log);
  }

  /** `confirm_exit()`: the stripped reply lower-cased is "y" or "yes". */
  function ConfirmExit(reply: string): (r: bool)
    ensures r <==> AnswersYes(Strip(reply))
  {
    var answer := GetString(reply);
    LowerIsYes(answer);
    Lower(answer) == "y" || Lower(answer) == "yes"
  }

  /** One pass of the menu loop: the reply to the menu prompt, and the values the
      chosen option then reads (only the one the choice uses matters). Amounts and
      months are what `get_float` and `get_int` returned. */
  datatype Turn = Turn(choice: string, amount: PositiveReal, months: PositiveInt, answer: string)

  /** The only turn that ends the session: choice "6" and a confirmed exit. */
  predicate EndsSession(t: Turn)
  {
    GetString(t.choice) == "6" && ConfirmExit(t.answer)
  }

  /** What one turn of `main` does to the balance and the log: choice "2" deposits
      and logs the amount; choice "3" withdraws and logs it unless `withdraw` raises,
      in which case the exception skips both the assignment and the append; every
      other choice leaves the session as it was. */
  function Step(s: Session, t: Turn): (r: Session)
    ensures s.log <= r.log && |r.log| <= |s.log| + 1
    ensures |r.log| == |s.log| ==> r == s
  {
    var choice := GetString(t.choice);
    if choice == "2" then
      Session(Deposit(s.balance, t.amount), s.log + [Transaction(DepositKind, t.amount)])
    else if choice == "3" then
      match Withdraw(s.balance, t.amount)
      case Ok(rest) => Session(rest, s.log + [Transaction(WithdrawKind, t.amount)])
      case Err(_) => s
    else
      s
  }

  /** The session after the given turns, from `start` and an empty log. */
  function Replay(start: real, turns: seq<Turn>): Session
  {
    if turns == [] then Session(start, []) else Step(Replay(start, turns[..|turns| - 1]), turns[|turns| - 1])
  }

  /** A turn changes the session exactly when it is a deposit, or a withdrawal the
      balance covers; a refused withdrawal, a projection, a summary, a balance check,
      an exit prompt and an invalid choice change nothing. */
  lemma StepChangesOnlyOnSuccess(s: Session, t: Turn)
    ensures Step(s, t) != s <==>
              GetString(t.choice) == "2" || (GetString(t.choice) == "3" && t.amount <= s.balance)
  {
    var choice := GetString(t.choice);
    if choice == "2" || (choice == "3" && t.amount <= s.balance) {
      assert |Step(s, t).log| == |s.log| + 1;
    }
  }

  /** A turn keeps the session invariant and a non-negative balance. */
  lemma StepKeepsAccounts(start: real, s: Session, t: Turn)
    requires Accounted(start, s.balance, s.log) && s.balance >= 0.0
    ensures Accounted(start, Step(s, t).balance, Step(s, t).log) && Step(s, t).balance >= 0.0
    ensures |Step(s, t).log| <= |s.log| + 1
  {
    var choice := GetString(t.choice);
    if choice == "2" {
      var entry := Transaction(DepositKind, t.amount);
      assert Step(s, t) == Session(Deposit(s.balance, t.amount), s.log + [entry]);
      AccountedAppend(start, s.balance, s.log, entry);
    } else if choice == "3" && Withdraw(s.balance, t.amount).Ok? {
      var entry := Transaction(WithdrawKind, t.amount);
      var rest := Withdraw(s.balance, t.amount).value;
      assert rest == s.balance - t.amount;
      assert Step(s, t) == Session(rest, s.log + [entry]);
      AccountedAppend(start, s.balance, s.log, entry);
    } else {
      assert Step(s, t) == s;
    }
  }

  /** From a positive start, across any run of turns the balance stays non-negative
      and equals start + deposits - withdrawals over the log, every entry is a
      positive deposit or withdrawal, and at most one entry is logged per turn. */
  lemma {:induction false} ReplayKeepsAccounts(start: PositiveReal, turns: seq<Turn>)
    ensures Accounted(start, Replay(start, turns).balance, Replay(start, turns).log)
    ensures Replay(start, turns).balance >= 0.0
    ensures |Replay(start, turns).log| <= |turns|
  {
    if turns != [] {
      ReplayKeepsAccounts(start, turns[..|turns| - 1]);
      StepKeepsAccounts(start, Replay(start, turns[..|turns| - 1]), turns[|turns| - 1]);
    }
  }

  /** The three turns of the worked session below, one at a time. */
  lemma ExampleTurns()
    ensures Step(Session(100.0, []), Turn("2", 50.0, 1, "")) == Session(150.0, [Transaction(DepositKind, 50.0)])
    ensures Step(Session(150.0, [Transaction(DepositKind, 50.0)]), Turn("3", 200.0, 1, ""))
            == Session(150.0, [Transaction(DepositKind, 50.0)])
    ensures Step(Session(150.0, [Transaction(DepositKind, 50.0)]), Turn("3", 50.0, 1, ""))
            == Session(100.0, [Transaction(DepositKind, 50.0), Transaction(WithdrawKind, 50.0)])
  {
    assert StripStart("2") == "2" && StripEnd("2") == "2";
    assert StripStart("3") == "3" && StripEnd("3") == "3";
  }

  /** A worked session: start at 100, deposit 50, try to withdraw 200 (refused),
      withdraw 50. The balance is back at 100 with one deposit and one withdrawal
      logged. */
  lemma ExampleSession()
    ensures Replay(100.0, [Turn("2", 50.0, 1, ""), Turn("3", 200.0, 1, ""), Turn("3", 50.0, 1, "")])
            == Session(100.0, [Transaction(DepositKind, 50.0), Transaction(WithdrawKind, 50.0)])
  {
    var turns := [Turn("2", 50.0, 1, ""), Turn("3", 200.0, 1, ""), Turn("3", 50.0, 1, "")];
    ExampleTurns();
    assert turns[..1][..0] == [];
    assert turns[..2][..1] == turns[..1];
    assert turns[..3] == turns;
    var deposited := Session(150.0, [Transaction(DepositKind, 50.0)]);
    assert Replay(100.0, turns[..1]) == deposited;
    assert Replay(100.0, turns[..2]) == deposited;
  }

  /** The summary of the worked session: one deposit and one withdrawal of 50 each. */
  lemma ExampleSummary()
    ensures ShowSummary([Transaction(DepositKind, 50.0), Transaction(WithdrawKind, 50.0)]) == Report(1, 50.0, 1, 50.0)
  {
    var log := [Transaction(DepositKind, 50.0), Transaction(WithdrawKind, 50.0)];
    assert log[..1] == [log[0]] && [log[0]][..0] == [];
    assert Amounts(log, DepositKind) == [50.0];
    assert Amounts(log, WithdrawKind) == [50.0];
    assert Sum([50.0]) == 50.0 by {
      assert [50.0][..0] == [];
    }
  }

  /** The body of `main`'s loop for one turn: dispatches on the stripped choice,
      returning the balance and log Step gives and whether the session ends. */
  method Dispatch(balance: real, transactions: seq<Transaction>, t: Turn)
    returns (newBalance: real, newTransactions: seq<Transaction>, exit: bool)
    ensures Session(newBalance, newTransactions) == Step(Session(balance, transactions), t)
    ensures exit == EndsSession(t)
  {
    newBalance, newTransactions, exit := balance, transactions, false;
    var choice := GetString(t.choice);
    if choice == "1" {
      // shows the balance
    } else if choice == "2" {
      var amount := t.amount;
      newBalance := Deposit(balance, amount);
      newTransactions := transactions + [Transaction(DepositKind, amount)];
    } else if choice == "3" {
      var amount := t.amount;
      var outcome := Withdraw(balance, amount);
      if outcome.Ok? {
        newBalance := outcome.value;
        newTransactions := transactions + [Transaction(WithdrawKind, amount)];
      } else {
        // prints "Insufficient funds."
      }
    } else if choice == "4" {
      var report := ShowSummary(transactions);
    } else if choice == "5" {
      var projections := CalculateInterest(balance, t.months);
    } else if choice == "6" {
      if ConfirmExit(t.answer) {
        exit := true;
      }
    } else {
      // "Invalid option. Please choose 1-6."
    }
  }

  /** None of the first `n` turns ends the session. */
  predicate NoExitBefore(turns: seq<Turn>, n: int)
    requires n <= |turns|
  {
    forall j :: 0 <= j < n ==> !EndsSession(turns[j])
  }

  lemma NoEndSoFar(turns: seq<Turn>, used: nat)
    requires used < |turns|
    requires NoExitBefore(turns, used - 1)
    requires used == 0 || !EndsSession(turns[used - 1])
    ensures NoExitBefore(turns, used)
  {
  }

  lemma ReplayOneMore(start: real, turns: seq<Turn>, used: nat)
    requires used < |turns|
    ensures Replay(start, turns[..used + 1]) == Step(Replay(start, turns[..used]), turns[used])
  {
    assert turns[..used + 1][..used] == turns[..used];
  }

  /** `main()` from the starting balance `get_float` returned: runs the turns until
      a confirmed exit or until the script runs out; `used` is the number of turns
      run, and the balance and log are those Replay gives for them. The balance never
      goes negative and is accounted for by the log. */
  method RunMenu(start: PositiveReal, turns: seq<Turn>) returns (balance: real, log: seq<Transaction>, used: nat, exited: bool)
    ensures used <= |turns|
    ensures forall j :: 0 <= j < used - 1 ==> !EndsSession(turns[j])
    ensures exited <==> 0 < used && EndsSession(turns[used - 1])
    ensures !exited ==> used == |turns|
    ensures Session(balance, log) == Replay(start, turns[..used])
    ensures WellTagged(log) && AllPositive(log) && balance == Net(start, log)
    ensures balance >= 0.0
  {
    balance := start;
    var transactions: seq<Transaction> := [];
    used, exited := 0, false;
    while used < |turns| && !exited
      invariant used <= |turns|
      invariant NoExitBefore(turns, used - 1)
      invariant exited <==> 0 < used && EndsSession(turns[used - 1])
      invariant Session(balance, transactions) == Replay(start, turns[..used])
    {
      NoEndSoFar(turns, used);
      ReplayOneMore(start, turns, used);
      balance, transactions, exited := Dispatch(balance, transactions, turns[used]);
      used := used + 1;
    }
    log := transactions;
    ReplayKeepsAccounts(start, turns[..used]);
  }
}
