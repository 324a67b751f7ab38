/** What both versions of the account session share: the transaction log of
    `(kind, amount)` pairs, the sums over it that the balance and the summary are
    made of, and the compound-interest projection. */
module Ledger {

  /** The two kinds the session writes into its log. */
  const DepositKind: string := "deposit"
  const WithdrawKind: string := "withdraw"

  /** The monthly interest rate, 2%. */
  const Rate: real := 0.02

  /** One log entry: the tuple `(kind, amount)` the source appends. The kind is the
      source's own string, so a log may in principle hold other kinds. */
  datatype Transaction = Transaction(kind: string, amount: real)

  /** What the summary reports: a count and a total per kind. */
  datatype Report = Report(deposits: nat, depositTotal: real, withdrawals: nat, withdrawalTotal: real)

  /** The state `main` keeps between menu choices: the running balance and the log. */
  datatype Session = Session(balance: real, log: seq<Transaction>)

  /** Every entry is a deposit or a withdrawal. */
  predicate WellTagged(log: seq<Transaction>)
  {
    forall i :: 0 <= i < |log| ==> log[i].kind == DepositKind || log[i].kind == WithdrawKind
  }

  /** Every logged amount is positive. */
  predicate AllPositive(log: seq<Transaction>)
  {
    forall i :: 0 <= i < |log| ==> log[i].amount > 0.0
  }

  /** The amounts of the entries of kind `kind`, in log order. */
  function Amounts(log: seq<Transaction>, kind: string): (r: seq<real>)
    ensures |r| <= |log|
  {
    if log == [] then []
    else
      var last := log[|log| - 1];
      Amounts(log[..|log| - 1], kind) + (if last.kind == kind then [last.amount] else [])
  }

  /** The amounts of the entries of any kind other than `kind`, in log order. */
  function OtherAmounts(log: seq<Transaction>, kind: string): (r: seq<real>)
    ensures |r| <= |log|
  {
    if log == [] then []
    else
      var last := log[|log| - 1];
      OtherAmounts(log[..|log| - 1], kind) + (if last.kind != kind then [last.amount] else [])
  }

  function Sum(xs: seq<real>): real
  {
    if xs == [] then 0.0 else Sum(xs[..|xs| - 1]) + xs[|xs| - 1]
  }

  /** The balance the log accounts for: start + deposits - withdrawals. */
  function Net(start: real, log: seq<Transaction>): real
  {
    start + Sum(Amounts(log, DepositKind)) - Sum(Amounts(log, WithdrawKind))
  }

  lemma AmountsAppend(log: seq<Transaction>, t: Transaction, kind: string)
    ensures Amounts(log + [t], kind) == Amounts(log, kind) + (if t.kind == kind then [t.amount] else [])
    ensures OtherAmounts(log + [t], kind) == OtherAmounts(log, kind) + (if t.kind != kind then [t.amount] else [])
  {
    assert (log + [t])[..|log|] == log;
  }

  lemma SumAppend(xs: seq<real>, x: real)
    ensures Sum(xs + [x]) == Sum(xs) + x
  {
    assert (xs + [x])[..|xs|] == xs;
  }

  /** Appending a deposit adds its amount to the net balance, appending a
      withdrawal subtracts it: the conservation step of every successful operation. */
  lemma NetAppend(start: real, log: seq<Transaction>, t: Transaction)
    requires t.kind == DepositKind || t.kind == WithdrawKind
    ensures Net(start, log + [t]) == Net(start, log) + (if t.kind == DepositKind then t.amount else -t.amount)
  {
    var deposits, withdrawals := Amounts(log, DepositKind), Amounts(log, WithdrawKind);
    AmountsAppend(log, t, DepositKind);
    AmountsAppend(log, t, WithdrawKind);
    if t.kind == DepositKind {
      assert deposits + [] == deposits && withdrawals + [] == withdrawals;
      assert Amounts(log + [t], WithdrawKind) == withdrawals;
      SumAppend(deposits, t.amount);
    } else {
      assert deposits + [] == deposits;
      assert Amounts(log + [t], DepositKind) == deposits;
      SumAppend(withdrawals, t.amount);
    }
  }

  /** The session invariant: the log holds deposits and withdrawals of positive
      amounts only, and the balance is the start plus the deposits minus the
      withdrawals. */
  predicate Accounted(start: real, balance: real, log: seq<Transaction>)
  {
    WellTagged(log) && AllPositive(log) && balance == Net(start, log)
  }

  /** Logging a positive deposit or withdrawal while moving the balance by its
      amount keeps the session invariant. */
  lemma AccountedAppend(start: real, balance: real, log: seq<Transaction>, t: Transaction)
    requires Accounted(start, balance, log)
    requires t.kind == DepositKind || t.kind == WithdrawKind
    requires t.amount > 0.0
    ensures Accounted(start, if t.kind == DepositKind then balance + t.amount else balance - t.amount, log + [t])
  {
    NetAppend(start, log, t);
    var log' := log + [t];
    forall i | 0 <= i < |log'| ensures (log'[i].kind == DepositKind || log'[i].kind == WithdrawKind) && log'[i].amount > 0.0 {
      if i < |log| {
        assert log'[i] == log[i];
      }
    }
  }

  /** The positions in the log of the entries of kind `kind`. */
  function KindPositions(log: seq<Transaction>, kind: string): set<int>
  {
    set i | 0 <= i < |log| && log[i].kind == kind
  }

  /** Picking out the amounts of one kind keeps one amount per entry of that kind:
      the count is the number of positions holding that kind. */
  lemma {:induction false} AmountsCountKind(log: seq<Transaction>, kind: string)
    ensures |Amounts(log, kind)| == |KindPositions(log, kind)|
  {
    if log == [] {
      assert KindPositions(log, kind) == {};
    } else {
      var init, last := log[..|log| - 1], log[|log| - 1];
      AmountsCountKind(init, kind);
      var before := KindPositions(init, kind);
      assert |log| - 1 !in before;
      if last.kind == kind {
        assert KindPositions(log, kind) == before + {|log| - 1};
      } else {
        assert KindPositions(log, kind) == before;
      }
    }
  }

  /** Each entry is either of kind `kind` or of another kind, never both. */
  lemma {:induction false} AmountsPartition(log: seq<Transaction>, kind: string)
    ensures |Amounts(log, kind)| + |OtherAmounts(log, kind)| == |log|
  {
    if log != [] {
      AmountsPartition(log[..|log| - 1], kind);
    }
  }

  /** The entries that are not deposits are exactly the withdrawals when every
      entry is one of the two kinds. */
  lemma {:induction false} OtherThanDepositIsWithdraw(log: seq<Transaction>)
    requires WellTagged(log)
    ensures OtherAmounts(log, DepositKind) == Amounts(log, WithdrawKind)
  {
    if log != [] {
      OtherThanDepositIsWithdraw(log[..|log| - 1]);
    }
  }

  /** Deposits and withdrawals together account for the whole log exactly when
      the log holds no entry of a third kind. */
  lemma {:induction false} KindsCoverLog(log: seq<Transaction>)
    ensures |Amounts(log, DepositKind)| + |Amounts(log, WithdrawKind)| <= |log|
    ensures |Amounts(log, DepositKind)| + |Amounts(log, WithdrawKind)| == |log| <==> WellTagged(log)
  {
    if log == [] {
    } else {
      var init, last := log[..|log| - 1], log[|log| - 1];
      KindsCoverLog(init);
      assert log == init + [last];
      AmountsAppend(init, last, DepositKind);
      AmountsAppend(init, last, WithdrawKind);
      if WellTagged(log) {
        assert WellTagged(init) by {
          forall i | 0 <= i < |init| ensures init[i].kind == DepositKind || init[i].kind == WithdrawKind {
            assert init[i] == log[i];
          }
        }
      } else if !WellTagged(init) {
        assert |Amounts(init, DepositKind)| + |Amounts(init, WithdrawKind)| < |init|;
      } else {
        assert last.kind != DepositKind && last.kind != WithdrawKind;
      }
    }
  }

  /** One month of interest: `balance + balance * rate`. */
  function Grow(balance: real): real
  {
    balance + balance * Rate
  }

  function Pow(x: real, n: nat): real
  {
    if n == 0 then 1.0 else x * Pow(x, n - 1)
  }

  /** The balances after each of the next `months` months, month 1 first. */
  function Projection(balance: real, months: nat): (r: seq<real>)
    ensures |r| == months
    decreases months
  {
    if months == 0 then [] else [Grow(balance)] + Projection(Grow(balance), months - 1)
  }

  /** The projection is the compound-interest closed form: month i+1 holds
      balance * 1.02^(i+1). */
  lemma {:induction false} ProjectionAt(balance: real, months: nat, i: nat)
    requires i < months
    ensures Projection(balance, months)[i] == balance * Pow(1.0 + Rate, i + 1)
    decreases months
  {
    var g := 1.0 + Rate;
    assert Grow(balance) == balance * g;
    if i == 0 {
      if months > 1 {
        ProjectionAt(Grow(balance), months - 1, 0);
      }
    } else {
      ProjectionAt(Grow(balance), months - 1, i - 1);
      calc {
        Projection(balance, months)[i];
        Projection(Grow(balance), months - 1)[i - 1];
        (balance * g) * Pow(g, i);
        balance * (g * Pow(g, i));
        balance * Pow(g, i + 1);
      }
    }
  }

  /** Each month's balance is the previous month's with one month of interest. */
  lemma ProjectionStep(balance: real, months: nat, i: nat)
    requires 0 < i < months
    ensures Projection(balance, months)[i] == Grow(Projection(balance, months)[i - 1])
  {
    ProjectionAt(balance, months, i);
    ProjectionAt(balance, months, i - 1);
    var g := 1.0 + Rate;
    calc {
      Grow(Projection(balance, months)[i - 1]);
      (balance * Pow(g, i)) * g;
      balance * (g * Pow(g, i));
    }
  }
}
