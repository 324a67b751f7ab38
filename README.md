# Account session of the Text-Based Banking & Utility System

This project models the core of a console banking program as Dafny code and proves
properties about it. The core is the account session. It holds a running balance and an
append-only log of `(kind, amount)` transactions. Deposit, withdraw, a transaction
summary and a monthly interest projection act on that session, and a menu loop
dispatches between them until the user confirms an exit.

The repository has two versions of the session, and both are modelled:

- `backup.py`, the original, is the `Backup` module. Deposit and withdraw read and
  check their own amount and append to the caller's list in place. The summary is a
  counting loop, the projection a compounding loop, and `main` is a `while True` menu loop.
- `index2.py`, the refactor, is the `Refactor` module. Deposit, withdraw and the interest
  calculation are functions of their arguments. Input validation lives in
  `get_float`/`get_int`, and `main` does the logging.

Files:

- `ledger.dfy` (module `Ledger`) holds what both versions share:
  - the `Transaction` pair, whose kind is kept as the source's own string;
  - the session state (`Session`);
  - the sums the balance and the summary are built from (`Amounts`, `Sum`, `Net`);
  - the invariant `Accounted`: balance = start + deposits − withdrawals, and every
    entry is a positive deposit or withdrawal;
  - the 2% monthly compounding (`Projection`) and its closed form.
- `text.dfy` (module `Text`) holds Python's `str.lower()` and `str.strip()`, as far as the
  menu choice and the exit prompt need them.
- `backup.dfy` and `refactor.dfy` hold the two versions. In each, the menu loop is
  specified by a per-turn function `Step` and its fold over a script of turns,
  `Replay`. `Dispatch` (one pass of the loop) and `RunMenu` (`main`) are proved equal to
  them, and the session invariant is proved about `Replay`.
- `compare.dfy` (module `Compare`) proves where the two versions agree and where they
  differ.
- `wrappers.dfy` holds `Option` and `Result`.

Money is `real`: every sum and every `1.02^n` is exact.

Modelling choices:

- Console input is a parameter. A menu choice and the reply to the prompt it leads to
  form one `Turn`.
- A number that `float()` or `int()` could not parse is `None`.
- In `index2.py` the amounts, month counts and starting balance are what `get_float` and
  `get_int` return. Their types `PositiveReal` and `PositiveInt` hold only positive values.

Behaviour of the code that the model keeps as written:

- `backup.py` accepts any starting balance that `float()` parses, negative ones included
  (backup.py:23-30). `index2.py` accepts only a strictly positive one, so 0 is refused
  (index2.py:28-29, 102). `Backup.RunMenu` therefore promises a non-negative balance only
  when the start is non-negative.
- Both versions compute the projection as a finite list of values, or as rows printed
  in a loop (backup.py:132-134, index2.py:60-65). The model returns a `seq<real>`.
- Both versions store transaction kinds as strings. `backup.py`'s summary counts every
  entry whose kind is not `"deposit"` as a withdrawal (backup.py:106-111). `index2.py`
  picks out `"withdraw"` entries by name (index2.py:85). The model keeps the strings, so
  that this difference can be stated and proved (`Compare.SummariesAgreeIffWellTagged`).

## Model

| member | source | states |
|---|---|---|
| `Text.Lower` | backup.py:143 | `str.lower()` keeps the length and lowers each character in place |
| `Text.LowerIsYes` | backup.py:143 | the lower-cased reply is "y" or "yes" exactly when the reply is y or yes in any mix of cases |
| `Text.StripStartDropsLeadingSpace` | index2.py:21 | the left strip returns a suffix that does not start with whitespace, and everything it dropped is whitespace |
| `Text.StripEndDropsTrailingSpace` | index2.py:21 | the right strip returns a prefix that does not end with whitespace, and everything it dropped is whitespace |
| `Text.StripTrims` | index2.py:21 | `strip()` leaves no whitespace at either end and leaves a string without whitespace unchanged |
| `Ledger.Amounts` | index2.py:84-85 | picking out the amounts of one kind yields at most one amount per log entry |
| `Ledger.OtherAmounts` | backup.py:109-111 | the amounts of all other kinds are also at most one per entry |
| `Ledger.NetAppend` | backup.py:63-69 | logging a deposit adds its amount to start + deposits − withdrawals, and logging a withdrawal subtracts it |
| `Ledger.AccountedAppend` | index2.py:111-124 | logging a positive deposit or withdrawal while moving the balance by its amount keeps the session invariant |
| `Ledger.AmountsCountKind` | index2.py:84-85 | the amounts picked out for one kind number exactly the log positions that hold that kind |
| `Ledger.AmountsPartition` | backup.py:105-111 | every entry is counted either as a deposit or as an "other", so the two counts add up to the log's length |
| `Ledger.OtherThanDepositIsWithdraw` | backup.py:109-111 | on a log of deposits and withdrawals only, the entries that are not deposits are exactly the withdrawals |
| `Ledger.KindsCoverLog` | index2.py:84-85 | the deposit count plus the withdrawal count is at most the log length, and equals it exactly when no entry has a third kind |
| `Ledger.Projection` | index2.py:60-65 | a projection over n months has exactly n values |
| `Ledger.ProjectionAt` | index2.py:60-65 | month i+1 of the projection is balance × 1.02^(i+1) |
| `Ledger.ProjectionStep` | backup.py:132-133 | each month's value is the previous month's plus 2% of it |
| `Backup.TransactionList.constructor` | backup.py:152 | the session starts with an empty transaction list |
| `Backup.TransactionList.Append` | backup.py:67 | `list.append` adds exactly one entry at the end and keeps the others |
| `Backup.Deposit` | backup.py:51-69 | an unparsable or non-positive amount leaves the balance and the list unchanged; a positive amount is added to the balance and exactly `("deposit", amount)` is appended |
| `Backup.Withdraw` | backup.py:72-92 | an unparsable or non-positive amount, or one above the balance, changes nothing; otherwise the result is balance − amount, which is ≥ 0, and exactly `("withdraw", amount)` is appended |
| `Backup.Tally` | backup.py:105-111 | `summary`'s classification: the deposit count is the number of `"deposit"` entries, and the deposit and other counts together cover the whole list |
| `Backup.Summary` | backup.py:95-115 | the loop's counters and totals are the deposits and all other entries; the counts add up to the list's length; on a list of the two kinds only, the withdrawal side is exactly the withdrawals |
| `Backup.InterestProjection` | backup.py:118-134 | an unparsable month count shows nothing; otherwise the projection has one row per month 1..months (none when months ≤ 0), and row i+1 is balance × 1.02^(i+1) |
| `Backup.ConfirmExit` | backup.py:137-143 | the exit is confirmed exactly when the reply is y or yes in any mix of cases |
| `Backup.Step` | backup.py:157-172 | one turn of `main` only ever appends to the list, at most one entry, and a turn that logs nothing leaves the balance unchanged too |
| `Backup.StepKeepsAccounts` | backup.py:157-172 | one menu turn keeps balance = start + deposits − withdrawals, keeps a non-negative balance non-negative, and logs at most one entry |
| `Backup.ReplayKeepsAccounts` | backup.py:150-172 | after any run of turns, the session invariant holds, a non-negative start keeps the balance non-negative, and the log is no longer than the run |
| `Backup.Dispatch` | backup.py:155-172 | one pass of the loop updates the balance and the list as `Step` says, and ends the session exactly on choice "6" with a confirmed exit |
| `Backup.RunMenu` | backup.py:150-172 | the loop stops at the first turn that is choice "6" with a confirmed exit and at no other; its balance and list are the replay of the turns it ran; the balance equals start + Σdeposits − Σwithdrawals over the list |
| `Refactor.GetStringTrims` | index2.py:20-21 | the stripped reply is no longer than the reply, has no whitespace at either end, and equals the reply when it holds no whitespace |
| `Refactor.GetFloat` | index2.py:24-32 | `get_float` returns a value exactly when it parsed and is > 0, and returns it unchanged |
| `Refactor.GetInt` | index2.py:35-43 | `get_int` returns a value exactly when it parsed and is > 0, and returns it unchanged |
| `Refactor.Deposit` | index2.py:50-51 | depositing a positive amount raises the balance |
| `Refactor.Withdraw` | index2.py:54-57 | `withdraw` raises "Insufficient funds." exactly when the amount exceeds the balance; otherwise the result is ≥ 0 and adding the amount back gives the balance |
| `Refactor.WithdrawUndoesDeposit` | index2.py:50-57 | withdrawing what was just deposited restores the balance exactly when that balance was not negative |
| `Refactor.DepositUndoesWithdraw` | index2.py:50-57 | depositing what was just withdrawn restores the balance |
| `Refactor.CalculateInterest` | index2.py:60-65 | the list has exactly max(months, 0) values, and value i is balance × 1.02^(i+1) |
| `Refactor.ShowSummary` | index2.py:83-89 | each count is the number of log entries of that kind; the two counts never exceed the log's length, and cover it exactly when every entry is a deposit or a withdrawal |
| `Refactor.SummaryMatchesBalance` | index2.py:126-127 | under the session invariant, the balance is the start plus the summary's deposit total minus its withdrawal total, and the summary counts every entry |
| `Refactor.ConfirmExit` | index2.py:92-93 | the exit is confirmed exactly when the stripped reply is y or yes in any mix of cases |
| `Refactor.Step` | index2.py:108-142 | one turn of `main` only ever appends to the log, at most one entry, and a turn that logs nothing (a refused withdrawal included) leaves the balance unchanged too |
| `Refactor.StepChangesOnlyOnSuccess` | index2.py:108-142 | a turn changes the session exactly when it is a deposit, or a withdrawal the balance covers; a refused withdrawal or a projection changes neither the balance nor the log |
| `Refactor.StepKeepsAccounts` | index2.py:111-124 | one turn keeps the session invariant and a non-negative balance, and logs at most one entry |
| `Refactor.ReplayKeepsAccounts` | index2.py:100-124 | from a positive start, after any run of turns the balance is ≥ 0 and equals start + Σdeposits − Σwithdrawals, and every logged amount is positive |
| `Refactor.ExampleTurns` | index2.py:111-124 | from 100, a deposit of 50 gives 150; a withdrawal of 200 is then refused and changes nothing; a withdrawal of 50 gives 100 and logs it |
| `Refactor.ExampleSession` | index2.py:100-124 | start 100, deposit 50, a refused withdrawal of 200, then a withdrawal of 50 leave a balance of 100 with exactly one deposit and one withdrawal of 50 logged |
| `Refactor.ExampleSummary` | index2.py:83-89 | the summary of that log is one deposit totalling 50 and one withdrawal totalling 50 |
| `Refactor.Dispatch` | index2.py:106-142 | one pass of the loop returns the balance and log `Step` gives, and ends the session exactly on choice "6" with a confirmed exit |
| `Refactor.RunMenu` | index2.py:100-142 | the loop stops at the first turn that is choice "6" with a confirmed exit and at no other; its balance and log are the replay of the turns it ran; the balance stays ≥ 0 and equals start + Σdeposits − Σwithdrawals |
| `Compare.SummariesAgreeIffWellTagged` | backup.py:105-111 | `backup.py`'s deposit-versus-rest summary equals `index2.py`'s deposit-versus-withdraw summary exactly when the log holds no third kind |
| `Compare.SummariesDifferOnForeignKind` | index2.py:84-85 | on a log with one entry of another kind, the two summaries differ |
| `Compare.ConfirmExitCarriesOver` | index2.py:92-93 | every reply that confirms the exit in `backup.py` confirms it in `index2.py` too |
| `Compare.ConfirmExitStripsOnlyInRefactor` | index2.py:20-21 | " yes" confirms the exit in `index2.py`, which strips the reply, but not in `backup.py` |

## Left out

- Console output is not modelled: the menu text, the prompts, every `print`, the `.2f`
  formatting, the greeting and the mis-encoded dash in index2.py:142. The summary report
  and the projection rows are computed where the source prints them, then dropped.
- The user's name (backup.py:21, index2.py:101) is only printed, so it is not modelled.
- The retry loops of `get_user_info`, `get_float` and `get_int` are not modelled.
  `Refactor.GetFloat` and `Refactor.GetInt` model one round of their loop. The script's
  amounts, month counts and starting balance are values those functions could return.
  In `backup.py` the starting balance is any number.
- String-to-number parsing (`float()`, `int()`) is a library call. Its result is an input:
  `Some(value)`, or `None` for a `ValueError`.
- IEEE floating point is not modelled. Amounts are exact `real` values, so two effects
  of floats are absent.
  - Rounding. Float addition rounds, so in the source the balance equals
    start + Σdeposits − Σwithdrawals only approximately. For example, a start of 1e16
    followed by two deposits of 1.0 leaves the float balance at 1e16. The compounding
    also drifts from 1.02^n. The model's conservation and closed form are exact.
  - NaN and infinity, which `float()` accepts. Both versions let them in.
    - "nan" passes every check: backup.py:63, 84 and 86, and `get_float` at
      index2.py:28. Depositing it adds it to the balance and logs it (backup.py:66-67,
      index2.py:113-114). Withdrawing it leaves a NaN balance (backup.py:89,
      index2.py:57).
    - "inf" passes the `<= 0` checks (backup.py:63, 84, index2.py:28), so both versions
      deposit it (backup.py:66-67, index2.py:113-114). The check that the amount does
      not exceed the balance (backup.py:86, index2.py:55) refuses to withdraw inf only
      while the balance is finite. Once the balance is inf, `inf > inf` is false, so
      withdrawing inf passes and leaves inf − inf = NaN (backup.py:89, index2.py:57).
    - So in the source, both versions break promises the model proves about them:
      - `backup.py`: `Backup.Withdraw`'s non-negative new balance (withdrawing "nan"),
        and `Backup.ReplayKeepsAccounts`'s and `Backup.RunMenu`'s non-negative balance
        from a non-negative start and positive logged amounts (depositing "nan" logs
        `("deposit", nan)`).
      - `index2.py`: `Refactor.GetFloat`'s positive result, and
        `Refactor.ReplayKeepsAccounts`'s and `Refactor.RunMenu`'s non-negative balance
        and positive logged amounts.
- `Text.Lower` lowers A–Z only. Python lowers every Unicode letter, but no other character
  lowers to "y", "e" or "s", so what `ConfirmExit` accepts is unchanged.
- `Text.Strip` removes the characters `str.isspace()` holds for, listed as code points.
- In the source, a session without a confirmed exit keeps reading input until `input()`
  raises. EOFError at end of input, or KeyboardInterrupt on Ctrl-C, ends the loop with an
  uncaught exception (backup.py:47, index2.py:21). The model does not model these
  exceptions. It runs a finite script of turns and reports whether it ended with an exit.
- `Refactor.Deposit`: its own contract states only that a positive amount raises the
  balance. The exact effect, balance + amount, is pinned down in the session by
  `Refactor.StepKeepsAccounts`. After a deposit turn the session invariant holds, and
  with `Ledger.NetAppend` that forces the new balance to be balance + amount. The
  round-trip lemmas `Refactor.WithdrawUndoesDeposit` and `Refactor.DepositUndoesWithdraw`
  pin it down only for a balance ≥ 0.
