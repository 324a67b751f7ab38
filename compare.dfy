/** Where the two versions of the session part ways: the summary's classification
    of log entries, and the stripping of the exit reply. */
module Compare {
  import opened Text
  import opened Ledger
  import Backup
  import Refactor

  /** backup.py counts every entry that is not a deposit as a withdrawal, index2.py
      picks out the withdrawals by kind. Their reports agree exactly on logs that
      hold deposits and withdrawals only, which is every log either session writes. */
  lemma {:induction false} SummariesAgreeIffWellTagged(log: seq<Transaction>)
    ensures Backup.Tally(log) == Refactor.ShowSummary(log) <==> WellTagged(log)
  {
    AmountsPartition(log, DepositKind);
    KindsCoverLog(log);
    if WellTagged(log) {
      OtherThanDepositIsWithdraw(log);
    } else {
      assert Backup.Tally(log).withdrawals != Refactor.ShowSummary(log).withdrawals;
    }
  }

  /** A log with one entry of a third kind, on which the two summaries differ. */
  lemma SummariesDifferOnForeignKind()
    ensures Backup.Tally([Transaction("transfer", 5.0)]) != Refactor.ShowSummary([Transaction("transfer", 5.0)])
  {
    var log := [Transaction("transfer", 5.0)];
    assert !WellTagged(log) by {
      assert log[0].kind != DepositKind && log[0].kind != WithdrawKind;
    }
    SummariesAgreeIffWellTagged(log);
  }

  /** Every reply that confirms the exit in backup.py confirms it in index2.py too,
      since a "y" or "yes" has no whitespace for `strip()` to remove. */
  lemma ConfirmExitCarriesOver(reply: string)
    requires Backup.ConfirmExit(reply)
    ensures Refactor.ConfirmExit(reply)
  {
    StripTrims(reply);
    assert forall k :: 0 <= k < |reply| ==> !IsSpace(reply[k]);
  }

  /** The converse fails: index2.py strips the reply first, so " yes" confirms the
      exit there and not in backup.py. */
  lemma ConfirmExitStripsOnlyInRefactor()
    ensures Refactor.ConfirmExit(" yes") && !Backup.ConfirmExit(" yes")
  {
    var reply := " yes";
    assert StripStart(reply) == StripStart(reply[1..]);
    assert reply[1..] == "yes";
    assert StripStart("yes") == "yes";
    assert StripEnd("yes") == "yes";
    assert Strip(reply) == "yes";
  }
}
