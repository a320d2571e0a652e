/** The accounting page: a fixed list of transactions, the income, expense
    and net totals over it, the count badge and the sign colouring of each
    amount. Amounts are whole numbers of dollars as in the list. */
module Accounting {
  import opened Lists

  /** A transaction; `kind` is the `type` property. */
  datatype Transaction = Transaction(id: string, date: string, description: string, amount: int, kind: string)

  const Income: string := "income"
  const Expense: string := "expense"

  /** `s.reduce((sum, t) => sum + t.amount, 0)`: a left fold from 0. */
  function Total(s: seq<Transaction>): int {
    if s == [] then 0 else Total(s[..|s| - 1]) + s[|s| - 1].amount
  }

  /** `s.filter(t => t.type === kind)`. */
  function OfKind(s: seq<Transaction>, kind: string): seq<Transaction> {
    Filter(s, (t: Transaction) => t.kind == kind)
  }

  function TotalIncome(s: seq<Transaction>): int {
    Total(OfKind(s, Income))
  }

  function TotalExpenses(s: seq<Transaction>): int {
    Total(OfKind(s, Expense))
  }

  function NetBalance(s: seq<Transaction>): int {
    Total(s)
  }

  lemma TotalSnoc(s: seq<Transaction>, t: Transaction)
    ensures Total(s + [t]) == Total(s) + t.amount
  {
    assert (s + [t])[..|s|] == s;
  }

  lemma TotalAppend(s: seq<Transaction>, u: seq<Transaction>)
    ensures Total(s + u) == Total(s) + Total(u)
    decreases |u|
  {
    if u == [] {
      assert s + u == s;
    } else {
      var init, last := u[..|u| - 1], u[|u| - 1];
      assert u == init + [last];
      assert s + u == (s + init) + [last];
      TotalAppend(s, init);
      TotalSnoc(s + init, last);
      TotalSnoc(init, last);
    }
  }

  predicate IncomeOrExpense(s: seq<Transaction>) {
    forall k :: 0 <= k < |s| ==> s[k].kind == Income || s[k].kind == Expense
  }

  /** When every transaction is income or expense, the net balance is the
      income total plus the expense total. */
  lemma {:induction false} NetIsIncomePlusExpenses(s: seq<Transaction>)
    requires IncomeOrExpense(s)
    ensures NetBalance(s) == TotalIncome(s) + TotalExpenses(s)
  {
    if s != [] {
      var init, last := s[..|s| - 1], s[|s| - 1];
      assert s == init + [last];
      assert IncomeOrExpense(init) by {
        forall k | 0 <= k < |init| ensures init[k].kind == Income || init[k].kind == Expense {
          assert init[k] == s[k];
        }
      }
      NetIsIncomePlusExpenses(init);
      var li := if last.kind == Income then [last] else [];
      var le := if last.kind == Expense then [last] else [];
      OfKindSnoc(init, last, Income);
      OfKindSnoc(init, last, Expense);
      TotalAppend(OfKind(init, Income), li);
      TotalAppend(OfKind(init, Expense), le);
      assert Total(li) + Total(le) == last.amount by {
        assert li == [] || le == [];
        assert Total([last]) == last.amount by { assert [last][..0] == []; }
      }
    }
  }

  /** A transaction of some other type counts towards the net balance but
      towards neither total, so the identity above can fail without its
      precondition. */
  lemma OtherKindBreaksNet()
    ensures var s := [Transaction("TX", "", "", 1, "refund")];
      NetBalance(s) == 1 && TotalIncome(s) + TotalExpenses(s) == 0
  {
    var s := [Transaction("TX", "", "", 1, "refund")];
    assert s[..0] == [];
    assert OfKind(s, Income) == [] && OfKind(s, Expense) == [] by {
      assert s[1..] == [];
    }
  }

  /** The colour of an amount in the table. */
  datatype Colour = Green | Red

  function AmountColour(t: Transaction): (c: Colour)
    ensures c == Green <==> t.amount > 0
  {
    if t.amount > 0 then Green else Red
  }

  /** The five transactions the page shows. */
  const Ledger: seq<Transaction> := [
    Transaction("TX1001", "2023-08-01", "Donation", 250, Income),
    Transaction("TX1002", "2023-08-03", "Vet Expense", -75, Expense),
    Transaction("TX1003", "2023-08-05", "Supplies Purchase", -120, Expense),
    Transaction("TX1004", "2023-08-10", "Fundraiser", 500, Income),
    Transaction("TX1005", "2023-08-15", "Staff Salary", -350, Expense)]

  /** The count badge reads 5 and every entry is income or expense. */
  lemma LedgerShape()
    ensures |Ledger| == 5 && IncomeOrExpense(Ledger)
    ensures forall k :: 0 <= k < |Ledger| ==> (AmountColour(Ledger[k]) == Green <==> Ledger[k].kind == Income)
  {
  }

  lemma OfKindSnoc(s: seq<Transaction>, t: Transaction, kind: string)
    ensures OfKind(s + [t], kind) == OfKind(s, kind) + (if t.kind == kind then [t] else [])
  {
    FilterAppend(s, [t], (t: Transaction) => t.kind == kind);
    assert [t][1..] == [];
  }

  /** The ledger's entries, split so that each prefix is a display. */
  lemma LedgerPrefixes()
    ensures var l := Ledger;
      && l == [l[0], l[1], l[2], l[3]] + [l[4]]
      && [l[0], l[1], l[2], l[3]] == [l[0], l[1], l[2]] + [l[3]]
      && [l[0], l[1], l[2]] == [l[0], l[1]] + [l[2]]
      && [l[0], l[1]] == [l[0]] + [l[1]]
      && [l[0]] == [] + [l[0]]
  {
  }

  /** The income card reads $750. */
  lemma LedgerIncome()
    ensures TotalIncome(Ledger) == 750
  {
    var l := Ledger;
    LedgerPrefixes();
    OfKindSnoc([], l[0], Income);
    OfKindSnoc([l[0]], l[1], Income);
    OfKindSnoc([l[0], l[1]], l[2], Income);
    OfKindSnoc([l[0], l[1], l[2]], l[3], Income);
    OfKindSnoc([l[0], l[1], l[2], l[3]], l[4], Income);
    assert OfKind(l, Income) == [l[0]] + [l[3]];
    TotalSnoc([], l[0]);
    TotalSnoc([l[0]], l[3]);
  }

  /** The expenses card reads -$545. */
  lemma LedgerExpenses()
    ensures TotalExpenses(Ledger) == -545
  {
    var l := Ledger;
    LedgerPrefixes();
    OfKindSnoc([], l[0], Expense);
    OfKindSnoc([l[0]], l[1], Expense);
    OfKindSnoc([l[0], l[1]], l[2], Expense);
    OfKindSnoc([l[0], l[1], l[2]], l[3], Expense);
    OfKindSnoc([l[0], l[1], l[2], l[3]], l[4], Expense);
    assert OfKind(l, Expense) == [l[1]] + [l[2]] + [l[4]];
    TotalSnoc([], l[1]);
    TotalSnoc([l[1]], l[2]);
    assert [l[1]] + [l[2]] == [l[1], l[2]];
    TotalSnoc([l[1], l[2]], l[4]);
    assert [l[1], l[2]] + [l[4]] == [l[1]] + [l[2]] + [l[4]];
  }

  /** The balance card reads $205, which is the income plus the expenses. */
  lemma LedgerNet()
    ensures NetBalance(Ledger) == 205
  {
    LedgerShape();
    LedgerIncome();
    LedgerExpenses();
    NetIsIncomePlusExpenses(Ledger);
  }
}
