/** The snapshot records the three engines read (src/types), reduced to the
    fields the engines look at, and the per-type transaction totals that both
    the health score and the alert generator compute with `filter`/`reduce`. */
module Records {

  datatype Option<T> = None | Some(value: T)

  datatype TransactionType = Income | Expense | Savings

  /** A transaction of the current month; `category`, `description` and the
      timestamps are never read by the engines. */
  datatype Transaction = Transaction(id: string, kind: TransactionType, amount: real)

  /** The month's budget; `null` in the source is `None` here. */
  datatype Budget = Budget(
    monthlyLimit: real,
    savingGoal: real,
    needsLimit: real,
    wantsLimit: real,
    emiLimit: real)

  /** A recurring bill; `dueDate` is the day of the month it falls due (a number, not a date). */
  datatype Bill = Bill(id: string, name: string, amount: real, dueDate: int, isPaid: bool)

  datatype ChallengeStatus = Active | Completed | Abandoned

  datatype CheckIn = CheckIn(date: string, amount: real, completed: bool)

  datatype Challenge = Challenge(
    id: string,
    title: string,
    targetAmount: real,
    savedAmount: real,
    status: ChallengeStatus,
    checkIns: seq<CheckIn>)

  datatype Profession = Employee | Freelancer | Student | BusinessOwner | Other

  datatype IncomeType = Fixed | Variable

  /** `transactions.filter((t) => t.type === kind)`, keeping the input order. */
  function OfKind(txs: seq<Transaction>, kind: TransactionType): (r: seq<Transaction>)
    ensures |r| <= |txs|
    ensures forall i :: 0 <= i < |r| ==> r[i].kind == kind && r[i] in txs
    ensures forall t :: t in txs && t.kind == kind ==> t in r
  {
    if txs == [] then []
    else
      var last := txs[|txs| - 1];
      OfKind(txs[..|txs| - 1], kind) + (if last.kind == kind then [last] else [])
  }

  /** `.reduce((sum, t) => sum + t.amount, 0)`, a left fold. */
  function SumAmounts(txs: seq<Transaction>): real
  {
    if txs == [] then 0.0 else SumAmounts(txs[..|txs| - 1]) + txs[|txs| - 1].amount
  }

  /** The total of one transaction type: `filter` then `reduce`. */
  function TotalOf(txs: seq<Transaction>, kind: TransactionType): (r: real)
    ensures OfKind(txs, kind) == [] ==> r == 0.0
  {
    SumAmounts(OfKind(txs, kind))
  }

  lemma {:induction false} OfKindAppend(a: seq<Transaction>, b: seq<Transaction>, kind: TransactionType)
    ensures OfKind(a + b, kind) == OfKind(a, kind) + OfKind(b, kind)
  {
    if b == [] {
      assert a + b == a;
    } else {
      var n := |b| - 1;
      assert (a + b)[..|a + b| - 1] == a + b[..n];
      OfKindAppend(a, b[..n], kind);
    }
  }

  /** With `OfKindAppend`, this pins the filter down element by element:
      a transaction is kept exactly when it has the requested type. */
  lemma OfKindSingle(t: Transaction, kind: TransactionType)
    ensures OfKind([t], kind) == if t.kind == kind then [t] else []
  {
    assert [t][..0] == [];
  }

  lemma {:induction false} SumAppend(a: seq<Transaction>, b: seq<Transaction>)
    ensures SumAmounts(a + b) == SumAmounts(a) + SumAmounts(b)
  {
    if b == [] {
      assert a + b == a;
    } else {
      var n := |b| - 1;
      assert (a + b)[..|a + b| - 1] == a + b[..n];
      SumAppend(a, b[..n]);
    }
  }

  /** A total over a concatenated snapshot is the sum of the two totals. */
  lemma TotalOfAppend(a: seq<Transaction>, b: seq<Transaction>, kind: TransactionType)
    ensures TotalOf(a + b, kind) == TotalOf(a, kind) + TotalOf(b, kind)
  {
    OfKindAppend(a, b, kind);
    SumAppend(OfKind(a, kind), OfKind(b, kind));
  }

  /** Only transactions of the totalled type count: inserting a transaction of
      another type anywhere (an `income` one, say) leaves the total unchanged. */
  lemma OtherKindIgnored(a: seq<Transaction>, t: Transaction, b: seq<Transaction>, kind: TransactionType)
    requires t.kind != kind
    ensures TotalOf(a + [t] + b, kind) == TotalOf(a + b, kind)
  {
    TotalOfAppend(a + [t], b, kind);
    TotalOfAppend(a, [t], kind);
    TotalOfAppend(a, b, kind);
    assert OfKind([t], kind) == [];
  }

  /** A transaction of the totalled type adds exactly its amount. */
  lemma SameKindAdded(a: seq<Transaction>, t: Transaction, b: seq<Transaction>)
    ensures TotalOf(a + [t] + b, t.kind) == TotalOf(a + b, t.kind) + t.amount
  {
    TotalOfAppend(a + [t], b, t.kind);
    TotalOfAppend(a, [t], t.kind);
    TotalOfAppend(a, b, t.kind);
    assert OfKind([t], t.kind) == [t];
    assert SumAmounts([t]) == SumAmounts([]) + t.amount;
  }

  lemma {:induction false} SumNonNegative(txs: seq<Transaction>)
    requires forall i :: 0 <= i < |txs| ==> txs[i].amount >= 0.0
    ensures SumAmounts(txs) >= 0.0
  {
    if txs != [] {
      SumNonNegative(txs[..|txs| - 1]);
    }
  }

  /** With non-negative amounts (the entry form refuses amounts <= 0) every
      total is non-negative. */
  lemma TotalNonNegative(txs: seq<Transaction>, kind: TransactionType)
    requires forall i :: 0 <= i < |txs| ==> txs[i].amount >= 0.0
    ensures TotalOf(txs, kind) >= 0.0
  {
    SumNonNegative(OfKind(txs, kind));
  }
}
