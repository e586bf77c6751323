/**
 * The journal of model/transactions.go. newTransactionsFromXML builds one
 * transaction per record (each split checked field by field), sorts them
 * by date posted, and appends each transaction to the transaction list of
 * every account one of its splits names. Times are integers (seconds from
 * the Unix epoch); time.Parse with the fixed layout is a parameter.
 */
module Transactions {
  import opened Wrappers
  import opened Numeric
  import opened Sorting
  import opened Model
  import GncNumeric
  import Accounts

  /** time.Time{}: 0001-01-01 00:00:00 UTC, in seconds from the Unix epoch. */
  const ZeroTime: int := -62135596800

  /**
   * timeParse: the zero time for an empty nullable value; otherwise what
   * `parse` (time.Parse with the layout "2006-01-02 15:04:05 -0700") makes
   * of the text, or an error.
   */
  function TimeParse(value: string, nullable: bool, parse: string -> Option<int>): Result<int, Cause>
  {
    if nullable && |value| == 0 then Success(ZeroTime)
    else if parse(value).Some? then Success(parse(value).value)
    else Failure(MalformedTimestamp(value))
  }

  /** The parsed fraction, carried into a Numeric. */
  function NumericOf(f: GncNumeric.Fraction): Numeric
  {
    Numeric(f.num, f.den)
  }

  /**
   * newSplitFromXML: ReconcileDate (nullable), Value, Quantity and
   * AccountID are checked in that order; the first that fails is reported
   * with the object, the field and the split's ID. The memo is empty: no
   * record field fills it.
   */
  function SplitOf(rec: SplitRecord, ids: set<string>, parse: string -> Option<int>): (r: Result<Split, Error>)
    ensures r.Success? <==>
      && TimeParse(rec.reconcileDate, true, parse).Success?
      && GncNumeric.Parse(rec.value).Success? && GncNumeric.Parse(rec.quantity).Success?
      && rec.accountId in ids
    ensures r.Success? ==>
      && r.value.id == rec.id && r.value.reconciledState == rec.reconciledState
      && r.value.account == rec.accountId && r.value.memo == ""
      && r.value.value == NumericOf(GncNumeric.Parse(rec.value).value) && r.value.value.den > 0
      && r.value.quantity == NumericOf(GncNumeric.Parse(rec.quantity).value) && r.value.quantity.den > 0
      && r.value.reconcileDate == TimeParse(rec.reconcileDate, true, parse).value
    ensures r.Failure? ==> r.error.InvalidField? && r.error.entity == "Split" && r.error.objectId == rec.id
  {
    var date := TimeParse(rec.reconcileDate, true, parse);
    if date.Failure? then Failure(InvalidField("Split", "ReconcileDate", rec.id, date.error))
    else
      var value := GncNumeric.Parse(rec.value);
      if value.Failure? then Failure(InvalidField("Split", "Value", rec.id, MalformedRational(value.error)))
      else
        var quantity := GncNumeric.Parse(rec.quantity);
        if quantity.Failure? then Failure(InvalidField("Split", "Quantity", rec.id, MalformedRational(quantity.error)))
        else if rec.accountId !in ids then Failure(InvalidField("Split", "AccountID", rec.id, AccountNotFound))
        else
          Success(Split(rec.id, rec.reconciledState, date.value, NumericOf(value.value), NumericOf(quantity.value), rec.accountId, ""))
  }

  /** The field a failed split reports is the first of the four checks that fails. */
  lemma SplitFirstFailure(rec: SplitRecord, ids: set<string>, parse: string -> Option<int>)
    requires SplitOf(rec, ids, parse).Failure?
    ensures var f := SplitOf(rec, ids, parse).error.field;
      && (f == "ReconcileDate" <==> TimeParse(rec.reconcileDate, true, parse).Failure?)
      && (f == "Value" <==> TimeParse(rec.reconcileDate, true, parse).Success? && GncNumeric.Parse(rec.value).Failure?)
      && (f == "Quantity" <==>
            TimeParse(rec.reconcileDate, true, parse).Success? && GncNumeric.Parse(rec.value).Success?
            && GncNumeric.Parse(rec.quantity).Failure?)
      && (f == "AccountID" <==>
            TimeParse(rec.reconcileDate, true, parse).Success? && GncNumeric.Parse(rec.value).Success?
            && GncNumeric.Parse(rec.quantity).Success? && rec.accountId !in ids)
  {
  }

  /** An empty ReconcileDate is the zero time; an empty DatePosted or DateEntered is refused. */
  lemma EmptyDates(value: string, parse: string -> Option<int>)
    requires parse("").None?
    ensures TimeParse("", true, parse) == Success(ZeroTime)
    ensures TimeParse("", false, parse) == Failure(MalformedTimestamp(""))
    ensures |value| > 0 ==> TimeParse(value, true, parse) == TimeParse(value, false, parse)
  {
  }

  /** SplitOf with the accounts and the parser fixed, as Collect takes it. */
  function SplitOfFn(ids: set<string>, parse: string -> Option<int>): SplitRecord -> Result<Split, Error>
  {
    rec => SplitOf(rec, ids, parse)
  }

  /**
   * The loop shape of both builders: the results of f on the first k
   * records in order, or the error of the first record f refuses.
   */
  function Collect<R, T>(recs: seq<R>, k: nat, f: R -> Result<T, Error>): Result<seq<T>, Error>
    requires k <= |recs|
  {
    if k == 0 then Success([])
    else
      match Collect(recs, k - 1, f)
      case Failure(e) => Failure(e)
      case Success(ts) =>
        match f(recs[k - 1])
        case Failure(e) => Failure(e)
        case Success(t) => Success(ts + [t])
  }

  /** Collect succeeds exactly when f accepts every record, and then holds f's results in record order. */
  lemma {:induction false} CollectExact<R, T>(recs: seq<R>, k: nat, f: R -> Result<T, Error>)
    requires k <= |recs|
    ensures Collect(recs, k, f).Success? <==> forall i :: 0 <= i < k ==> f(recs[i]).Success?
    ensures Collect(recs, k, f).Success? ==>
      |Collect(recs, k, f).value| == k && forall i :: 0 <= i < k ==> Collect(recs, k, f).value[i] == f(recs[i]).value
  {
    if k > 0 {
      CollectExact(recs, k - 1, f);
    }
  }

  /** When Collect fails, its error is that of the first record f refuses. */
  lemma {:induction false} CollectFirstError<R, T>(recs: seq<R>, k: nat, f: R -> Result<T, Error>)
    requires k <= |recs| && Collect(recs, k, f).Failure?
    ensures exists i :: 0 <= i < k && (forall j :: 0 <= j < i ==> f(recs[j]).Success?) && f(recs[i]) == Failure(Collect(recs, k, f).error)
  {
    CollectExact(recs, k - 1, f);
    if Collect(recs, k - 1, f).Failure? {
      CollectFirstError(recs, k - 1, f);
    } else {
      assert f(recs[k - 1]) == Failure(Collect(recs, k, f).error);
    }
  }

  /** Once Collect has failed, the remaining records do not change the outcome. */
  lemma {:induction false} CollectFailureStays<R, T>(recs: seq<R>, i: nat, k: nat, f: R -> Result<T, Error>)
    requires i <= k <= |recs| && Collect(recs, i, f).Failure?
    ensures Collect(recs, k, f) == Collect(recs, i, f)
    decreases k
  {
    if k > i {
      CollectFailureStays(recs, i, k - 1, f);
    }
  }

  /**
   * newTransactionFromXML: DatePosted, then DateEntered (neither nullable),
   * then the splits in order; the first failure is the result.
   */
  function TransactionOf(rec: TransactionRecord, ids: set<string>, parse: string -> Option<int>): (r: Result<Transaction, Error>)
    ensures r.Success? ==>
      && r.value.id == rec.id && r.value.currency == rec.currency && r.value.description == rec.description
      && |r.value.splits| == |rec.splits|
      && forall k :: 0 <= k < |rec.splits| ==>
        SplitOf(rec.splits[k], ids, parse).Success? && r.value.splits[k] == SplitOf(rec.splits[k], ids, parse).value
  {
    var posted := TimeParse(rec.datePosted, false, parse);
    if posted.Failure? then Failure(InvalidField("Transaction", "DatePosted", rec.id, posted.error))
    else
      var entered := TimeParse(rec.dateEntered, false, parse);
      if entered.Failure? then Failure(InvalidField("Transaction", "DateEntered", rec.id, entered.error))
      else
        var splits := Collect(rec.splits, |rec.splits|, SplitOfFn(ids, parse));
        CollectExact(rec.splits, |rec.splits|, SplitOfFn(ids, parse));
        if splits.Failure? then Failure(splits.error)
        else Success(Transaction(rec.id, rec.currency, posted.value, entered.value, rec.description, splits.value))
  }

  /**
   * A transaction is built exactly when both dates parse and every split
   * is accepted; its splits then name accounts of `ids` and have values of
   * positive denominator.
   */
  lemma TransactionExact(rec: TransactionRecord, ids: set<string>, parse: string -> Option<int>)
    ensures TransactionOf(rec, ids, parse).Success? <==>
      && TimeParse(rec.datePosted, false, parse).Success? && TimeParse(rec.dateEntered, false, parse).Success?
      && forall k :: 0 <= k < |rec.splits| ==> SplitOf(rec.splits[k], ids, parse).Success?
    ensures TransactionOf(rec, ids, parse).Success? ==>
      var t := TransactionOf(rec, ids, parse).value;
      && t.datePosted == TimeParse(rec.datePosted, false, parse).value
      && t.dateEntered == TimeParse(rec.dateEntered, false, parse).value
      && forall k :: 0 <= k < |t.splits| ==> t.splits[k].account in ids && t.splits[k].value.den > 0
  {
    CollectExact(rec.splits, |rec.splits|, SplitOfFn(ids, parse));
  }

  /** TransactionOf with the accounts and the parser fixed, as Collect takes it. */
  function TransactionOfFn(ids: set<string>, parse: string -> Option<int>): TransactionRecord -> Result<Transaction, Error>
  {
    rec => TransactionOf(rec, ids, parse)
  }

  /** byDatePosted: a may precede b unless b was posted before a. */
  function ByDatePosted(): (Transaction, Transaction) -> bool
  {
    (a: Transaction, b: Transaction) => a.datePosted <= b.datePosted
  }

  lemma ByDatePostedIsTotalPreorder()
    ensures TotalPreorder(ByDatePosted())
  {
  }

  /** The transactions, as indices into the journal, of the splits `refs` names, in order. */
  function TxIndices(refs: seq<Ref>): (ts: seq<nat>)
    ensures |ts| == |refs|
  {
    if |refs| == 0 then [] else TxIndices(refs[..|refs| - 1]) + [refs[|refs| - 1].tx]
  }

  lemma {:induction false} TxIndicesAt(refs: seq<Ref>)
    ensures forall k :: 0 <= k < |refs| ==> TxIndices(refs)[k] == refs[k].tx
  {
    if |refs| > 0 {
      TxIndicesAt(refs[..|refs| - 1]);
    }
  }

  lemma TxIndicesAppend(refs: seq<Ref>, r: Ref)
    ensures TxIndices(refs + [r]) == TxIndices(refs) + [r.tx]
  {
    assert (refs + [r])[..|refs|] == refs;
  }

  /**
   * The transaction list step 3 gives the account q: one entry per split
   * posted to it, so a transaction with two splits of q appears twice,
   * in journal order. With the journal sorted by date posted, the list is
   * ordered by date posted too.
   */
  lemma AccountTransactionsChronological(txs: seq<Transaction>, q: string)
    requires SortedBy(txs, ByDatePosted())
    ensures var ts := TxIndices(Postings(txs, q));
      && (forall k :: 0 <= k < |ts| ==> ts[k] == Postings(txs, q)[k].tx && ts[k] < |txs|)
      && (forall a, b :: 0 <= a < b < |ts| ==> ts[a] <= ts[b] && txs[ts[a]].datePosted <= txs[ts[b]].datePosted)
  {
    var refs := Postings(txs, q);
    PostingsExact(txs, q);
    TxIndicesAt(refs);
    forall k | 0 <= k < |refs| ensures refs[k].tx < |txs| {
      assert refs[k] in refs;
    }
    forall a, b | 0 <= a < b < |refs| ensures refs[a].tx <= refs[b].tx && txs[refs[a].tx].datePosted <= txs[refs[b].tx].datePosted {
      assert RefBefore(refs[a], refs[b]);
      if refs[a].tx < refs[b].tx {
        assert ByDatePosted()(txs[refs[a].tx], txs[refs[b].tx]);
      }
    }
  }

  /**
   * The entries postInit gives an account (its Ledger) follow the journal:
   * with the journal sorted by date posted, they are ordered by date posted.
   */
  lemma LedgerChronological(txs: seq<Transaction>, q: string)
    requires SortedBy(txs, ByDatePosted())
    ensures var es := Accounts.Ledger(txs, Postings(txs, q));
      forall a, b :: 0 <= a < b < |es| ==>
        && es[a].transaction.Some? && es[b].transaction.Some?
        && es[a].transaction.value <= es[b].transaction.value < |txs|
        && txs[es[a].transaction.value].datePosted <= txs[es[b].transaction.value].datePosted
  {
    var refs := Postings(txs, q);
    AccountTransactionsChronological(txs, q);
    TxIndicesAt(refs);
    Accounts.LedgerRefs(txs, refs);
  }

  // ---------------------------------------------------------------------
  // Step 3: each account's transaction list
  // ---------------------------------------------------------------------

  /** The accounts of orig, each with the transactions of its splits among the first n appended. */
  function WithTransactions(orig: map<string, Account>, txs: seq<Transaction>, n: nat): map<string, Account>
    requires n <= |txs|
  {
    map q | q in orig :: orig[q].(transactions := orig[q].transactions + TxIndices(Postings(txs[..n], q)))
  }

  /** The account p with t appended to its transactions; m itself when there is no account p. */
  function AppendTransaction(m: map<string, Account>, p: string, t: nat): map<string, Account>
  {
    if p in m then m[p := m[p].(transactions := m[p].transactions + [t])] else m
  }

  /** Step 3 part way through transaction i: j of its splits done. */
  function Attaching(orig: map<string, Account>, txs: seq<Transaction>, i: nat, j: nat): map<string, Account>
    requires i < |txs| && j <= |txs[i].splits|
  {
    if j == 0 then WithTransactions(orig, txs, i)
    else AppendTransaction(Attaching(orig, txs, i, j - 1), txs[i].splits[j - 1].account, i)
  }

  lemma WithTransactionsStart(orig: map<string, Account>, txs: seq<Transaction>)
    ensures orig == WithTransactions(orig, txs, 0)
  {
    assert txs[..0] == [];
    forall q | q in orig ensures orig[q].transactions + TxIndices(Postings(txs[..0], q)) == orig[q].transactions {
    }
  }

  /** Step 3 neither adds nor removes accounts. */
  lemma {:induction false} AttachingKeys(orig: map<string, Account>, txs: seq<Transaction>, i: nat, j: nat, q: string)
    requires i < |txs| && j <= |txs[i].splits|
    ensures q in Attaching(orig, txs, i, j) <==> q in orig
  {
    if j > 0 {
      AttachingKeys(orig, txs, i, j - 1, q);
    }
  }

  /** Part way through transaction i, each account has the transactions of its postings so far. */
  lemma {:induction false} AttachingAt(orig: map<string, Account>, txs: seq<Transaction>, i: nat, j: nat, q: string)
    requires i < |txs| && j <= |txs[i].splits| && q in orig
    ensures q in Attaching(orig, txs, i, j)
    ensures Attaching(orig, txs, i, j)[q] ==
      orig[q].(transactions := orig[q].transactions + TxIndices(Accounts.Distributed(txs, i, j, q)))
  {
    AttachingKeys(orig, txs, i, j, q);
    if j == 0 {
      assert txs[i].splits[..0] == [];
      assert Accounts.Distributed(txs, i, 0, q) == Postings(txs[..i], q);
    } else {
      var prev, p := Attaching(orig, txs, i, j - 1), txs[i].splits[j - 1].account;
      AttachingAt(orig, txs, i, j - 1, q);
      if q == p {
        AttachingStepHere(txs, i, j - 1);
        var before, d := orig[q].transactions, TxIndices(Accounts.Distributed(txs, i, j - 1, q));
        assert (before + d) + [i] == before + (d + [i]);
        assert Attaching(orig, txs, i, j)[q] == prev[q].(transactions := prev[q].transactions + [i]);
      } else {
        Accounts.MidwayStepElsewhere(txs, i, j - 1, q);
        assert Attaching(orig, txs, i, j)[q] == prev[q];
      }
    }
  }

  /** The account of split j of transaction i gains transaction i at the end of its list. */
  lemma AttachingStepHere(txs: seq<Transaction>, i: nat, j: nat)
    requires i < |txs| && j < |txs[i].splits|
    ensures var p := txs[i].splits[j].account;
      TxIndices(Accounts.Distributed(txs, i, j + 1, p)) == TxIndices(Accounts.Distributed(txs, i, j, p)) + [i]
  {
    var p := txs[i].splits[j].account;
    SplitPostingsAppend(txs[i].splits, j, i, p);
    assert Accounts.Distributed(txs, i, j + 1, p) == Accounts.Distributed(txs, i, j, p) + [Ref(i, j)];
    TxIndicesAppend(Accounts.Distributed(txs, i, j, p), Ref(i, j));
  }

  /** One split of transaction i: its account, which is there, gains transaction i. */
  lemma AttachingStep(orig: map<string, Account>, txs: seq<Transaction>, i: nat, j: nat)
    requires i < |txs| && j < |txs[i].splits| && txs[i].splits[j].account in orig
    ensures var m, p := Attaching(orig, txs, i, j), txs[i].splits[j].account;
      p in m && Attaching(orig, txs, i, j + 1) == m[p := m[p].(transactions := m[p].transactions + [i])]
  {
    AttachingKeys(orig, txs, i, j, txs[i].splits[j].account);
  }

  lemma AttachingEnd(orig: map<string, Account>, txs: seq<Transaction>, i: nat)
    requires i < |txs|
    ensures Attaching(orig, txs, i, |txs[i].splits|) == WithTransactions(orig, txs, i + 1)
  {
    var n := |txs[i].splits|;
    forall q ensures q in Attaching(orig, txs, i, n) <==> q in WithTransactions(orig, txs, i + 1) {
      AttachingKeys(orig, txs, i, n, q);
    }
    forall q | q in orig ensures Attaching(orig, txs, i, n)[q] == WithTransactions(orig, txs, i + 1)[q] {
      AttachingAt(orig, txs, i, n, q);
      PostingsAppend(txs, i, q);
      assert txs[i].splits[..n] == txs[i].splits;
    }
  }

  /** A permutation of transactions whose splits name accounts of `ids` has the same property. */
  lemma PermutationKeepsAccounts(built: seq<Transaction>, txs: seq<Transaction>, ids: set<string>)
    requires multiset(txs) == multiset(built) && SplitAccountsIn(built, ids)
    ensures SplitAccountsIn(txs, ids)
  {
    forall i, k | 0 <= i < |txs| && 0 <= k < |txs[i].splits| ensures txs[i].splits[k].account in ids {
      assert txs[i] in multiset(built);
      var j :| 0 <= j < |built| && built[j] == txs[i];
    }
  }

  /** What step 1 builds has every split naming an account of `ids`. */
  lemma BuiltAccountsIn(recs: seq<TransactionRecord>, ids: set<string>, parse: string -> Option<int>)
    requires Collect(recs, |recs|, TransactionOfFn(ids, parse)).Success?
    ensures SplitAccountsIn(Collect(recs, |recs|, TransactionOfFn(ids, parse)).value, ids)
  {
    var built := Collect(recs, |recs|, TransactionOfFn(ids, parse)).value;
    CollectExact(recs, |recs|, TransactionOfFn(ids, parse));
    forall i | 0 <= i < |built| ensures forall k :: 0 <= k < |built[i].splits| ==> built[i].splits[k].account in ids {
      TransactionExact(recs[i], ids, parse);
    }
  }

  /** newSplitFromXML: the split SplitOf describes, its numbers parsed by NewGncNumericFromString. */
  method NewSplitFromXML(rec: SplitRecord, accounts: Accounts.Accounts, parse: string -> Option<int>) returns (r: Result<Split, Error>)
    ensures r == SplitOf(rec, accounts.byId.Keys, parse)
  {
    var date := TimeParse(rec.reconcileDate, true, parse);
    if date.Failure? {
      return Failure(InvalidField("Split", "ReconcileDate", rec.id, date.error));
    }
    var value := GncNumeric.NewGncNumericFromString(rec.value);
    if value.Failure? {
      return Failure(InvalidField("Split", "Value", rec.id, MalformedRational(value.error)));
    }
    var quantity := GncNumeric.NewGncNumericFromString(rec.quantity);
    if quantity.Failure? {
      return Failure(InvalidField("Split", "Quantity", rec.id, MalformedRational(quantity.error)));
    }
    if rec.accountId !in accounts.byId {
      return Failure(InvalidField("Split", "AccountID", rec.id, AccountNotFound));
    }
    var v, n := value.value.Value(), quantity.value.Value();
    return Success(Split(rec.id, rec.reconciledState, date.value, NumericOf(v), NumericOf(n), rec.accountId, ""));
  }

  /** newTransactionFromXML: the transaction TransactionOf describes, its splits built in order. */
  method NewTransactionFromXML(rec: TransactionRecord, accounts: Accounts.Accounts, parse: string -> Option<int>)
    returns (r: Result<Transaction, Error>)
    ensures r == TransactionOf(rec, accounts.byId.Keys, parse)
  {
    var posted := TimeParse(rec.datePosted, false, parse);
    if posted.Failure? {
      return Failure(InvalidField("Transaction", "DatePosted", rec.id, posted.error));
    }
    var entered := TimeParse(rec.dateEntered, false, parse);
    if entered.Failure? {
      return Failure(InvalidField("Transaction", "DateEntered", rec.id, entered.error));
    }
    var splits := NewSplitsFromXML(rec.splits, accounts, parse);
    if splits.Failure? {
      return Failure(splits.error);
    }
    return Success(Transaction(rec.id, rec.currency, posted.value, entered.value, rec.description, splits.value));
  }

  /** The loop of newTransactionFromXML over the split records, stopping at the first refused one. */
  method NewSplitsFromXML(recs: seq<SplitRecord>, accounts: Accounts.Accounts, parse: string -> Option<int>)
    returns (r: Result<seq<Split>, Error>)
    ensures r == Collect(recs, |recs|, SplitOfFn(accounts.byId.Keys, parse))
  {
    ghost var f := SplitOfFn(accounts.byId.Keys, parse);
    var splits := [];
    var i := 0;
    while i < |recs|
      invariant 0 <= i <= |recs|
      invariant Collect(recs, i, f) == Success(splits)
    {
      var split := NewSplitFromXML(recs[i], accounts, parse);
      assert f(recs[i]) == split;
      if split.Failure? {
        CollectFailureStays(recs, i + 1, |recs|, f);
        return Failure(split.error);
      }
      splits := splits + [split.value];
      i := i + 1;
    }
    return Success(splits);
  }

  /**
   * newTransactionsFromXML: step 1 builds the transactions in record
   * order and stops at the first error, leaving the accounts untouched;
   * step 2 sorts them by date posted; step 3 appends each transaction to
   * the list of every account one of its splits names.
   */
  method NewTransactionsFromXML(recs: seq<TransactionRecord>, accounts: Accounts.Accounts, parse: string -> Option<int>)
    returns (r: Result<seq<Transaction>, Error>)
    modifies accounts
    ensures accounts.root == old(accounts.root)
    ensures var built := Collect(recs, |recs|, TransactionOfFn(old(accounts.byId).Keys, parse));
      && (r.Failure? <==> built.Failure?)
      && (r.Failure? ==> r.error == built.error && accounts.byId == old(accounts.byId))
      && (r.Success? ==>
            && multiset(r.value) == multiset(built.value) && SortedBy(r.value, ByDatePosted())
            && accounts.byId == WithTransactions(old(accounts.byId), r.value, |r.value|))
  {
    var built := BuildTransactions(recs, accounts, parse);
    if built.Failure? {
      return Failure(built.error);
    }
    var txs := InsertionSort(built.value, ByDatePosted());
    ByDatePostedIsTotalPreorder();
    InsertionSortSorted(built.value, ByDatePosted());
    BuiltAccountsIn(recs, accounts.byId.Keys, parse);
    PermutationKeepsAccounts(built.value, txs, accounts.byId.Keys);
    AttachTransactions(accounts, txs);
    return Success(txs);
  }

  /** Step 1 of newTransactionsFromXML: one transaction per record, in order, or the first error. */
  method BuildTransactions(recs: seq<TransactionRecord>, accounts: Accounts.Accounts, parse: string -> Option<int>)
    returns (r: Result<seq<Transaction>, Error>)
    ensures r == Collect(recs, |recs|, TransactionOfFn(accounts.byId.Keys, parse))
  {
    ghost var f := TransactionOfFn(accounts.byId.Keys, parse);
    var built := [];
    var i := 0;
    while i < |recs|
      invariant 0 <= i <= |recs|
      invariant Collect(recs, i, f) == Success(built)
    {
      var t := NewTransactionFromXML(recs[i], accounts, parse);
      if t.Failure? {
        CollectFailureStays(recs, i + 1, |recs|, f);
        return Failure(t.error);
      }
      built := built + [t.value];
      i := i + 1;
    }
    return Success(built);
  }

  /** Step 3 of newTransactionsFromXML. */
  method AttachTransactions(accounts: Accounts.Accounts, txs: seq<Transaction>)
    requires SplitAccountsIn(txs, accounts.byId.Keys)
    modifies accounts
    ensures accounts.root == old(accounts.root) && accounts.byId == WithTransactions(old(accounts.byId), txs, |txs|)
  {
    ghost var orig := accounts.byId;
    WithTransactionsStart(orig, txs);
    var i := 0;
    while i < |txs|
      invariant 0 <= i <= |txs| && accounts.root == old(accounts.root)
      invariant accounts.byId == WithTransactions(orig, txs, i)
    {
      AttachSplits(accounts, txs, i, orig);
      AttachingEnd(orig, txs, i);
      i := i + 1;
    }
  }

  /** The inner loop of step 3: the splits of transaction i, in order. */
  method AttachSplits(accounts: Accounts.Accounts, txs: seq<Transaction>, i: nat, ghost orig: map<string, Account>)
    requires i < |txs| && forall k :: 0 <= k < |txs[i].splits| ==> txs[i].splits[k].account in orig
    requires accounts.byId == Attaching(orig, txs, i, 0)
    modifies accounts
    ensures accounts.root == old(accounts.root) && accounts.byId == Attaching(orig, txs, i, |txs[i].splits|)
  {
    var byId := accounts.byId;
    var j := 0;
    while j < |txs[i].splits|
      invariant 0 <= j <= |txs[i].splits|
      invariant byId == Attaching(orig, txs, i, j)
      modifies {}
    {
      var p := txs[i].splits[j].account;
      AttachingStep(orig, txs, i, j);
      var a := byId[p];
      byId := byId[p := a.(transactions := a.transactions + [i])];
      j := j + 1;
    }
    accounts.byId := byId;
  }
}
