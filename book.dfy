/**
 * NewBook of model/book.go: exactly one book is accepted; its accounts are
 * built first, then its transactions against those accounts. postInit is
 * not called, so no account has entries yet.
 */
module Books {
  import opened Wrappers
  import opened Sorting
  import opened AccountTypeTable
  import opened Model
  import Accounts
  import Transactions

  datatype Book = Book(accounts: Accounts.Accounts, transactions: seq<Transaction>)

  /**
   * The accounts of a new book: those Built links, each list of children a
   * permutation of the linked one ordered by name, no entries, and as
   * transactions one index per split of the journal posted to the account.
   */
  ghost predicate BookAccounts(l: Accounts.Links, root: Option<string>, byId: map<string, Account>, txs: seq<Transaction>)
  {
    && root == l.root
    && (forall q :: q in byId <==> q in l.byId)
    && forall q :: q in byId ==>
      && byId[q] == l.byId[q].(children := byId[q].children, transactions := byId[q].transactions)
      && byId[q].entries == []
      && byId[q].transactions == Transactions.TxIndices(Postings(txs, q))
      && multiset(byId[q].children) == multiset(l.byId[q].children)
      && SortedBy(byId[q].children, Accounts.ByAccountName(l.byId))
  }

  /** Step 3 of newTransactionsFromXML on freshly built accounts gives them the book's shape. */
  lemma BookAccountsOf(recs: seq<AccountRecord>, root: Option<string>, sorted: map<string, Account>,
                       byId: map<string, Account>, txs: seq<Transaction>)
    requires Accounts.Built(recs, AccountTypes).Success?
    requires Accounts.ChildrenSorted(Accounts.Built(recs, AccountTypes).value, root, sorted)
    requires byId == Transactions.WithTransactions(sorted, txs, |txs|)
    ensures BookAccounts(Accounts.Built(recs, AccountTypes).value, root, byId, txs)
  {
    Accounts.BuiltListsEmpty(recs, AccountTypes);
    assert txs[..|txs|] == txs;
  }

  /**
   * NewBook: a missing input, no book or more than one book is an error.
   * Otherwise the accounts error, if any, is returned before transactions
   * are built; then the transactions error, if any; otherwise the book
   * holds fresh accounts and the sorted journal.
   */
  method NewBook(gnc: Option<GncRecord>, parse: string -> Option<int>) returns (r: Result<Book, Error>)
    ensures gnc.None? ==> r == Failure(NilInput)
    ensures gnc.Some? && |gnc.value.books| == 0 ==> r == Failure(NoBookFound)
    ensures gnc.Some? && |gnc.value.books| > 1 ==> r == Failure(MultipleBooks)
    ensures gnc.Some? && |gnc.value.books| == 1 ==>
      var b := gnc.value.books[0];
      var accounts := Accounts.Built(b.accounts, AccountTypes);
      && (accounts.Failure? ==> r == Failure(accounts.error))
      && (accounts.Success? ==>
            var built := Transactions.Collect(b.transactions, |b.transactions|,
                                              Transactions.TransactionOfFn(accounts.value.byId.Keys, parse));
            && (built.Failure? ==> r == Failure(built.error))
            && (built.Success? ==>
                  && r.Success? && fresh(r.value.accounts)
                  && multiset(r.value.transactions) == multiset(built.value)
                  && SortedBy(r.value.transactions, Transactions.ByDatePosted())
                  && BookAccounts(accounts.value, r.value.accounts.root, r.value.accounts.byId, r.value.transactions)))
  {
    if gnc.None? {
      return Failure(NilInput);
    }
    if |gnc.value.books| == 0 {
      return Failure(NoBookFound);
    }
    if |gnc.value.books| > 1 {
      return Failure(MultipleBooks);
    }
    var b := gnc.value.books[0];
    var accounts := Accounts.NewAccountsFromXML(b.accounts);
    if accounts.Failure? {
      return Failure(accounts.error);
    }
    var a := accounts.value;
    ghost var root, sorted := a.root, a.byId;
    var txs := Transactions.NewTransactionsFromXML(b.transactions, a, parse);
    if txs.Failure? {
      return Failure(txs.error);
    }
    BookAccountsOf(b.accounts, root, sorted, a.byId, txs.value);
    return Success(Book(a, txs.value));
  }
}
