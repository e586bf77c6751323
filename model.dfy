/**
 * The records the XML layer hands over (xml/xml.go), the entities of the
 * model package, its errors, and the order in which splits reach accounts.
 * References between entities are keys: an account by its ID, a
 * transaction by its index in the sorted journal, a split by a Ref.
 */
module Model {
  import opened Wrappers
  import opened Numeric
  import opened AccountTypeTable
  import GncNumeric

  datatype AccountRecord = AccountRecord(
    id: string, typeTag: string, name: string, description: string, parentId: string, currency: string)

  datatype SplitRecord = SplitRecord(
    id: string, reconciledState: string, reconcileDate: string, value: string, quantity: string, accountId: string)

  datatype TransactionRecord = TransactionRecord(
    id: string, currency: string, datePosted: string, dateEntered: string, description: string,
    splits: seq<SplitRecord>)

  datatype BookRecord = BookRecord(id: string, accounts: seq<AccountRecord>, transactions: seq<TransactionRecord>)

  datatype GncRecord = GncRecord(books: seq<BookRecord>)

  /** The split at `split` in the transaction at `tx` of a journal. */
  datatype Ref = Ref(tx: nat, split: nat)

  /** One split as seen from its account: the references, the value split by sign, the running balance. */
  datatype AccountTransaction = AccountTransaction(
    transaction: Option<nat>, split: Option<nat>, plusValue: Numeric, minusValue: Numeric, balance: Numeric)

  datatype Account = Account(
    id: string, accountType: AccountType, name: string, description: string, currency: string,
    parent: Option<string>, children: seq<string>,
    entries: seq<AccountTransaction>, transactions: seq<nat>)

  datatype Split = Split(
    id: string, reconciledState: string, reconcileDate: int, value: Numeric, quantity: Numeric,
    account: string, memo: string)

  datatype Transaction = Transaction(
    id: string, currency: string, datePosted: int, dateEntered: int, description: string, splits: seq<Split>)

  /** What went wrong in a field of a split or a transaction. */
  datatype Cause = MalformedTimestamp(text: string) | MalformedRational(error: GncNumeric.ParseError) | AccountNotFound

  datatype Error =
    | DuplicateAccountID(id: string)
    | UnknownAccountType(tag: string)
    | InvalidRootType(id: string)
    | MultipleRoots
    | ParentNotFound(parentId: string)
    | InvalidField(entity: string, field: string, objectId: string, cause: Cause)
    | NilInput
    | NoBookFound
    | MultipleBooks

  /** A Ref that names a split of the journal. */
  predicate ValidRef(txs: seq<Transaction>, r: Ref)
  {
    r.tx < |txs| && r.split < |txs[r.tx].splits|
  }

  /** Every split of the journal names an account of `ids`. */
  predicate SplitAccountsIn(txs: seq<Transaction>, ids: set<string>)
  {
    forall i, k :: 0 <= i < |txs| && 0 <= k < |txs[i].splits| ==> txs[i].splits[k].account in ids
  }

  /** The splits among the first |splits| of transaction `tx` that are posted to `account`, in order. */
  function SplitPostings(splits: seq<Split>, tx: nat, account: string): seq<Ref>
  {
    if |splits| == 0 then []
    else
      var n := |splits| - 1;
      SplitPostings(splits[..n], tx, account) + (if splits[n].account == account then [Ref(tx, n)] else [])
  }

  /** The splits of the journal posted to `account`, in journal order and then split order. */
  function Postings(txs: seq<Transaction>, account: string): seq<Ref>
  {
    if |txs| == 0 then []
    else
      var n := |txs| - 1;
      Postings(txs[..n], account) + SplitPostings(txs[n].splits, n, account)
  }

  /** r precedes s in journal order. */
  predicate RefBefore(r: Ref, s: Ref)
  {
    r.tx < s.tx || (r.tx == s.tx && r.split < s.split)
  }

  lemma {:induction false} SplitPostingsExact(splits: seq<Split>, tx: nat, account: string)
    ensures forall k :: 0 <= k < |splits| && splits[k].account == account ==> Ref(tx, k) in SplitPostings(splits, tx, account)
    ensures forall r :: r in SplitPostings(splits, tx, account) ==> r.tx == tx && r.split < |splits| && splits[r.split].account == account
    ensures forall i, j :: 0 <= i < j < |SplitPostings(splits, tx, account)| ==>
      RefBefore(SplitPostings(splits, tx, account)[i], SplitPostings(splits, tx, account)[j])
  {
    if |splits| > 0 {
      var n := |splits| - 1;
      SplitPostingsExact(splits[..n], tx, account);
    }
  }

  /**
   * Postings lists exactly the splits posted to the account, each once, in
   * journal order and then split order.
   */
  lemma {:induction false} PostingsExact(txs: seq<Transaction>, account: string)
    ensures forall r :: r in Postings(txs, account) <==> ValidRef(txs, r) && txs[r.tx].splits[r.split].account == account
    ensures forall i, j :: 0 <= i < j < |Postings(txs, account)| ==> RefBefore(Postings(txs, account)[i], Postings(txs, account)[j])
  {
    if |txs| > 0 {
      var n := |txs| - 1;
      PostingsExact(txs[..n], account);
      SplitPostingsExact(txs[n].splits, n, account);
      var p, q := Postings(txs[..n], account), SplitPostings(txs[n].splits, n, account);
      assert Postings(txs, account) == p + q;
      forall r ensures r in p + q <==> ValidRef(txs, r) && txs[r.tx].splits[r.split].account == account {
        if r.tx < n {
          assert txs[..n][r.tx] == txs[r.tx];
        }
      }
    }
  }

  /** Postings of a journal one transaction longer. */
  lemma PostingsAppend(txs: seq<Transaction>, i: nat, account: string)
    requires i < |txs|
    ensures Postings(txs[..i + 1], account) == Postings(txs[..i], account) + SplitPostings(txs[i].splits, i, account)
  {
    assert txs[..i + 1][..i] == txs[..i];
  }

  /** SplitPostings of one more split. */
  lemma SplitPostingsAppend(splits: seq<Split>, j: nat, tx: nat, account: string)
    requires j < |splits|
    ensures SplitPostings(splits[..j + 1], tx, account)
      == SplitPostings(splits[..j], tx, account) + (if splits[j].account == account then [Ref(tx, j)] else [])
  {
    assert splits[..j + 1][..j] == splits[..j];
  }

  /** strings.Compare(a, b) < 0: byte-wise lexicographic order. */
  predicate StringLess(a: string, b: string)
  {
    if |a| == 0 then |b| > 0
    else if |b| == 0 then false
    else if a[0] != b[0] then a[0] < b[0]
    else StringLess(a[1..], b[1..])
  }

  lemma {:induction false} StringLessTrichotomy(a: string, b: string)
    ensures StringLess(a, b) || StringLess(b, a) || a == b
    ensures !(StringLess(a, b) && StringLess(b, a))
  {
    if |a| > 0 && |b| > 0 && a[0] == b[0] {
      StringLessTrichotomy(a[1..], b[1..]);
      if a[1..] == b[1..] {
        assert a == [a[0]] + a[1..] && b == [b[0]] + b[1..];
      }
    }
  }

  lemma {:induction false} StringLessTransitive(a: string, b: string, c: string)
    requires StringLess(a, b) && StringLess(b, c)
    ensures StringLess(a, c)
  {
    if |a| > 0 && a[0] == b[0] && b[0] == c[0] {
      StringLessTransitive(a[1..], b[1..], c[1..]);
    }
  }
}
