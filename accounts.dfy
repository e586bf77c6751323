/**
 * The account tree of model/accounts.go. newAccountsFromXML builds it in
 * three steps: index the records by ID, link each record to its parent
 * (or make it the root), and sort every list of children by name. Each
 * step is specified by a function over the records; the builder method is
 * proved to follow them, and lemmas say what the functions produce.
 */
module Accounts {
  import opened Wrappers
  import opened Numeric
  import opened AccountTypeTable
  import opened Sorting
  import opened Model

  /**
   * newAccountFromXML: the record's fields and its type from the table; an
   * unknown tag is an error. The table is a parameter (the builders pass
   * AccountTypes) so that proofs about the builders need not unfold it.
   */
  function NewAccount(rec: AccountRecord, types: map<string, AccountType>): (r: Result<Account, Error>)
    ensures r.Success? <==> rec.typeTag in types
    ensures r.Failure? ==> r.error == UnknownAccountType(rec.typeTag)
    ensures r.Success? ==> r.value.id == rec.id && r.value.accountType == types[rec.typeTag]
    ensures r.Success? ==>
      && r.value.name == rec.name && r.value.description == rec.description && r.value.currency == rec.currency
      && r.value.parent.None? && r.value.children == [] && r.value.entries == [] && r.value.transactions == []
  {
    if rec.typeTag !in types then Failure(UnknownAccountType(rec.typeTag))
    else Success(Account(rec.id, types[rec.typeTag], rec.name, rec.description, rec.currency, None, [], [], []))
  }

  // ---------------------------------------------------------------------
  // Step 1: the map from ID to account
  // ---------------------------------------------------------------------

  /** The map step 1 has built after the first k records, or the error that stopped it. */
  function Indexed(recs: seq<AccountRecord>, k: nat, types: map<string, AccountType>): (r: Result<map<string, Account>, Error>)
    requires k <= |recs|
  {
    if k == 0 then Success(map[])
    else
      match Indexed(recs, k - 1, types)
      case Failure(e) => Failure(e)
      case Success(m) =>
        var rec := recs[k - 1];
        if rec.id in m then Failure(DuplicateAccountID(rec.id))
        else
          match NewAccount(rec, types)
          case Failure(e) => Failure(e)
          case Success(a) => Success(m[rec.id := a])
  }

  predicate DistinctIds(recs: seq<AccountRecord>, k: nat)
    requires k <= |recs|
  {
    forall i, j :: 0 <= i < j < k ==> recs[i].id != recs[j].id
  }

  predicate KnownTypes(recs: seq<AccountRecord>, k: nat, types: map<string, AccountType>)
    requires k <= |recs|
  {
    forall i :: 0 <= i < k ==> recs[i].typeTag in types
  }

  /** Some record among the first k has the ID `id`. */
  predicate HasId(recs: seq<AccountRecord>, k: nat, id: string)
    requires k <= |recs|
  {
    exists i :: 0 <= i < k && recs[i].id == id
  }

  /** The error step 1 reports at record i, given that the records before it were accepted. */
  function IndexError(recs: seq<AccountRecord>, i: nat, types: map<string, AccountType>): Error
    requires i < |recs|
  {
    if HasId(recs, i, recs[i].id) then DuplicateAccountID(recs[i].id) else UnknownAccountType(recs[i].typeTag)
  }

  /**
   * Step 1 succeeds exactly when the IDs are distinct and every type tag is
   * in the table; the map then holds, under each record's ID, the account
   * newAccountFromXML makes of it.
   */
  lemma {:induction false} IndexedExact(recs: seq<AccountRecord>, k: nat, types: map<string, AccountType>)
    requires k <= |recs|
    ensures Indexed(recs, k, types).Success? <==> DistinctIds(recs, k) && KnownTypes(recs, k, types)
    ensures Indexed(recs, k, types).Success? ==>
      && (forall id :: id in Indexed(recs, k, types).value ==> HasId(recs, k, id))
      && (forall i :: 0 <= i < k ==> recs[i].id in Indexed(recs, k, types).value && Indexed(recs, k, types).value[recs[i].id] == NewAccount(recs[i], types).value)
  {
    if k > 0 {
      IndexedExact(recs, k - 1, types);
      var rec := recs[k - 1];
      if Indexed(recs, k - 1, types).Success? {
        var m := Indexed(recs, k - 1, types).value;
        if rec.id in m {
          assert HasId(recs, k - 1, rec.id);
          assert !DistinctIds(recs, k);
        } else if rec.typeTag !in types {
          assert !KnownTypes(recs, k, types);
        } else {
          IndexedStep(recs, k, m, types);
          IndexedGrow(recs, k, m, types);
          IndexedGrowValid(recs, k, m, types);
        }
      }
    }
  }

  /** The step of IndexedExact that adds a fresh, well-typed record. */
  lemma IndexedStep(recs: seq<AccountRecord>, k: nat, m: map<string, Account>, types: map<string, AccountType>)
    requires 0 < k <= |recs| && Indexed(recs, k - 1, types) == Success(m)
    requires recs[k - 1].id !in m && recs[k - 1].typeTag in types
    ensures Indexed(recs, k, types) == Success(m[recs[k - 1].id := NewAccount(recs[k - 1], types).value])
  {
  }

  /** The map facts of IndexedExact carry over to the map with record k - 1 added. */
  lemma IndexedGrow(recs: seq<AccountRecord>, k: nat, m: map<string, Account>, types: map<string, AccountType>)
    requires 0 < k <= |recs| && KnownTypes(recs, k - 1, types)
    requires forall id :: id in m ==> HasId(recs, k - 1, id)
    requires forall i :: 0 <= i < k - 1 ==> recs[i].id in m && m[recs[i].id] == NewAccount(recs[i], types).value
    requires recs[k - 1].id !in m && recs[k - 1].typeTag in types
    ensures var m' := m[recs[k - 1].id := NewAccount(recs[k - 1], types).value];
      && (forall id :: id in m' ==> HasId(recs, k, id))
      && (forall i :: 0 <= i < k ==> recs[i].id in m' && m'[recs[i].id] == NewAccount(recs[i], types).value)
  {
    forall id | id in m ensures HasId(recs, k, id) {
      var i :| 0 <= i < k - 1 && recs[i].id == id;
    }
  }

  /** A fresh ID and a known tag keep the records accepted so far acceptable. */
  lemma IndexedGrowValid(recs: seq<AccountRecord>, k: nat, m: map<string, Account>, types: map<string, AccountType>)
    requires 0 < k <= |recs|
    requires DistinctIds(recs, k - 1) && KnownTypes(recs, k - 1, types)
    requires forall i :: 0 <= i < k - 1 ==> recs[i].id in m
    requires recs[k - 1].id !in m && recs[k - 1].typeTag in types
    ensures DistinctIds(recs, k) && KnownTypes(recs, k, types)
  {
  }

  /**
   * When step 1 fails, the error is that of the first record refused; a
   * repeated ID is reported before an unknown tag.
   */
  lemma {:induction false} IndexedFirstError(recs: seq<AccountRecord>, k: nat, types: map<string, AccountType>)
    requires k <= |recs| && Indexed(recs, k, types).Failure?
    ensures exists i :: (0 <= i < k && Indexed(recs, i, types).Success? && Indexed(recs, i + 1, types).Failure? &&
      Indexed(recs, k, types).error == IndexError(recs, i, types))
  {
    IndexedExact(recs, k - 1, types);
    if Indexed(recs, k - 1, types).Failure? {
      IndexedFirstError(recs, k - 1, types);
    } else {
      var m := Indexed(recs, k - 1, types).value;
      if recs[k - 1].id in m {
        assert HasId(recs, k - 1, recs[k - 1].id);
      }
    }
  }

  /** Once step 1 has failed, later records do not change the outcome. */
  lemma {:induction false} IndexedFailureStays(recs: seq<AccountRecord>, i: nat, k: nat, types: map<string, AccountType>)
    requires i <= k <= |recs| && Indexed(recs, i, types).Failure?
    ensures Indexed(recs, k, types) == Indexed(recs, i, types)
    decreases k
  {
    if k > i {
      IndexedFailureStays(recs, i, k - 1, types);
    }
  }

  // ---------------------------------------------------------------------
  // Step 2: the root and the parent/children links
  // ---------------------------------------------------------------------

  /** The root and the map of accounts as step 2 leaves them. */
  datatype Links = Links(root: Option<string>, byId: map<string, Account>)

  /** The parent a record names: none for an empty ParentID. */
  function ParentField(rec: AccountRecord): Option<string>
  {
    if rec.parentId == "" then None else Some(rec.parentId)
  }

  /** Step 2 on one record. */
  function LinkOne(l: Links, rec: AccountRecord): (r: Result<Links, Error>)
    requires rec.id in l.byId
    ensures r.Success? ==> r.value.byId.Keys == l.byId.Keys
  {
    if rec.parentId == "" then
      if rec.typeTag != "ROOT" then Failure(InvalidRootType(rec.id))
      else if l.root.Some? then Failure(MultipleRoots)
      else Success(Links(Some(rec.id), l.byId))
    else if rec.parentId !in l.byId then Failure(ParentNotFound(rec.parentId))
    else
      var m := l.byId[rec.id := l.byId[rec.id].(parent := Some(rec.parentId))];
      var p := m[rec.parentId];
      Success(Links(l.root, m[rec.parentId := p.(children := p.children + [rec.id])]))
  }

  /** What step 2 has built from the map `m` after the first k records, or the error that stopped it. */
  function Linked(recs: seq<AccountRecord>, k: nat, m: map<string, Account>): (r: Result<Links, Error>)
    requires k <= |recs| && forall i :: 0 <= i < |recs| ==> recs[i].id in m
    ensures r.Success? ==> r.value.byId.Keys == m.Keys
  {
    if k == 0 then Success(Links(None, m))
    else
      match Linked(recs, k - 1, m)
      case Failure(e) => Failure(e)
      case Success(l) => LinkOne(l, recs[k - 1])
  }

  /** The IDs of the records among the first k whose ParentID is p, in record order. */
  function ChildrenOf(recs: seq<AccountRecord>, k: nat, p: string): seq<string>
    requires k <= |recs|
  {
    if k == 0 then []
    else ChildrenOf(recs, k - 1, p) + (if p != "" && recs[k - 1].parentId == p then [recs[k - 1].id] else [])
  }

  /** A record without a parent is of type ROOT. */
  predicate RootsTyped(recs: seq<AccountRecord>, k: nat)
    requires k <= |recs|
  {
    forall i :: 0 <= i < k && recs[i].parentId == "" ==> recs[i].typeTag == "ROOT"
  }

  predicate AtMostOneRoot(recs: seq<AccountRecord>, k: nat)
    requires k <= |recs|
  {
    forall i, j :: 0 <= i < j < k && recs[i].parentId == "" ==> recs[j].parentId != ""
  }

  predicate ParentsKnown(recs: seq<AccountRecord>, k: nat, ids: set<string>)
    requires k <= |recs|
  {
    forall i :: 0 <= i < k && recs[i].parentId != "" ==> recs[i].parentId in ids
  }

  /** The error step 2 reports at record i, given that the records before it were accepted. */
  function LinkError(rec: AccountRecord): Error
  {
    if rec.parentId != "" then ParentNotFound(rec.parentId)
    else if rec.typeTag != "ROOT" then InvalidRootType(rec.id)
    else MultipleRoots
  }

  /**
   * Step 2 succeeds exactly when every record without a parent is of type
   * ROOT, at most one record has no parent, and every ParentID is a known
   * ID. The root is then that record, or none when every record has a
   * parent (an empty list and a cycle of parents are accepted).
   */
  lemma {:induction false} LinkedExact(recs: seq<AccountRecord>, k: nat, m: map<string, Account>)
    requires k <= |recs| && forall i :: 0 <= i < |recs| ==> recs[i].id in m
    ensures Linked(recs, k, m).Success? <==> RootsTyped(recs, k) && AtMostOneRoot(recs, k) && ParentsKnown(recs, k, m.Keys)
    ensures Linked(recs, k, m).Success? ==>
      && (Linked(recs, k, m).value.root.None? <==> forall i :: 0 <= i < k ==> recs[i].parentId != "")
      && (forall i :: 0 <= i < k && recs[i].parentId == "" ==> Linked(recs, k, m).value.root == Some(recs[i].id))
  {
    LinkedSucceeds(recs, k, m);
    if Linked(recs, k, m).Success? {
      LinkedRoot(recs, k, m);
    }
  }

  lemma {:induction false} LinkedSucceeds(recs: seq<AccountRecord>, k: nat, m: map<string, Account>)
    requires k <= |recs| && forall i :: 0 <= i < |recs| ==> recs[i].id in m
    ensures Linked(recs, k, m).Success? <==> RootsTyped(recs, k) && AtMostOneRoot(recs, k) && ParentsKnown(recs, k, m.Keys)
  {
    if k > 0 {
      LinkedSucceeds(recs, k - 1, m);
      if Linked(recs, k - 1, m).Success? {
        var l, rec := Linked(recs, k - 1, m).value, recs[k - 1];
        LinkedRoot(recs, k - 1, m);
        assert Linked(recs, k, m) == LinkOne(l, rec);
        assert rec.parentId in l.byId <==> rec.parentId in m;
      }
      LinkChecksStep(recs, k, m.Keys);
    }
  }

  /** The three checks of step 2 over k records: those over k - 1 records and those of record k - 1. */
  lemma LinkChecksStep(recs: seq<AccountRecord>, k: nat, ids: set<string>)
    requires 0 < k <= |recs|
    ensures var rec := recs[k - 1];
      && (RootsTyped(recs, k) <==> RootsTyped(recs, k - 1) && (rec.parentId == "" ==> rec.typeTag == "ROOT"))
      && (AtMostOneRoot(recs, k) <==>
            AtMostOneRoot(recs, k - 1) && (rec.parentId == "" ==> forall i :: 0 <= i < k - 1 ==> recs[i].parentId != ""))
      && (ParentsKnown(recs, k, ids) <==> ParentsKnown(recs, k - 1, ids) && (rec.parentId != "" ==> rec.parentId in ids))
  {
  }

  /** The root after step 2 on one record: that record when it has no parent, otherwise unchanged. */
  lemma LinkOneRoot(l: Links, rec: AccountRecord)
    requires rec.id in l.byId && LinkOne(l, rec).Success?
    ensures rec.parentId == "" ==> l.root.None? && LinkOne(l, rec).value.root == Some(rec.id)
    ensures rec.parentId != "" ==> LinkOne(l, rec).value.root == l.root
  {
  }

  lemma {:induction false} LinkedRoot(recs: seq<AccountRecord>, k: nat, m: map<string, Account>)
    requires k <= |recs| && forall i :: 0 <= i < |recs| ==> recs[i].id in m
    requires Linked(recs, k, m).Success?
    ensures Linked(recs, k, m).value.root.None? <==> forall i :: 0 <= i < k ==> recs[i].parentId != ""
    ensures forall i :: 0 <= i < k && recs[i].parentId == "" ==> Linked(recs, k, m).value.root == Some(recs[i].id)
  {
    if k > 0 {
      LinkedBefore(recs, k, m);
      var l, rec := Linked(recs, k - 1, m).value, recs[k - 1];
      LinkedRoot(recs, k - 1, m);
      LinkOneRoot(l, rec);
      var root := Linked(recs, k, m).value.root;
      if rec.parentId == "" {
        assert root == Some(rec.id) && l.root.None?;
        forall i | 0 <= i < k && recs[i].parentId == "" ensures root == Some(recs[i].id) {
          assert i == k - 1;
        }
        assert root.Some? && recs[k - 1].parentId == "";
      } else {
        assert root == l.root;
        forall i | 0 <= i < k && recs[i].parentId == "" ensures root == Some(recs[i].id) {
          assert i < k - 1;
        }
        assert (forall i :: 0 <= i < k ==> recs[i].parentId != "") <==> (forall i :: 0 <= i < k - 1 ==> recs[i].parentId != "");
      }
    }
  }

  /** A successful step 2 succeeded on every shorter prefix, record by record. */
  lemma LinkedBefore(recs: seq<AccountRecord>, k: nat, m: map<string, Account>)
    requires 0 < k <= |recs| && forall i :: 0 <= i < |recs| ==> recs[i].id in m
    requires Linked(recs, k, m).Success?
    ensures Linked(recs, k - 1, m).Success? && Linked(recs, k, m) == LinkOne(Linked(recs, k - 1, m).value, recs[k - 1])
  {
  }

  /** When step 2 fails, the error is that of the first record refused. */
  lemma {:induction false} LinkedFirstError(recs: seq<AccountRecord>, k: nat, m: map<string, Account>)
    requires k <= |recs| && forall i :: 0 <= i < |recs| ==> recs[i].id in m
    requires Linked(recs, k, m).Failure?
    ensures exists i :: (0 <= i < k && Linked(recs, i, m).Success? && Linked(recs, i + 1, m).Failure? &&
      Linked(recs, k, m).error == LinkError(recs[i]))
  {
    if Linked(recs, k - 1, m).Failure? {
      LinkedFirstError(recs, k - 1, m);
    }
  }

  /** One more record: step 2 applies LinkOne to what it had built. */
  lemma LinkedStep(recs: seq<AccountRecord>, i: nat, m: map<string, Account>)
    requires i < |recs| && forall j :: 0 <= j < |recs| ==> recs[j].id in m
    requires Linked(recs, i, m).Success?
    ensures Linked(recs, i + 1, m) == LinkOne(Linked(recs, i, m).value, recs[i])
  {
  }

  /** Once step 2 has failed, later records do not change the outcome. */
  lemma {:induction false} LinkedFailureStays(recs: seq<AccountRecord>, i: nat, k: nat, m: map<string, Account>)
    requires i <= k <= |recs| && forall j :: 0 <= j < |recs| ==> recs[j].id in m
    requires Linked(recs, i, m).Failure?
    ensures Linked(recs, k, m) == Linked(recs, i, m)
    decreases k
  {
    if k > i {
      LinkedFailureStays(recs, i, k - 1, m);
    }
  }

  /** The parent step 2 has given the account `q` after the first k records. */
  function ParentOf(recs: seq<AccountRecord>, k: nat, q: string): Option<string>
    requires k <= |recs|
  {
    if k == 0 then None
    else if recs[k - 1].id == q && recs[k - 1].parentId != "" then Some(recs[k - 1].parentId)
    else ParentOf(recs, k - 1, q)
  }

  /** With distinct IDs, an account's parent is the one its own record names. */
  lemma {:induction false} ParentOfOwnRecord(recs: seq<AccountRecord>, k: nat, i: nat)
    requires i < k <= |recs| && DistinctIds(recs, k)
    ensures ParentOf(recs, k, recs[i].id) == ParentField(recs[i])
  {
    if k - 1 > i {
      ParentOfOwnRecord(recs, k - 1, i);
    } else {
      ParentOfNone(recs, i, recs[i].id);
    }
  }

  /** No record among the first k has the ID q: no parent was set. */
  lemma {:induction false} ParentOfNone(recs: seq<AccountRecord>, k: nat, q: string)
    requires k <= |recs| && forall i :: 0 <= i < k ==> recs[i].id != q
    ensures ParentOf(recs, k, q) == None
  {
    if k > 0 {
      ParentOfNone(recs, k - 1, q);
    }
  }

  /**
   * After step 2 each account keeps every field but its links: its parent
   * is the one its record names, and its children are the IDs of the
   * records naming it as parent, in record order.
   */
  lemma {:induction false} LinkedShape(recs: seq<AccountRecord>, k: nat, m: map<string, Account>)
    requires k <= |recs| && forall i :: 0 <= i < |recs| ==> recs[i].id in m
    requires forall q :: q in m ==> m[q].parent == None && m[q].children == []
    requires Linked(recs, k, m).Success?
    ensures forall q :: q in m ==>
      Linked(recs, k, m).value.byId[q] == m[q].(parent := ParentOf(recs, k, q), children := ChildrenOf(recs, k, q))
  {
    if k > 0 {
      LinkedShape(recs, k - 1, m);
      var rec := recs[k - 1];
      var l := Linked(recs, k - 1, m).value;
      var n := Linked(recs, k, m).value;
      assert LinkOne(l, rec) == Success(n);
      forall q | q in m ensures n.byId[q] == m[q].(parent := ParentOf(recs, k, q), children := ChildrenOf(recs, k, q)) {
        LinkOneShape(l, rec, q);
        assert ChildrenOf(recs, k, q) == ChildrenOf(recs, k - 1, q) + if q != "" && rec.parentId == q then [rec.id] else [];
      }
    }
  }

  /** What LinkOne changes: the record's own parent, and the children of the parent it names. */
  lemma LinkOneShape(l: Links, rec: AccountRecord, q: string)
    requires rec.id in l.byId && LinkOne(l, rec).Success? && q in l.byId
    ensures LinkOne(l, rec).value.byId[q] == l.byId[q].(
      parent := if q == rec.id && rec.parentId != "" then Some(rec.parentId) else l.byId[q].parent,
      children := l.byId[q].children + if rec.parentId != "" && q == rec.parentId then [rec.id] else [])
  {
  }

  // ---------------------------------------------------------------------
  // Step 3: children sorted by name
  // ---------------------------------------------------------------------

  /** The name of the account `id`; empty for an ID not in the map. */
  function NameOf(m: map<string, Account>, id: string): string
  {
    if id in m then m[id].name else ""
  }

  /** byAccountName as an order on IDs: a may precede b when b's name is not less than a's. */
  function ByAccountName(m: map<string, Account>): (string, string) -> bool
  {
    (a: string, b: string) => !StringLess(NameOf(m, b), NameOf(m, a))
  }

  /** byAccountName orders every pair and is transitive, as sort.Sort requires. */
  lemma ByAccountNameIsTotalPreorder(m: map<string, Account>)
    ensures TotalPreorder(ByAccountName(m))
  {
    var le := ByAccountName(m);
    forall a, b ensures le(a, b) || le(b, a) {
      StringLessTrichotomy(NameOf(m, a), NameOf(m, b));
    }
    forall a, b, c | le(a, b) && le(b, c) ensures le(a, c) {
      var x, y, z := NameOf(m, a), NameOf(m, b), NameOf(m, c);
      StringLessTrichotomy(x, y);
      if StringLess(x, y) && StringLess(z, x) {
        StringLessTransitive(z, x, y);
      }
    }
  }

  /** What steps 1 and 2 build from the records, or the error that stopped them. */
  function Built(recs: seq<AccountRecord>, types: map<string, AccountType>): Result<Links, Error>
  {
    match Indexed(recs, |recs|, types)
    case Failure(e) => Failure(e)
    case Success(m) =>
      IndexedExact(recs, |recs|, types);
      Linked(recs, |recs|, m)
  }

  /** The accounts steps 1 and 2 build have no entries and no transactions yet. */
  lemma BuiltListsEmpty(recs: seq<AccountRecord>, types: map<string, AccountType>)
    requires Built(recs, types).Success?
    ensures forall q :: q in Built(recs, types).value.byId ==>
      Built(recs, types).value.byId[q].entries == [] && Built(recs, types).value.byId[q].transactions == []
  {
    var n := |recs|;
    IndexedExact(recs, n, types);
    var m := Indexed(recs, n, types).value;
    BuiltAccounts(recs, types, m);
    var l := Built(recs, types).value;
    forall q | q in l.byId ensures l.byId[q].entries == [] && l.byId[q].transactions == [] {
      assert HasId(recs, n, q);
      var i :| 0 <= i < n && recs[i].id == q;
      var a := NewAccount(recs[i], types);
      assert l.byId[q] == a.value.(parent := ParentField(recs[i]), children := ChildrenOf(recs, n, q));
    }
  }

  /** The accounts after step 3: those of `l`, each list of children a permutation ordered by name. */
  predicate ChildrenSorted(l: Links, root: Option<string>, byId: map<string, Account>)
  {
    && root == l.root
    && byId.Keys == l.byId.Keys
    && forall q :: q in byId ==>
      && byId[q] == l.byId[q].(children := byId[q].children)
      && multiset(byId[q].children) == multiset(l.byId[q].children)
      && SortedBy(byId[q].children, ByAccountName(l.byId))
  }

  /**
   * newAccountsFromXML on its input, as a whole. It succeeds exactly when
   * the IDs are distinct, every type tag is in the table, every account
   * without a parent is of type ROOT, at most one account has no parent,
   * and every ParentID is an ID. Then there is one account per record,
   * holding that record's fields, the parent it names and, as children, the
   * records naming it, in record order (before step 3 sorts them). The root
   * is the account without a parent, if any.
   */
  lemma BuiltExact(recs: seq<AccountRecord>, types: map<string, AccountType>)
    ensures Built(recs, types).Success? <==>
      && DistinctIds(recs, |recs|) && KnownTypes(recs, |recs|, types)
      && RootsTyped(recs, |recs|) && AtMostOneRoot(recs, |recs|)
      && forall i :: 0 <= i < |recs| && recs[i].parentId != "" ==> HasId(recs, |recs|, recs[i].parentId)
    ensures Built(recs, types).Success? ==>
      var l := Built(recs, types).value;
      && (forall id :: id in l.byId <==> HasId(recs, |recs|, id))
      && (forall i :: 0 <= i < |recs| ==>
            l.byId[recs[i].id] == NewAccount(recs[i], types).value.(parent := ParentField(recs[i]), children := ChildrenOf(recs, |recs|, recs[i].id)))
      && (l.root.None? <==> forall i :: 0 <= i < |recs| ==> recs[i].parentId != "")
      && (forall i :: 0 <= i < |recs| && recs[i].parentId == "" ==> l.root == Some(recs[i].id))
  {
    var n := |recs|;
    IndexedExact(recs, n, types);
    if Indexed(recs, n, types).Success? {
      var m := Indexed(recs, n, types).value;
      assert forall id :: id in m <==> HasId(recs, n, id);
      LinkedExact(recs, n, m);
      if Linked(recs, n, m).Success? {
        BuiltAccounts(recs, types, m);
      }
    }
  }

  /** The accounts of a successful build, one per record (a step of BuiltExact). */
  lemma BuiltAccounts(recs: seq<AccountRecord>, types: map<string, AccountType>, m: map<string, Account>)
    requires forall i :: 0 <= i < |recs| ==> recs[i].id in m
    requires KnownTypes(recs, |recs|, types)
    requires Indexed(recs, |recs|, types) == Success(m) && Linked(recs, |recs|, m).Success?
    ensures forall i :: 0 <= i < |recs| ==>
      Linked(recs, |recs|, m).value.byId[recs[i].id] ==
        NewAccount(recs[i], types).value.(parent := ParentField(recs[i]), children := ChildrenOf(recs, |recs|, recs[i].id))
  {
    var n := |recs|;
    IndexedExact(recs, n, types);
    forall q | q in m ensures m[q].parent == None && m[q].children == [] {
      assert HasId(recs, n, q);
      var i :| 0 <= i < n && recs[i].id == q;
      assert m[q] == NewAccount(recs[i], types).value;
    }
    LinkedShape(recs, n, m);
    forall i | 0 <= i < n
      ensures Linked(recs, n, m).value.byId[recs[i].id] ==
        NewAccount(recs[i], types).value.(parent := ParentField(recs[i]), children := ChildrenOf(recs, n, recs[i].id))
    {
      ParentOfOwnRecord(recs, n, i);
    }
  }

  // ---------------------------------------------------------------------
  // postInit: entries, running balances, plus and minus values
  // ---------------------------------------------------------------------

  /** The entry step 1 of postInit appends for the split r: every value still Numeric{}. */
  function Blank(r: Ref): AccountTransaction
  {
    AccountTransaction(Some(r.tx), Some(r.split), Nil, Nil, Nil)
  }

  /** The entries step 1 of postInit gives an account whose splits are `refs`. */
  function Pending(refs: seq<Ref>): (r: seq<AccountTransaction>)
    ensures |r| == |refs|
  {
    if |refs| == 0 then [] else Pending(refs[..|refs| - 1]) + [Blank(refs[|refs| - 1])]
  }

  /** The value of the split r names (Numeric{} for a reference outside the journal). */
  function ValueAt(txs: seq<Transaction>, r: Ref): Numeric
  {
    if ValidRef(txs, r) then txs[r.tx].splits[r.split].value else Nil
  }

  /** The values of the splits `refs` names, in order. */
  function ValuesAt(txs: seq<Transaction>, refs: seq<Ref>): (vs: seq<Numeric>)
    ensures |vs| == |refs| && forall k :: 0 <= k < |refs| ==> vs[k] == ValueAt(txs, refs[k])
  {
    if |refs| == 0 then [] else ValuesAt(txs, refs[..|refs| - 1]) + [ValueAt(txs, refs[|refs| - 1])]
  }

  /** The balance after AddEqual of each value in turn, starting from Numeric{}. */
  function RunningBalance(vs: seq<Numeric>): Numeric
  {
    if |vs| == 0 then Nil else Add(RunningBalance(vs[..|vs| - 1]), vs[|vs| - 1])
  }

  /** The exact sum of the values. */
  function RealSum(vs: seq<Numeric>): real
  {
    if |vs| == 0 then 0.0 else RealSum(vs[..|vs| - 1]) + Real(vs[|vs| - 1])
  }

  /**
   * The entry step 2 of postInit makes of the split r with value v once
   * the balance is b: a value of sign >= 0 is the plus value, a negative
   * one negated is the minus value, and the other stays Numeric{}.
   */
  function Classify(r: Ref, v: Numeric, b: Numeric): AccountTransaction
  {
    if Sign(v) >= 0 then AccountTransaction(Some(r.tx), Some(r.split), v, Nil, b)
    else AccountTransaction(Some(r.tx), Some(r.split), Nil, Neg(v), b)
  }

  /** The entries postInit gives an account whose splits are `refs`. */
  function Ledger(txs: seq<Transaction>, refs: seq<Ref>): (r: seq<AccountTransaction>)
    ensures |r| == |refs|
  {
    if |refs| == 0 then []
    else
      var n := |refs| - 1;
      Ledger(txs, refs[..n]) + [Classify(refs[n], ValueAt(txs, refs[n]), RunningBalance(ValuesAt(txs, refs)))]
  }

  /** A split as postInit leaves it: a negative value is negated in place. */
  function Settled(s: Split): Split
  {
    if Sign(s.value) < 0 then s.(value := Neg(s.value)) else s
  }

  /** Pending has the blank entry of each reference, in order. */
  lemma {:induction false} PendingAt(refs: seq<Ref>)
    ensures forall k :: 0 <= k < |refs| ==> Pending(refs)[k] == Blank(refs[k])
  {
    if |refs| > 0 {
      PendingAt(refs[..|refs| - 1]);
    }
  }

  lemma PendingAppend(refs: seq<Ref>, r: Ref)
    ensures Pending(refs + [r]) == Pending(refs) + [Blank(r)]
  {
    assert (refs + [r])[..|refs|] == refs;
  }

  /** `journal` has the transactions of `txs`, with the same number of splits each; only splits may differ. */
  predicate SameShape(txs: seq<Transaction>, journal: seq<Transaction>)
  {
    && |journal| == |txs|
    && forall i :: 0 <= i < |txs| ==> journal[i] == txs[i].(splits := journal[i].splits) && |journal[i].splits| == |txs[i].splits|
  }

  /**
   * In `journal`, the splits of the accounts outside `todo` and the splits
   * `refs` names are settled; every other split is as in `txs`.
   */
  predicate SettledBut(txs: seq<Transaction>, journal: seq<Transaction>, todo: set<string>, refs: seq<Ref>)
    requires SameShape(txs, journal)
  {
    forall i, k :: 0 <= i < |txs| && 0 <= k < |txs[i].splits| ==>
      journal[i].splits[k] ==
        if txs[i].splits[k].account !in todo || Ref(i, k) in refs then Settled(txs[i].splits[k]) else txs[i].splits[k]
  }

  /** Settling the split r, not yet settled, extends what SettledBut covers by r. */
  lemma SettleOne(txs: seq<Transaction>, journal: seq<Transaction>, todo: set<string>, refs: seq<Ref>, r: Ref)
    requires SameShape(txs, journal) && SettledBut(txs, journal, todo, refs)
    requires ValidRef(txs, r) && r !in refs && txs[r.tx].splits[r.split].account in todo
    ensures var s := Settled(txs[r.tx].splits[r.split]);
      var next := journal[r.tx := journal[r.tx].(splits := journal[r.tx].splits[r.split := s])];
      SameShape(txs, next) && SettledBut(txs, next, todo, refs + [r])
  {
    var s := Settled(txs[r.tx].splits[r.split]);
    var next := journal[r.tx := journal[r.tx].(splits := journal[r.tx].splits[r.split := s])];
    forall i, k | 0 <= i < |txs| && 0 <= k < |txs[i].splits|
      ensures next[i].splits[k] ==
        if txs[i].splits[k].account !in todo || Ref(i, k) in refs + [r] then Settled(txs[i].splits[k]) else txs[i].splits[k]
    {
      assert Ref(i, k) in refs + [r] <==> Ref(i, k) in refs || Ref(i, k) == r;
    }
  }

  /** A split whose value has sign >= 0 is settled already. */
  lemma SettleNonNegative(txs: seq<Transaction>, journal: seq<Transaction>, todo: set<string>, refs: seq<Ref>, r: Ref)
    requires SameShape(txs, journal) && SettledBut(txs, journal, todo, refs)
    requires ValidRef(txs, r) && Sign(txs[r.tx].splits[r.split].value) >= 0
    ensures SettledBut(txs, journal, todo, refs + [r])
  {
    forall i, k | 0 <= i < |txs| && 0 <= k < |txs[i].splits|
      ensures journal[i].splits[k] ==
        if txs[i].splits[k].account !in todo || Ref(i, k) in refs + [r] then Settled(txs[i].splits[k]) else txs[i].splits[k]
    {
      assert Ref(i, k) in refs + [r] <==> Ref(i, k) in refs || Ref(i, k) == r;
    }
  }

  /** One more split of the account: the ledger grows by its classified entry, the balance by its value. */
  lemma LedgerStep(txs: seq<Transaction>, refs: seq<Ref>, k: nat)
    requires k < |refs|
    ensures RunningBalance(ValuesAt(txs, refs[..k + 1])) == Add(RunningBalance(ValuesAt(txs, refs[..k])), ValueAt(txs, refs[k]))
    ensures Ledger(txs, refs[..k + 1]) ==
      Ledger(txs, refs[..k]) + [Classify(refs[k], ValueAt(txs, refs[k]), RunningBalance(ValuesAt(txs, refs[..k + 1])))]
  {
    assert refs[..k + 1][..k] == refs[..k];
    assert ValuesAt(txs, refs[..k + 1])[..k] == ValuesAt(txs, refs[..k]);
  }

  /** Once all of the account's splits are settled, the account leaves `todo`. */
  lemma SettledAccount(txs: seq<Transaction>, journal: seq<Transaction>, todo: set<string>, q: string)
    requires SameShape(txs, journal) && SettledBut(txs, journal, todo, Postings(txs, q))
    ensures SettledBut(txs, journal, todo - {q}, [])
  {
    PostingsExact(txs, q);
    forall i, j | 0 <= i < |txs| && 0 <= j < |txs[i].splits|
      ensures Ref(i, j) in Postings(txs, q) <==> txs[i].splits[j].account == q
    {
      assert ValidRef(txs, Ref(i, j));
    }
  }

  /**
   * The splits `refs` names are splits of the journal, of accounts in
   * `todo`, each once and in journal order.
   */
  predicate Visits(txs: seq<Transaction>, refs: seq<Ref>, todo: set<string>)
  {
    && (forall m :: 0 <= m < |refs| ==> ValidRef(txs, refs[m]) && txs[refs[m].tx].splits[refs[m].split].account in todo)
    && (forall i, j :: 0 <= i < j < |refs| ==> RefBefore(refs[i], refs[j]))
  }

  lemma PostingsVisit(txs: seq<Transaction>, q: string, todo: set<string>)
    requires q in todo
    ensures Visits(txs, Postings(txs, q), todo)
  {
    PostingsExact(txs, q);
    var refs := Postings(txs, q);
    forall m | 0 <= m < |refs| ensures txs[refs[m].tx].splits[refs[m].split].account in todo {
      assert refs[m] in refs;
    }
  }

  /**
   * Step 2 of postInit for one account after k of its entries `refs`:
   * they have their final form, the rest are blank, the balance is the
   * running balance so far, and the journal has those k splits settled.
   */
  predicate Progress(txs: seq<Transaction>, refs: seq<Ref>, todo: set<string>, k: nat,
                     done: seq<AccountTransaction>, settled: seq<Transaction>, balance: Numeric)
  {
    && k <= |done| == |refs|
    && done[..k] == Ledger(txs, refs[..k])
    && (forall m :: k <= m < |refs| ==> done[m] == Blank(refs[m]))
    && balance == RunningBalance(ValuesAt(txs, refs[..k]))
    && SameShape(txs, settled) && SettledBut(txs, settled, todo, refs[..k])
  }

  /**
   * Step 2 of postInit for one account: entries holds its blank entries;
   * each gets the running balance and its plus or minus value, and each
   * negative split value is negated in the journal.
   */
  method SettleEntries(txs: seq<Transaction>, q: string, entries: seq<AccountTransaction>, journal: seq<Transaction>, ghost todo: set<string>)
    returns (done: seq<AccountTransaction>, settled: seq<Transaction>)
    requires entries == Pending(Postings(txs, q)) && q in todo
    requires SameShape(txs, journal) && SettledBut(txs, journal, todo, [])
    ensures done == Ledger(txs, Postings(txs, q))
    ensures SameShape(txs, settled) && SettledBut(txs, settled, todo - {q}, [])
  {
    ghost var refs := Postings(txs, q);
    PostingsVisit(txs, q, todo);
    var balance := new NumericVar();
    done, settled := entries, journal;
    ProgressStart(txs, refs, todo, done, settled);
    var k := 0;
    while k < |done|
      invariant Progress(txs, refs, todo, k, done, settled, balance.Value())
    {
      done, settled := SettleEntry(txs, refs, todo, k, done, settled, balance);
      k := k + 1;
    }
    ProgressEnd(txs, refs, todo, k, done, settled, balance.Value());
    SettledAccount(txs, settled, todo, q);
  }

  lemma ProgressStart(txs: seq<Transaction>, refs: seq<Ref>, todo: set<string>, done: seq<AccountTransaction>, settled: seq<Transaction>)
    requires done == Pending(refs) && SameShape(txs, settled) && SettledBut(txs, settled, todo, [])
    ensures Progress(txs, refs, todo, 0, done, settled, Nil)
  {
    PendingAt(refs);
    assert refs[..0] == [];
  }

  lemma ProgressEnd(txs: seq<Transaction>, refs: seq<Ref>, todo: set<string>, k: nat,
                    done: seq<AccountTransaction>, settled: seq<Transaction>, balance: Numeric)
    requires Progress(txs, refs, todo, k, done, settled, balance) && k >= |done|
    ensures done == Ledger(txs, refs) && SameShape(txs, settled) && SettledBut(txs, settled, todo, refs)
  {
    assert refs[..k] == refs && done[..k] == done;
  }

  /** The journal once the split r is settled. */
  function SettleAt(journal: seq<Transaction>, r: Ref): seq<Transaction>
    requires r.tx < |journal| && r.split < |journal[r.tx].splits|
  {
    var s := journal[r.tx].splits[r.split];
    if Sign(s.value) >= 0 then journal
    else journal[r.tx := journal[r.tx].(splits := journal[r.tx].splits[r.split := s.(value := Neg(s.value))])]
  }

  /** Settling the k-th split of the account extends what SettledBut covers by it. */
  lemma SettleStep(txs: seq<Transaction>, journal: seq<Transaction>, todo: set<string>, refs: seq<Ref>, k: nat)
    requires k < |refs| && Visits(txs, refs, todo)
    requires SameShape(txs, journal) && SettledBut(txs, journal, todo, refs[..k])
    ensures ValidRef(journal, refs[k]) && journal[refs[k].tx].splits[refs[k].split] == txs[refs[k].tx].splits[refs[k].split]
    ensures SameShape(txs, SettleAt(journal, refs[k])) && SettledBut(txs, SettleAt(journal, refs[k]), todo, refs[..k + 1])
  {
    var r := refs[k];
    assert r !in refs[..k] by {
      forall m | 0 <= m < k ensures refs[m] != r {
        assert RefBefore(refs[m], r);
      }
    }
    assert refs[..k + 1] == refs[..k] + [r];
    if Sign(txs[r.tx].splits[r.split].value) >= 0 {
      SettleNonNegative(txs, journal, todo, refs[..k], r);
    } else {
      SettleOne(txs, journal, todo, refs[..k], r);
    }
  }

  /** Recording the k-th entry, classified with balance b, extends the ledger prefix by one. */
  lemma RecordStep(txs: seq<Transaction>, refs: seq<Ref>, k: nat, done: seq<AccountTransaction>, b: Numeric)
    requires k < |done| == |refs|
    requires done[..k] == Ledger(txs, refs[..k])
    requires b == RunningBalance(ValuesAt(txs, refs[..k + 1]))
    ensures done[k := Classify(refs[k], ValueAt(txs, refs[k]), b)][..k + 1] == Ledger(txs, refs[..k + 1])
  {
    LedgerStep(txs, refs, k);
    var d := done[k := Classify(refs[k], ValueAt(txs, refs[k]), b)];
    assert d[..k] == done[..k];
    assert d[..k + 1] == d[..k] + [d[k]];
  }

  /**
   * The body of postInit's inner loop for entry k: add the split's value to
   * the balance, record the balance, and classify the value, negating a
   * negative one in the journal.
   */
  method SettleEntry(txs: seq<Transaction>, ghost refs: seq<Ref>, ghost todo: set<string>, k: nat,
                     done: seq<AccountTransaction>, settled: seq<Transaction>, balance: NumericVar)
    returns (done': seq<AccountTransaction>, settled': seq<Transaction>)
    requires k < |refs| && Visits(txs, refs, todo)
    requires Progress(txs, refs, todo, k, done, settled, balance.Value())
    modifies balance
    ensures Progress(txs, refs, todo, k + 1, done', settled', balance.Value())
  {
    var t, sp := done[k].transaction.value, done[k].split.value;
    SettleStep(txs, settled, todo, refs, k);
    LedgerStep(txs, refs, k);
    // the split's value, not yet negated: each split is visited once
    var v := settled[t].splits[sp].value;
    balance.AddEqual(v);
    var b := balance.Value();
    RecordStep(txs, refs, k, done, b);
    if Sign(v) >= 0 {
      done', settled' := done[k := done[k].(plusValue := v, balance := b)], settled;
    } else {
      var w := Neg(v);
      settled' := settled[t := settled[t].(splits := settled[t].splits[sp := settled[t].splits[sp].(value := w)])];
      done' := done[k := done[k].(minusValue := w, balance := b)];
    }
  }

  /** The splits of the first i transactions and the first j splits of transaction i posted to `account`. */
  function Distributed(txs: seq<Transaction>, i: nat, j: nat, account: string): seq<Ref>
    requires i < |txs| && j <= |txs[i].splits|
  {
    Postings(txs[..i], account) + SplitPostings(txs[i].splits[..j], i, account)
  }

  /** The accounts of orig, each with one blank entry per split of `refsOf` its ID. */
  function WithPending(orig: map<string, Account>, txs: seq<Transaction>, n: nat): (m: map<string, Account>)
    requires n <= |txs|
  {
    map q | q in orig :: orig[q].(entries := Pending(Postings(txs[..n], q)))
  }

  /** The account p with e appended to its entries; m itself when there is no account p. */
  function Append(m: map<string, Account>, p: string, e: AccountTransaction): map<string, Account>
  {
    if p in m then m[p := m[p].(entries := m[p].entries + [e])] else m
  }

  lemma AppendAt(m: map<string, Account>, p: string, e: AccountTransaction, q: string)
    requires q in m
    ensures q in Append(m, p, e)
    ensures Append(m, p, e)[q] == if q == p then m[q].(entries := m[q].entries + [e]) else m[q]
  {
  }

  /** Step 1 of postInit part way through transaction i: j of its splits distributed. */
  function Midway(orig: map<string, Account>, txs: seq<Transaction>, i: nat, j: nat): map<string, Account>
    requires i < |txs| && j <= |txs[i].splits|
  {
    if j == 0 then WithPending(orig, txs, i)
    else Append(Midway(orig, txs, i, j - 1), txs[i].splits[j - 1].account, Blank(Ref(i, j - 1)))
  }

  lemma WithPendingStart(orig: map<string, Account>, txs: seq<Transaction>)
    requires forall q :: q in orig ==> orig[q].entries == []
    ensures orig == WithPending(orig, txs, 0)
  {
    assert txs[..0] == [];
  }

  /** Step 1 neither adds nor removes accounts. */
  lemma {:induction false} MidwayKeys(orig: map<string, Account>, txs: seq<Transaction>, i: nat, j: nat, q: string)
    requires i < |txs| && j <= |txs[i].splits|
    ensures q in Midway(orig, txs, i, j) <==> q in orig
  {
    if j > 0 {
      MidwayKeys(orig, txs, i, j - 1, q);
    }
  }

  /** One split of transaction i: its account, which is there, gains a blank entry. */
  lemma MidwayStep(orig: map<string, Account>, txs: seq<Transaction>, i: nat, j: nat)
    requires i < |txs| && j < |txs[i].splits| && txs[i].splits[j].account in orig
    ensures var m, p := Midway(orig, txs, i, j), txs[i].splits[j].account;
      p in m && Midway(orig, txs, i, j + 1) == m[p := m[p].(entries := m[p].entries + [Blank(Ref(i, j))])]
  {
    MidwayKeys(orig, txs, i, j, txs[i].splits[j].account);
  }

  /** The inner loop of step 1 of postInit: the splits of transaction i, in order. */
  method DistributeSplits(byId: map<string, Account>, txs: seq<Transaction>, i: nat, ghost orig: map<string, Account>)
    returns (m: map<string, Account>)
    requires i < |txs| && forall k :: 0 <= k < |txs[i].splits| ==> txs[i].splits[k].account in orig
    requires byId == Midway(orig, txs, i, 0)
    ensures m == Midway(orig, txs, i, |txs[i].splits|)
  {
    m := byId;
    var j := 0;
    while j < |txs[i].splits|
      invariant 0 <= j <= |txs[i].splits|
      invariant m == Midway(orig, txs, i, j)
    {
      var p := txs[i].splits[j].account;
      MidwayStep(orig, txs, i, j);
      m := m[p := m[p].(entries := m[p].entries + [Blank(Ref(i, j))])];
      j := j + 1;
    }
  }

  /** Part way through transaction i, each account has the blank entries of its postings so far. */
  lemma {:induction false} MidwayAt(orig: map<string, Account>, txs: seq<Transaction>, i: nat, j: nat, q: string)
    requires i < |txs| && j <= |txs[i].splits| && q in orig
    ensures q in Midway(orig, txs, i, j)
    ensures Midway(orig, txs, i, j)[q] == orig[q].(entries := Pending(Distributed(txs, i, j, q)))
  {
    if j == 0 {
      MidwayAtStart(orig, txs, i, q);
    } else {
      var prev, p, e := Midway(orig, txs, i, j - 1), txs[i].splits[j - 1].account, Blank(Ref(i, j - 1));
      assert Midway(orig, txs, i, j) == Append(prev, p, e);
      MidwayAt(orig, txs, i, j - 1, q);
      AppendAt(prev, p, e, q);
      if q == p {
        MidwayStepHere(txs, i, j - 1);
        assert Pending(Distributed(txs, i, j, q)) == prev[q].entries + [e];
      } else {
        MidwayStepElsewhere(txs, i, j - 1, q);
        assert Pending(Distributed(txs, i, j, q)) == prev[q].entries;
      }
    }
  }

  lemma MidwayAtStart(orig: map<string, Account>, txs: seq<Transaction>, i: nat, q: string)
    requires i < |txs| && q in orig
    ensures q in Midway(orig, txs, i, 0)
    ensures Midway(orig, txs, i, 0)[q] == orig[q].(entries := Pending(Distributed(txs, i, 0, q)))
  {
    assert txs[i].splits[..0] == [];
    assert Distributed(txs, i, 0, q) == Postings(txs[..i], q);
  }

  lemma MidwayEnd(orig: map<string, Account>, txs: seq<Transaction>, i: nat)
    requires i < |txs|
    ensures Midway(orig, txs, i, |txs[i].splits|) == WithPending(orig, txs, i + 1)
  {
    var n := |txs[i].splits|;
    forall q ensures q in Midway(orig, txs, i, n) <==> q in WithPending(orig, txs, i + 1) {
      MidwayKeys(orig, txs, i, n, q);
    }
    forall q | q in orig ensures Midway(orig, txs, i, n)[q] == WithPending(orig, txs, i + 1)[q] {
      MidwayAt(orig, txs, i, n, q);
      PostingsAppend(txs, i, q);
      assert txs[i].splits[..n] == txs[i].splits;
    }
  }

  /** The other accounts keep their postings. */
  lemma MidwayStepElsewhere(txs: seq<Transaction>, i: nat, j: nat, q: string)
    requires i < |txs| && j < |txs[i].splits| && q != txs[i].splits[j].account
    ensures Distributed(txs, i, j + 1, q) == Distributed(txs, i, j, q)
  {
    SplitPostingsAppend(txs[i].splits, j, i, q);
  }

  /** The account of split j of transaction i gains Ref(i, j) at the end of its postings. */
  lemma MidwayStepHere(txs: seq<Transaction>, i: nat, j: nat)
    requires i < |txs| && j < |txs[i].splits|
    ensures var p := txs[i].splits[j].account;
      Pending(Distributed(txs, i, j + 1, p)) == Pending(Distributed(txs, i, j, p)) + [Blank(Ref(i, j))]
  {
    var p := txs[i].splits[j].account;
    SplitPostingsAppend(txs[i].splits, j, i, p);
    assert Distributed(txs, i, j + 1, p) == Distributed(txs, i, j, p) + [Ref(i, j)];
    PendingAppend(Distributed(txs, i, j, p), Ref(i, j));
  }

  /** Step 2 of postInit so far: the accounts of `todo` still have blank entries, the others their ledger. */
  predicate Settling(m: map<string, Account>, orig: map<string, Account>, txs: seq<Transaction>, todo: set<string>)
  {
    && m.Keys == orig.Keys
    && forall q :: q in m ==>
      m[q] == orig[q].(entries := if q in todo then Pending(Postings(txs, q)) else Ledger(txs, Postings(txs, q)))
  }

  lemma SettlingStart(m: map<string, Account>, txs: seq<Transaction>)
    requires forall q :: q in m ==> m[q].entries == Pending(Postings(txs, q))
    ensures Settling(m, m, txs, m.Keys)
  {
  }

  lemma SettlingStep(m: map<string, Account>, orig: map<string, Account>, txs: seq<Transaction>, todo: set<string>,
                     q: string, entries: seq<AccountTransaction>)
    requires Settling(m, orig, txs, todo) && q in todo && q in m && entries == Ledger(txs, Postings(txs, q))
    ensures Settling(m[q := m[q].(entries := entries)], orig, txs, todo - {q})
  {
    var next := m[q := m[q].(entries := entries)];
    forall p | p in next
      ensures next[p] == orig[p].(entries := if p in todo - {q} then Pending(Postings(txs, p)) else Ledger(txs, Postings(txs, p)))
    {
      if p == q {
        assert next[p] == m[q].(entries := entries);
      } else {
        assert next[p] == m[p];
      }
    }
  }

  /**
   * Step 3 so far: the accounts of `names` with their children reordered,
   * sorted by name outside `todo` and untouched inside it.
   */
  ghost predicate SortedBut(names: map<string, Account>, m: map<string, Account>, todo: set<string>)
  {
    && (forall q :: q in m <==> q in names)
    && (forall q :: q in names ==>
      && m[q] == names[q].(children := m[q].children)
      && (q in todo ==> m[q].children == names[q].children)
      && (q !in todo ==> multiset(m[q].children) == multiset(names[q].children) && SortedBy(m[q].children, ByAccountName(names))))
  }

  lemma SortedButStep(names: map<string, Account>, m: map<string, Account>, todo: set<string>, q: string, children: seq<string>)
    requires SortedBut(names, m, todo) && q in todo && q in names
    requires multiset(children) == multiset(m[q].children) && SortedBy(children, ByAccountName(names))
    ensures SortedBut(names, m[q := m[q].(children := children)], todo - {q})
  {
  }

  // ---------------------------------------------------------------------
  // What postInit leaves: entries, balances, descriptions
  // ---------------------------------------------------------------------

  /** The k-th entry of a ledger classifies the k-th split, with the balance after it. */
  lemma {:induction false} LedgerAt(txs: seq<Transaction>, refs: seq<Ref>, k: nat)
    requires k < |refs|
    ensures Ledger(txs, refs)[k] == Classify(refs[k], ValueAt(txs, refs[k]), RunningBalance(ValuesAt(txs, refs[..k + 1])))
  {
    var n := |refs| - 1;
    if k == n {
      LedgerLast(txs, refs);
    } else {
      var p := refs[..n];
      assert p[k] == refs[k] && p[..k + 1] == refs[..k + 1];
      LedgerPrefix(txs, refs, k);
      LedgerAt(txs, p, k);
    }
  }

  lemma LedgerLast(txs: seq<Transaction>, refs: seq<Ref>)
    requires |refs| > 0
    ensures var n := |refs| - 1;
      Ledger(txs, refs)[n] == Classify(refs[n], ValueAt(txs, refs[n]), RunningBalance(ValuesAt(txs, refs[..n + 1])))
  {
    assert refs[..|refs|] == refs;
  }

  lemma LedgerPrefix(txs: seq<Transaction>, refs: seq<Ref>, k: nat)
    requires k < |refs| - 1
    ensures Ledger(txs, refs)[k] == Ledger(txs, refs[..|refs| - 1])[k]
  {
  }

  /** The k-th entry refers to the k-th posted split. */
  lemma LedgerRefs(txs: seq<Transaction>, refs: seq<Ref>)
    ensures forall k :: 0 <= k < |refs| ==>
      Ledger(txs, refs)[k].transaction == Some(refs[k].tx) && Ledger(txs, refs)[k].split == Some(refs[k].split)
  {
    forall k | 0 <= k < |refs|
      ensures Ledger(txs, refs)[k].transaction == Some(refs[k].tx) && Ledger(txs, refs)[k].split == Some(refs[k].split)
    {
      LedgerAt(txs, refs, k);
    }
  }

  /** The split values as the parser leaves them: no negative denominator. */
  predicate WellFormedValues(txs: seq<Transaction>)
  {
    forall i, k :: 0 <= i < |txs| && 0 <= k < |txs[i].splits| ==> txs[i].splits[k].value.den >= 0
  }

  /** Values read from such a journal have no negative denominator either. */
  lemma ValuesWellFormed(txs: seq<Transaction>, refs: seq<Ref>)
    requires WellFormedValues(txs)
    ensures forall k :: 0 <= k < |refs| ==> ValuesAt(txs, refs)[k].den >= 0
  {
    forall k | 0 <= k < |refs| ensures ValuesAt(txs, refs)[k].den >= 0 {
      var r := refs[k];
      if ValidRef(txs, r) {
        assert txs[r.tx].splits[r.split].value.den >= 0;
      }
    }
  }

  /** Folding AddEqual over values without a negative denominator keeps den >= 0 and gives their exact sum. */
  lemma {:induction false} RunningBalanceIsSum(vs: seq<Numeric>)
    requires forall k :: 0 <= k < |vs| ==> vs[k].den >= 0
    ensures RunningBalance(vs).den >= 0 && Real(RunningBalance(vs)) == RealSum(vs)
  {
    if |vs| > 0 {
      RunningBalanceIsSum(vs[..|vs| - 1]);
      AddIsSum(RunningBalance(vs[..|vs| - 1]), vs[|vs| - 1]);
    }
  }

  /**
   * An entry splits its value by sign: at most one of plus and minus is
   * non-zero, neither is negative, and plus - minus is the value.
   */
  lemma ClassifyPlusMinus(r: Ref, v: Numeric, b: Numeric)
    ensures var e := Classify(r, v, b);
      && (Zero(e.plusValue) || Zero(e.minusValue))
      && Sign(e.plusValue) >= 0 && Sign(e.minusValue) >= 0
      && Real(e.plusValue) - Real(e.minusValue) == Real(v)
      && e.balance == b
  {
    NegIsOpposite(v);
  }

  /**
   * The balance of the k-th entry postInit records for an account is the
   * exact sum of the values of the account's first k + 1 splits.
   */
  lemma LedgerBalanceIsSum(txs: seq<Transaction>, refs: seq<Ref>, k: nat)
    requires WellFormedValues(txs) && k < |refs|
    ensures Ledger(txs, refs)[k].balance.den >= 0
    ensures Real(Ledger(txs, refs)[k].balance) == RealSum(ValuesAt(txs, refs[..k + 1]))
  {
    LedgerAt(txs, refs, k);
    ValuesWellFormed(txs, refs[..k + 1]);
    RunningBalanceIsSum(ValuesAt(txs, refs[..k + 1]));
  }

  /** Deposits of 100/1 and then -40/1 leave running balances of 100/1 and 60/1. */
  lemma RunningBalanceExample()
    ensures RunningBalance([Numeric(100, 1)]) == Numeric(100, 1)
    ensures RunningBalance([Numeric(100, 1), Numeric(-40, 1)]) == Numeric(60, 1)
  {
    assert [Numeric(100, 1), Numeric(-40, 1)][..1] == [Numeric(100, 1)];
  }

  /** Account.Balance: the balance of the last entry; the account must have one. */
  function Balance(a: Account): Numeric
    requires |a.entries| > 0
  {
    a.entries[|a.entries| - 1].balance
  }

  /** After postInit, Balance is the running balance over all of the account's splits, their exact sum. */
  lemma BalanceIsSum(txs: seq<Transaction>, q: string, a: Account)
    requires WellFormedValues(txs) && a.entries == Ledger(txs, Postings(txs, q)) && |a.entries| > 0
    ensures Balance(a) == RunningBalance(ValuesAt(txs, Postings(txs, q)))
    ensures Balance(a).den >= 0 && Real(Balance(a)) == RealSum(ValuesAt(txs, Postings(txs, q)))
  {
    var refs := Postings(txs, q);
    LedgerAt(txs, refs, |refs| - 1);
    assert refs[..|refs|] == refs;
    ValuesWellFormed(txs, refs);
    RunningBalanceIsSum(ValuesAt(txs, refs));
  }

  /** References an entry holds name a transaction of the journal and a split of it. */
  predicate EntryInJournal(at: AccountTransaction, journal: seq<Transaction>)
  {
    at.transaction.Some? ==>
      at.transaction.value < |journal| && (at.split.Some? ==> at.split.value < |journal[at.transaction.value].splits|)
  }

  /**
   * AccountTransaction.Description: "<nil>" without an entry or a
   * transaction, the split's memo when it is not empty, and the
   * transaction's description otherwise.
   */
  function Description(at: Option<AccountTransaction>, journal: seq<Transaction>): string
    requires at.Some? ==> EntryInJournal(at.value, journal)
  {
    if at.None? || at.value.transaction.None? then "<nil>"
    else
      var t := journal[at.value.transaction.value];
      if at.value.split.Some? && |t.splits[at.value.split.value].memo| > 0 then t.splits[at.value.split.value].memo
      else t.description
  }

  /**
   * An entry naming the split r (as every entry postInit records does, see
   * LedgerAt) is in the settled journal, and its description is the
   * split's memo, or the transaction's description when the memo is empty.
   */
  lemma DescriptionOfEntry(txs: seq<Transaction>, journal: seq<Transaction>, r: Ref, e: AccountTransaction)
    requires SameShape(txs, journal) && SettledBut(txs, journal, {}, [])
    requires ValidRef(txs, r) && e.transaction == Some(r.tx) && e.split == Some(r.split)
    ensures EntryInJournal(e, journal)
    ensures var s := txs[r.tx].splits[r.split];
      Description(Some(e), journal) == if s.memo != "" then s.memo else txs[r.tx].description
  {
    assert journal[r.tx].splits[r.split] == Settled(txs[r.tx].splits[r.split]);
    assert journal[r.tx].description == txs[r.tx].description;
  }

  /** The accounts of a book: the root, if any, and every account by ID. */
  class Accounts {
    var root: Option<string>
    var byId: map<string, Account>

    /** &Accounts{Map: map[string]*Account{}}. */
    constructor ()
      ensures root == None && byId == map[]
    {
      root := None;
      byId := map[];
    }

    /**
     * ByName scans the accounts in map order and returns the ID of the
     * first whose name matches; none when no account has that name. Among
     * several accounts of that name, which one is returned is not fixed.
     */
    method ByName(name: string) returns (id: Option<string>)
      ensures id.Some? ==> id.value in byId && byId[id.value].name == name
      ensures id.None? <==> forall q :: q in byId ==> byId[q].name != name
    {
      var todo := byId.Keys;
      while todo != {}
        invariant todo <= byId.Keys
        invariant forall q :: q in byId && q !in todo ==> byId[q].name != name
        decreases todo
      {
        var q :| q in todo;
        if byId[q].name == name {
          return Some(q);
        }
        todo := todo - {q};
      }
      return None;
    }

    /** postInit: one entry per split of its account, then running balances and plus/minus values. */
    method PostInit(txs: seq<Transaction>) returns (journal: seq<Transaction>)
      requires SplitAccountsIn(txs, byId.Keys)
      requires forall q :: q in byId ==> byId[q].entries == []
      modifies this
      ensures root == old(root) && byId.Keys == old(byId).Keys
      ensures forall q :: q in byId ==> byId[q] == old(byId)[q].(entries := Ledger(txs, Postings(txs, q)))
      ensures |journal| == |txs|
      ensures forall i :: 0 <= i < |txs| ==>
        && journal[i] == txs[i].(splits := journal[i].splits)
        && |journal[i].splits| == |txs[i].splits|
        && forall k :: 0 <= k < |txs[i].splits| ==> journal[i].splits[k] == Settled(txs[i].splits[k])
    {
      Distribute(txs);
      assert txs[..|txs|] == txs;
      journal := Settle(txs);
    }

    /** Step 1 of postInit: append an entry for every split to its account, in journal order. */
    method Distribute(txs: seq<Transaction>)
      requires SplitAccountsIn(txs, byId.Keys)
      requires forall q :: q in byId ==> byId[q].entries == []
      modifies this
      ensures root == old(root) && byId == WithPending(old(byId), txs, |txs|)
    {
      ghost var orig := byId;
      WithPendingStart(orig, txs);
      var i := 0;
      while i < |txs|
        invariant 0 <= i <= |txs| && root == old(root)
        invariant byId == WithPending(orig, txs, i)
      {
        byId := DistributeSplits(byId, txs, i, orig);
        MidwayEnd(orig, txs, i);
        i := i + 1;
      }
    }

    /** Step 2 of postInit: settle the entries of each account, in map order. */
    method Settle(txs: seq<Transaction>) returns (journal: seq<Transaction>)
      requires SplitAccountsIn(txs, byId.Keys)
      requires forall q :: q in byId ==> byId[q].entries == Pending(Postings(txs, q))
      modifies this
      ensures root == old(root) && byId.Keys == old(byId).Keys
      ensures forall q :: q in byId ==> byId[q] == old(byId)[q].(entries := Ledger(txs, Postings(txs, q)))
      ensures SameShape(txs, journal) && SettledBut(txs, journal, {}, [])
    {
      journal := txs;
      var todo := byId.Keys;
      SettlingStart(byId, txs);
      while todo != {}
        invariant todo <= byId.Keys && root == old(root)
        invariant Settling(byId, old(byId), txs, todo)
        invariant SameShape(txs, journal) && SettledBut(txs, journal, todo, [])
        decreases todo
      {
        var q :| q in todo;
        var entries;
        entries, journal := SettleEntries(txs, q, byId[q].entries, journal, todo);
        SettlingStep(byId, old(byId), txs, todo, q, entries);
        byId := byId[q := byId[q].(entries := entries)];
        todo := todo - {q};
      }
    }

    /** Step 1 of newAccountsFromXML: fill the map, one record at a time. */
    method Index(recs: seq<AccountRecord>, types: map<string, AccountType>) returns (err: Option<Error>)
      requires root == None && byId == map[]
      modifies this
      ensures err.None? <==> Indexed(recs, |recs|, types).Success?
      ensures err.None? ==> root == None && byId == Indexed(recs, |recs|, types).value
      ensures err.Some? ==> err.value == Indexed(recs, |recs|, types).error
    {
      var i := 0;
      while i < |recs|
        invariant 0 <= i <= |recs|
        invariant Indexed(recs, i, types) == Success(byId)
        invariant root == None
      {
        var rec := recs[i];
        if rec.id in byId {
          IndexedFailureStays(recs, i + 1, |recs|, types);
          return Some(DuplicateAccountID(rec.id));
        }
        var account := NewAccount(rec, types);
        if account.Failure? {
          IndexedFailureStays(recs, i + 1, |recs|, types);
          return Some(account.error);
        }
        byId := byId[rec.id := account.value];
        i := i + 1;
      }
      return None;
    }

    /** Step 2 of newAccountsFromXML: set the root and the parent/children links, one record at a time. */
    method Link(recs: seq<AccountRecord>) returns (err: Option<Error>)
      requires root == None && forall i :: 0 <= i < |recs| ==> recs[i].id in byId
      modifies this
      ensures err.None? <==> Linked(recs, |recs|, old(byId)).Success?
      ensures err.None? ==> Links(root, byId) == Linked(recs, |recs|, old(byId)).value
      ensures err.Some? ==> err.value == Linked(recs, |recs|, old(byId)).error
    {
      ghost var m := byId;
      var i := 0;
      while i < |recs|
        invariant 0 <= i <= |recs|
        invariant Linked(recs, i, m) == Success(Links(root, byId))
      {
        LinkedStep(recs, i, m);
        err := LinkRecord(recs[i]);
        if err.Some? {
          LinkedFailureStays(recs, i + 1, |recs|, m);
          return;
        }
        i := i + 1;
      }
      return None;
    }

    /** The body of step 2 for one record. */
    method LinkRecord(rec: AccountRecord) returns (err: Option<Error>)
      requires rec.id in byId
      modifies this
      ensures LinkOne(Links(old(root), old(byId)), rec) == if err.None? then Success(Links(root, byId)) else Failure(err.value)
    {
      var account := byId[rec.id];
      if rec.parentId == "" {
        if rec.typeTag != "ROOT" {
          return Some(InvalidRootType(rec.id));
        }
        if root.Some? {
          return Some(MultipleRoots);
        }
        root := Some(rec.id);
      } else {
        if rec.parentId !in byId {
          return Some(ParentNotFound(rec.parentId));
        }
        byId := byId[rec.id := account.(parent := Some(rec.parentId))];
        var parent := byId[rec.parentId];
        byId := byId[rec.parentId := parent.(children := parent.children + [rec.id])];
      }
      return None;
    }

    /** Step 3 of newAccountsFromXML: sort each list of children by name, in map order. */
    method SortChildren()
      modifies this
      ensures ChildrenSorted(Links(old(root), old(byId)), root, byId)
    {
      var names := byId;
      ByAccountNameIsTotalPreorder(names);
      var todo := byId.Keys;
      while todo != {}
        invariant todo <= names.Keys && root == old(root)
        invariant SortedBut(names, byId, todo)
        decreases todo
      {
        var q :| q in todo;
        var account := byId[q];
        var children := InsertionSort(account.children, ByAccountName(names));
        InsertionSortSorted(account.children, ByAccountName(names));
        SortedButStep(names, byId, todo, q, children);
        byId := byId[q := account.(children := children)];
        todo := todo - {q};
      }
    }
  }

  /**
   * newAccountsFromXML: fails with the error of Built, or returns fresh
   * accounts holding what Built links, each list of children sorted by name.
   */
  method NewAccountsFromXML(recs: seq<AccountRecord>) returns (r: Result<Accounts, Error>)
    ensures r.Failure? <==> Built(recs, AccountTypes).Failure?
    ensures r.Failure? ==> r.error == Built(recs, AccountTypes).error
    ensures r.Success? ==> fresh(r.value) && ChildrenSorted(Built(recs, AccountTypes).value, r.value.root, r.value.byId)
  {
    var a := new Accounts();
    var err := a.Index(recs, AccountTypes);
    if err.Some? {
      return Failure(err.value);
    }
    IndexedExact(recs, |recs|, AccountTypes);
    err := a.Link(recs);
    if err.Some? {
      return Failure(err.value);
    }
    a.SortChildren();
    return Success(a);
  }
}
