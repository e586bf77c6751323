# gnucash-viewer ledger core in Dafny

This project models the core of gnucash-viewer: the exact-fraction money type, and the pipeline that builds a ledger from the flat records of a GnuCash XML export. It has these parts:

- **NumInt** and **Decimal**: integer helpers. `gcd`, `lcm` and `atoi` of the numeric package are specified from its tests. Decimal covers Go's `strconv.Atoi`, `strconv.FormatInt` and `strings.IndexByte`.
- **Numeric** (`numeric/numeric.go`): the `(num, den)` value. It is never reduced, and `den = 0` means zero. The pure operations are functions. The pointer-receiver methods that overwrite a value in place (`Set`, `NegEqual`, `AddEqual`, `SubEqual`) are methods of class `NumericVar`.
- **GncNumeric** (`model/gnc-numeric.go`) and **GncNumericLegacy** (`model/numeric.go`): two versions of the split-value type. Each is a class whose methods update `num` and `den` in place, with `GCD` and `LCM` as written.
- **AccountTypeTable** (`model/account-types.go`): the constant table of ten account types.
- **Model**: the input records (`xml/xml.go`), the entities, the error kinds, and `Postings`, which lists the splits posted to an account in journal order.
- **Accounts** (`model/accounts.go`): class `Accounts`. Its fields are the root and the map from ID to account. Its methods build the tree in three steps, and also cover `ByName` and `postInit`. Each step is specified by a function over the records, and lemmas state what those functions produce.
- **Transactions** (`model/transactions.go`): the split, transaction and journal builders.
- **Books** (`model/book.go`): `NewBook`.
- **Sorting**: what `sort.Sort` guarantees, namely a permutation ordered by the comparison.

References are keys, not pointers:
- an account is named by its ID;
- a transaction by its index in the sorted journal;
- a split by a `Ref` (transaction index, split index).

Time is an integer number of seconds. `time.Parse` with the fixed layout is a parameter `parse: string -> Option<int>`.

The Go sources do not type-check as one program, so the model reconciles them as follows:
- `Copy` on `numeric.Numeric` is taken to be `Set`.
- A split's value and quantity are parsed by the `FromString` of `model/gnc-numeric.go`, which guarantees `den > 0`. The pair is then carried into a `Numeric`.
- `Account` has both the `AccountTransactionList` filled by `postInit` and the `Transactions` list that `newTransactionsFromXML` appends to.
- `Split` has a `Memo`. No record field fills it, so it is always empty.

Where the code and the design description disagree, the model follows the code:
- The transaction sort is `sort.Sort`, which is not stable. The model promises only a permutation ordered by date posted.
- The numeric package's `FromString` accepts a zero denominator. Only the `GncNumeric` parser refuses one.
- An account list with no parentless record, or with a cycle of parents, is accepted with no root.
- `Equal` treats only a zero receiver as equal to everything. A zero argument gets no such treatment.

## Model

| member | source | states |
|---|---|---|
| NumInt.Gcd | numeric/numint_test.go:5-31 | gcd ignores signs and is 0 only for (0, 0). It is a common divisor of both operands that every common divisor divides. |
| NumInt.Lcm | numeric/numint_test.go:33-59 | lcm is 0 exactly when an operand is 0. Otherwise it is a positive common multiple of both. |
| NumInt.LcmTimesGcd | numeric/numint_test.go:33-59 | lcm(a, b) · gcd(a, b) = abs(a) · abs(b) for all a and b. With gcd fixed by its own contract, this makes lcm the least common multiple. |
| NumInt.LcmTable | numeric/numint_test.go:33-59 | Every row of the lcm test table, including lcm(15, 6) = 30 and lcm(65535, 500) = 6553500, with every sign combination. |
| Decimal.Atoi | model/gnc-numeric.go:52-66 | Signed decimal parsing succeeds exactly on an optional sign followed by one or more digits. The result is the base-10 value of the digits, negated after a '-', so "007" is 7 and "+5" is 5. |
| Decimal.AtoiOfFormatInt | numeric/numeric.go:22-32 | Formatting an integer in base 10 and parsing it gives the integer back. |
| Numeric.New | numeric/numeric.go:34-40 | The denominator becomes abs(den) and the sign moves into the numerator. The number it stands for is unchanged. |
| Numeric.NewOfEqualParts | numeric/numeric_test.go:5-19 | New(j, j) is (abs(j), abs(j)). |
| Numeric.FromString | numeric/numeric.go:42-70 | A bare integer n gives n/1. "n/d", split at the first '/', gives New(n, d), so den >= 0. A zero denominator is accepted. Any part that is not an integer is an error. |
| Numeric.FromStringOfString | numeric/numeric.go:22-70 | String then FromString gives back the same (num, den) whenever den >= 1. |
| Numeric.FromStringOfStringZero | numeric/numeric_test.go:88-118 | A zero-denominator value prints as "0", which reads back as 0/1, an Equal value. |
| Numeric.ZeroIffRealZero | numeric/numeric.go:77-82 | Zero holds exactly when num = 0 or den = 0, which is exactly when the value stands for 0. |
| Numeric.SignIsSignOfReal | numeric/numeric.go:94-112 | When den >= 0, Sign is 1, 0 or -1 exactly as the number is positive, zero or negative. It is 0 whenever den = 0. |
| Numeric.EqualIsZeroOrIdentity | numeric/numeric.go:84-92 | Equal holds exactly when the receiver is zero or the two pairs are identical. |
| Numeric.EqualIsAsymmetricAndUnreduced | numeric/numeric_test.go:40-57 | 0/1 equals 5/1 but not the other way round. 1/1 does not equal 5/5, although both stand for 1. 1/0 equals anything. |
| Numeric.NegIsOpposite | numeric/numeric.go:161-164 | Neg negates the number and keeps the denominator. A zero value stays zero, and the sign flips. |
| Numeric.AddIsSum | numeric/numeric.go:119-139 | Add keeps den >= 0 and gives the exact sum of two values with den >= 0. |
| Numeric.SubIsDifference | numeric/numeric.go:141-158 | Sub, defined as Add of Neg, keeps den >= 0 and gives the exact difference. |
| Numeric.AddIdentity | numeric/numeric.go:122-131 | A zero-denominator operand is the identity of Add on either side. The result is the other operand unchanged. |
| Numeric.AddRescalesToLcm | numeric/numeric.go:132-139 | With positive, different denominators the result is (z.num·(L/z.den) + x.num·(L/x.den)) / L, where L = lcm. |
| Numeric.AddExamples | numeric/numeric_test.go:120-136 | 150/100 + 250/100 = 400/100, 1/2 + 1/3 = 5/6, and 1/2 + 5/10 = 10/10, unreduced. |
| Numeric.NumericVar.Set | numeric/numeric.go:72-75 | The variable holds exactly x afterwards. |
| Numeric.NumericVar.NegEqual | numeric/numeric.go:114-117 | Only the numerator is negated, and the value becomes its opposite. |
| Numeric.NumericVar.AddEqual | numeric/numeric.go:119-139 | The new value is Add(old, x). When both denominators were >= 0, den stays >= 0 and the value grows by x. |
| Numeric.NumericVar.SubEqual | numeric/numeric.go:141-145 | The new value is Add(old, Neg(x)). When both denominators were >= 0, den stays >= 0 and the value shrinks by x. |
| GncNumeric.NewGncNumeric | model/gnc-numeric.go:23-32 | For b != 0 the denominator is abs(b) > 0, and num/den equals a/b. |
| GncNumeric.ZeroAndOne | model/gnc-numeric.go:15-21 | GncNumericZero is 0/100 and GncNumericOne is 100/100. |
| GncNumeric.Abs | model/gnc-numeric.go:142-148 | Returns x or -x and is never negative. |
| GncNumeric.Parse | model/gnc-numeric.go:46-77 | A bare integer gives den 1. For "n/d", d = 0 is a DivisionByZero error, and otherwise the result is NewGncNumeric(n, d). Every success has den > 0. |
| GncNumeric.ParseAgreesWithNumericFromString | model/gnc-numeric.go:46-77 | This parser and the numeric package's FromString agree on every text except one whose denominator is 0. The numeric package accepts that text and this parser refuses it. |
| GncNumeric.Sign | model/gnc-numeric.go:95-110 | It reads the numerator only. When den > 0, which the method's comment assumes, the result is 1, 0 or -1 exactly as num/den is positive, zero or negative. |
| GncNumeric.EqualDenominators | model/gnc-numeric.go:118-140 | With equal denominators, Add and Sub combine the numerators and keep the denominator. |
| GncNumeric.DifferentDenominatorsKeepLeft | model/gnc-numeric.go:124-139 | With different positive denominators, Add and Sub keep n.den and combine with x.num·(n.den / x.den), truncated. |
| GncNumeric.AddIsNotSum | model/gnc-numeric.go:118-128 | As written, 1/2 + 1/3 leaves 1/2. The numeric package gives 5/6, a different number. |
| GncNumeric.GCD | model/gnc-numeric.go:150-158 | As written, GCD(a, b) = abs(a) for every b. |
| GncNumeric.LCM | model/gnc-numeric.go:160-166 | As written, LCM(a, b) = abs(a) for a != 0. |
| GncNumeric.GncNumeric.FromString | model/gnc-numeric.go:46-77 | On success the receiver holds Parse(v). On error it is unchanged and the parse error is returned. |
| GncNumeric.GncNumeric.Neg | model/gnc-numeric.go:112-116 | Negates the numerator in place, keeps den, and returns the receiver. |
| GncNumeric.GncNumeric.Add | model/gnc-numeric.go:118-128 | The receiver becomes Added(old n, x), and the receiver is returned. |
| GncNumeric.GncNumeric.Sub | model/gnc-numeric.go:130-140 | The receiver becomes Subtracted(old n, x), and the receiver is returned. |
| GncNumeric.NewGncNumericFromString | model/gnc-numeric.go:36-44 | Returns a fresh value holding Parse(v), or Parse's error. |
| GncNumeric.HalfPlusThirdStaysHalf | model/gnc-numeric.go:118-128 | Running the methods on 1/2 and 1/3 leaves 1/2 in the receiver. |
| GncNumericLegacy.NewGncNumeric | model/numeric.go:16-19 | Stores (a, b) verbatim, with no sign normalisation and no zero check. |
| GncNumericLegacy.Abs | model/numeric.go:86-92 | Returns x or -x and is never negative. |
| GncNumericLegacy.Parse | model/numeric.go:33-58 | A bare integer gives den 1. "n/d" is stored verbatim. The error is the part that is not an integer. |
| GncNumericLegacy.ParseKeepsZeroAndNegativeDenominators | model/numeric.go:33-58 | "1/0" parses to 1/0 and "1/-2" parses to 1/-2. |
| GncNumericLegacy.AddEqualDenominators | model/numeric.go:74-79 | With equal denominators, Add adds the numerators and keeps den. |
| GncNumericLegacy.AddDifferentDenominatorsKeepsLeft | model/numeric.go:74-84 | With different positive denominators, Add keeps n.den and adds x.num·(n.den / x.den), truncated. So 1/2 + 1/3 leaves 1/2. |
| GncNumericLegacy.GCD | model/numeric.go:94-102 | As written, GCD(a, b) = abs(a). |
| GncNumericLegacy.LCM | model/numeric.go:104-110 | As written, LCM(a, b) = abs(a) for a != 0. |
| GncNumericLegacy.GncNumeric.FromString | model/numeric.go:33-58 | On success the receiver holds Parse(v). On error it is unchanged. |
| GncNumericLegacy.GncNumeric.Add | model/numeric.go:74-84 | The receiver becomes Added(old n, x). |
| GncNumericLegacy.NewGncNumericFromString | model/numeric.go:23-31 | Returns a fresh value holding Parse(v), or Parse's error. |
| AccountTypeTable.TenTags | model/account-types.go:13-65 | The table's keys are exactly the ten tags. |
| AccountTypeTable.TableShape | model/account-types.go:13-65 | root holds only for ROOT, and ROOT alone has empty labels. invertValues holds exactly for LIABILITY, INCOME and EQUITY. Those types have swapped labels: Decrease/Increase, and Charge/Income for INCOME. |
| Model.PostingsExact | model/accounts.go:161-170 | Postings lists each split posted to the account exactly once, in transaction order and then split order. |
| Model.StringLessTrichotomy | model/accounts.go:121 | The byte-wise order of names is total and asymmetric. |
| Sorting.InsertionSortSorted | model/accounts.go:108-111 | The stand-in for sort.Sort returns a permutation of its input, ordered by any total preorder. |
| Accounts.NewAccount | model/accounts.go:40-57 | An unknown type tag is an UnknownAccountType error. Otherwise the account has the record's ID, name, description and currency, the table's type, no parent, and empty children, entry and transaction lists. |
| Accounts.IndexedExact | model/accounts.go:63-79 | Step 1 succeeds exactly when the IDs are distinct and every tag is known. The map then holds newAccountFromXML of each record, under its ID. |
| Accounts.IndexedFirstError | model/accounts.go:63-79 | A failure is the error of the first refused record. For one record, a repeated ID is reported before an unknown tag. |
| Accounts.LinkedExact | model/accounts.go:81-106 | Step 2 succeeds exactly under three conditions: parentless records are of type ROOT, there is at most one of them, and every ParentID is known. The root is that record, or none. |
| Accounts.LinkedFirstError | model/accounts.go:81-106 | A failure is the error of the first refused record. |
| Accounts.BuiltExact | model/accounts.go:59-106 | When steps 1 and 2 succeed, there is one account per record. Each has its record's fields, the parent the record names, and as children the records naming it, in record order. |
| Accounts.ByAccountNameIsTotalPreorder | model/accounts.go:116-121 | byAccountName orders every pair and is transitive, as sort.Sort requires. |
| Accounts.NewAccountsFromXML | model/accounts.go:59-114 | Fails exactly with Built's error. Otherwise it returns fresh accounts holding Built's links, with every list of children a permutation sorted by name. |
| Accounts.Accounts.Index | model/accounts.go:63-79 | The loop leaves exactly Indexed's map, or returns its error. |
| Accounts.Accounts.Link | model/accounts.go:81-106 | The loop leaves exactly Linked's root and links, or returns its error. |
| Accounts.Accounts.LinkRecord | model/accounts.go:82-105 | One record of step 2: a root check, or a parent lookup that sets Parent and appends to the parent's Children once. |
| Accounts.Accounts.SortChildren | model/accounts.go:108-111 | Every list of children becomes a permutation of itself ordered by name. Nothing else changes. |
| Accounts.Accounts.ByName | model/accounts.go:146-154 | Returns some account with the given name, or none exactly when no account has it. |
| Accounts.Accounts.PostInit | model/accounts.go:161-188 | Each account gets Ledger(its postings), and nothing else changes. Every split in the journal is settled: a negative value is negated. |
| Accounts.Accounts.Distribute | model/accounts.go:162-170 | Each account gets one blank entry per split posted to it, in journal order. |
| Accounts.Accounts.Settle | model/accounts.go:171-187 | Every account's blank entries become its ledger, whatever the map order. |
| Accounts.SettleEntries | model/accounts.go:172-187 | One account's pass: the entries become Ledger(its postings), and its splits are settled. |
| Accounts.LedgerAt | model/accounts.go:171-187 | The k-th entry classifies the k-th split's value, and its balance is the AddEqual fold of the first k + 1 values, from Numeric{}. |
| Accounts.ClassifyPlusMinus | model/accounts.go:176-185 | At most one of plus and minus is non-zero, and neither is negative. plus − minus is the value. |
| Accounts.RunningBalanceIsSum | model/accounts.go:172-179 | Folding AddEqual over values with den >= 0 keeps den >= 0 and gives their exact sum. |
| Accounts.RunningBalanceExample | model/accounts.go:172-179 | Values 100/1 then -40/1 give running balances 100/1 and 60/1. |
| Accounts.LedgerBalanceIsSum | model/accounts.go:171-187 | Every entry's balance is the exact sum of the account's split values up to that entry. |
| Accounts.BalanceIsSum | model/accounts.go:156-159 | After postInit, Balance is the last running balance, which is the exact sum of all the account's split values. |
| Accounts.DescriptionOfEntry | model/accounts.go:190-199 | An entry's description is the split memo when it is non-empty, and the transaction description otherwise. |
| Transactions.EmptyDates | model/transactions.go:35-40 | An empty nullable date is the zero time. An empty non-nullable date is an error. A non-empty date is parsed the same way either way. |
| Transactions.SplitOf | model/transactions.go:46-79 | Succeeds exactly when the reconcile date, value and quantity parse and the account is known. The result keeps the record's fields. Its reconcile date is the parsed date, and its value and quantity are the fractions the GncNumeric parser reads from the text, with positive denominators. An error names Split and the split's ID. |
| Transactions.SplitFirstFailure | model/transactions.go:46-66 | The reported field is the first of ReconcileDate, Value, Quantity and AccountID that fails. |
| Transactions.TransactionExact | model/transactions.go:81-113 | A transaction is built exactly when both dates parse and every split is accepted. Its splits then name known accounts and have positive denominators. |
| Transactions.TransactionOf | model/transactions.go:81-113 | The result keeps the record's fields, and its splits are SplitOf of each split record, in order. |
| Transactions.CollectExact | model/transactions.go:118-126 | The builder loop succeeds exactly when every record is accepted. It then holds one result per record, in order. |
| Transactions.CollectFirstError | model/transactions.go:118-126 | A failure is the error of the first refused record. |
| Transactions.LedgerChronological | model/accounts.go:161-170 | In a journal sorted by date posted, the entries postInit gives an account name transactions in journal order, so they are non-decreasing by date posted. |
| Transactions.AccountTransactionsChronological | model/transactions.go:131-139 | In a journal sorted by date posted, an account's list holds transaction t once per split of t posted to it. The list is non-decreasing by date posted. |
| Transactions.NewSplitFromXML | model/transactions.go:46-79 | Returns exactly SplitOf of the record. |
| Transactions.NewTransactionFromXML | model/transactions.go:81-113 | Returns exactly TransactionOf of the record. |
| Transactions.NewSplitsFromXML | model/transactions.go:92-100 | The loop over the split records returns Collect of SplitOf over them: every split in order, or the error of the first refused record. |
| Transactions.BuildTransactions | model/transactions.go:118-126 | Returns exactly Collect over the records. |
| Transactions.NewTransactionsFromXML | model/transactions.go:115-142 | Fails exactly with the first error, and then leaves the accounts untouched. Otherwise it returns a permutation of the built transactions, sorted by date posted, and each account has its transactions appended. |
| Transactions.AttachTransactions | model/transactions.go:131-139 | Each account's list grows by the index of every transaction with a split posted to it, once per split, in journal order. |
| Books.NewBook | model/book.go:16-45 | No input, no book or several books are errors. Otherwise an accounts error is returned before transactions are built, and then a transactions error. On success the book holds the sorted journal and the built accounts, which have no entries because postInit is not called. |

## Left out

- Reading the file, gzip and XML decoding (`xml/xml.go`), and everything in `main.go` (flags, timing, printing, report formatting): these are I/O and presentation. Only the record structs of `xml/xml.go` are kept, as datatypes.
- `PrintTree` and `auxPrintTree`: console output.
- `Numeric.Float64` and `GncNumeric.String` in both variants: floating point, used for display only.
- `UnmarshalXML`: an XML decoder callback.
- `time.Parse`: a parameter from text to an optional integer timestamp. The zero time is `time.Time{}` in Unix seconds.
- Error wording: errors are a datatype of kinds carrying the object, field, ID or offending text.
- Integer width: all integers are unbounded, so the overflow of `numint` and `int` in sums, products and `lcm` is not modelled. The 64-bit range check of `strconv.Atoi` is not modelled either.
- The `numint.go` file, which holds `gcd`, `lcm` and `atoi`, is not part of this model. They are specified from the package's tests. `atoi` is taken to have the syntax of `strconv.Atoi`.
- Map iteration order: `ByName`, `SortChildren` and `Settle` visit the accounts in an unspecified order. Their contracts hold for every order.
- `sort.Sort`: insertion sort stands in for the library algorithm. The builders promise only an ordered permutation, because the library sort is not stable.
- Pointer identity: accounts, transactions and splits are referred to by key, not by shared pointer. When `postInit` negates a split's value through its pointer, the model reflects this by returning the updated journal.
- GncNumeric.NewGncNumeric: requires b != 0. The source panics when b = 0.
- GncNumeric.LCM: requires a != 0. The source divides by zero when a = 0.
- GncNumericLegacy.LCM: requires a != 0. The source divides by zero when a = 0.
- GncNumeric.GncNumeric.Add: requires equal denominators or two non-zero ones. The source divides by zero otherwise.
- GncNumeric.GncNumeric.Sub: requires equal denominators or two non-zero ones. The source divides by zero otherwise.
- GncNumericLegacy.GncNumeric.Add: requires equal denominators or two non-zero ones. The source divides by zero otherwise.
- Accounts.Accounts.PostInit: requires empty entry lists, which is the state the builders leave. It also requires every split to name an account in the map, which the transaction builder guarantees; the source would dereference a nil account otherwise.
- Accounts.Balance: requires a non-empty entry list. The source indexes out of range on an empty one.

## Findings

| source | as written | input that shows it | evidently intended | confidence | as-written member | corrected member |
|---|---|---|---|---|---|---|
| model/gnc-numeric.go:151-166 | `b = Abs(a)` overwrites the second operand, so GCD(a, b) = abs(a) and LCM(a, b) = abs(a). Add and Sub with different denominators keep n.den and truncate x's share. | 1/2 + 1/3 leaves 1/2 | lcm of the two denominators, so 1/2 + 1/3 = 5/6 | not executed | GncNumeric.AddIsNotSum | Numeric.AddIsSum |
| model/numeric.go:95-110 | The same `b = Abs(a)` line, so Add with different denominators keeps n.den and truncates x's share. | 1/2 + 1/3 leaves 1/2 | lcm of the two denominators, so 1/2 + 1/3 = 5/6 | not executed | GncNumericLegacy.AddDifferentDenominatorsKeepsLeft | Numeric.AddIsSum |
