# FinanceTracker core in Dafny

FinanceTracker is a personal income and expense tracker. The server keeps each user's
transactions and answers four authenticated routes under `/api/transactions`: list, create,
update and delete. The dashboard fetches the caller's list once and reduces it three times:
into a summary (total income, total expenses, balance), into a monthly series (one point per
short month label with its income and expense sums), and into a category breakdown (one
slice per category label with the sum of its amounts).

The model has five modules:

- `Records` holds the transaction record and its calendar date.
- `Sequences` holds first-occurrence deduplication. This is the key order a JavaScript object
  keeps for the string keys it is given, as long as no key is an integer-like string or the name
  of a property every object inherits (see "Left out").
- `Aggregation` defines what each dashboard reduction computes, as functions of the list, and
  proves their properties.
- `Dashboard` has the three reductions as loops with invariants. Each accumulator object is a
  sequence of its keys in insertion order plus a map from key to value. Each method is proved
  equal to its function in `Aggregation`.
- `TransactionRoutes` models the collection as a class `TransactionStore`. Its field
  `docs: map<Id, Transaction>` maps document ids to records, and its field `nextId` stands for
  the id generator. It has one method per route. Each method returns the status code and the
  JSON payload, and states the whole new state of the store.

Modelling choices:

- Amounts are integers (cents).
- The `type` field is kept as the string the client sent.
- A month label is the month number of the date. The year is dropped, as the three-letter
  label drops it.

Two behaviours of the code are modelled as written, although the client form would not
produce such input:

- The form offers only the types `expense` and `income`
  (client/src/components/TransactionForm.jsx:72-73). The dashboard tests for exactly
  `income` (client/src/components/Dashboard.jsx:41,59) and counts every other type string as
  an expense. POST checks only that the type is non-empty (server/routes/transactions.js:20),
  and PUT checks nothing.
- The form's amount field has a minimum of 0 (client/src/components/TransactionForm.jsx:101).
  Neither the dashboard nor the routes (server/routes/transactions.js:22, 51-66) rejects a
  negative amount, so amounts are arbitrary integers here. PUT validates no field at all, so it
  can also store empty strings.

## Model

| member | source | states |
|---|---|---|
| Dashboard.CalculateSummary | client/src/components/Dashboard.jsx:39-51 | total income is the sum of the records typed exactly `income`; total expenses is the sum of all the others; balance is their difference; an empty list gives three zeros |
| Aggregation.SumSplitsByType | client/src/components/Dashboard.jsx:40-47 | every record lands on exactly one side: the two totals add up to the sum of all amounts |
| Aggregation.TotalsPermutationInvariant | client/src/components/Dashboard.jsx:39-51 | the totals depend only on the multiset of records, not on their order |
| Aggregation.SumPermutation | client/src/components/Dashboard.jsx:40-47 | a sum of amounts is the same for any reordering of the records |
| Aggregation.ZeroAmountTotals | client/src/components/Dashboard.jsx:41-45 | a record of amount 0 changes neither total |
| Dashboard.GetMonthlyData | client/src/components/Dashboard.jsx:53-68 | the loop over the records, which creates an entry with zero sums on a label's first sight and credits the type's side, returns exactly the monthly series |
| Dashboard.MonthlyStep | client/src/components/Dashboard.jsx:55-63 | one reduction step keeps the accumulator invariant: labels distinct and in first-seen order, and each entry equal to the sums of its records so far |
| Aggregation.MonthEntrySnoc | client/src/components/Dashboard.jsx:59-63 | one more record adds its amount to the income side of its month when the type is exactly `income`, otherwise to the expense side |
| Aggregation.MonthEntryOther | client/src/components/Dashboard.jsx:55-63 | a record does not change the entry of any other month |
| Aggregation.MonthlySeriesKeys | client/src/components/Dashboard.jsx:53-68 | the series has one entry per distinct month label: no label twice, every record's label present, and nothing else; they come in the order of each label's first occurrence in the list |
| Aggregation.ZeroAmountMonthly | client/src/components/Dashboard.jsx:56-58 | a record of amount 0 adds a zero entry at the end if its label is new and otherwise changes nothing |
| Aggregation.MonthlyConservation | client/src/components/Dashboard.jsx:53-68 | the income and expense sums over all entries together equal the sum of all amounts |
| Aggregation.MonthlyColumnsMatchTotals | client/src/components/Dashboard.jsx:39-68 | the monthly income sums add up to the summary's total income, and the expense sums to its total expenses |
| Aggregation.TypeOfGroup | client/src/components/Dashboard.jsx:55-63 | splitting a month's records by type gives the same records as taking that month's share of each type |
| Dashboard.GetCategoryData | client/src/components/Dashboard.jsx:70-80 | the loop, whose falsy test resets an absent key or a zero total before adding, returns exactly the category breakdown |
| Dashboard.CategoryStep | client/src/components/Dashboard.jsx:72-75 | one step keeps the accumulator invariant; resetting a zero total keeps the key and its place |
| Aggregation.CategoryValueSnoc | client/src/components/Dashboard.jsx:75 | one more record adds its amount to its own category only, whatever its type |
| Aggregation.CategoryBreakdownKeys | client/src/components/Dashboard.jsx:70-80 | one slice per distinct category, none twice, every record's category present and nothing else, in first-occurrence order |
| Aggregation.ZeroAmountCategory | client/src/components/Dashboard.jsx:72-75 | a record of amount 0 adds a zero slice at the end if its category is new and otherwise changes nothing |
| Aggregation.CategoryConservation | client/src/components/Dashboard.jsx:70-80 | the slice values add up to the sum of all amounts, income and expense alike |
| Aggregation.Conservation | client/src/components/Dashboard.jsx:39-80 | the category breakdown, the monthly series and the two summary totals account for the same grand total |
| Aggregation.KeyOrderSnoc | client/src/components/Dashboard.jsx:56-57 | a new key is appended to the object's key order on first sight; a key already present keeps its place |
| Aggregation.InGroupAbsent | client/src/components/Dashboard.jsx:56 | a label no record carries has no records, so a fresh entry starts from zero |
| Aggregation.Credit | client/src/components/Dashboard.jsx:59-63 | crediting a record keeps the entry's label and adds exactly the record's amount across its two sides |
| Sequences.Distinct | client/src/components/Dashboard.jsx:67 | the keys of an object built by assignment: each value once, the same values as the input |
| Sequences.DistinctFirstOccurrenceOrder | client/src/components/Dashboard.jsx:79 | the distinct keys are ordered by their first occurrence in the input |
| Sequences.DistinctSnoc | client/src/components/Dashboard.jsx:72-73 | assigning a key already present leaves the key order unchanged; a new key goes to the end |
| Aggregation.SameMonthOneEntry | client/src/components/Dashboard.jsx:55-58 | two records with the same month share one entry of the monthly series, whatever their years and days |
| Aggregation.IncomesMultiset | client/src/components/Dashboard.jsx:41-45 | a record is counted as income exactly when its type is the string `income`; every other record, whatever its type string (the empty one included), is counted as an expense, each as often as it occurs |
| Records.Earlier | server/routes/transactions.js:9 | the date order the listing sorts by: year first, so a date in an earlier year always comes before |
| Records.EarlierTotal | server/routes/transactions.js:9 | that order is a strict total order: irreflexive, asymmetric, transitive, and any two different dates compare; not-earlier is transitive too |
| TransactionRoutes.NewestFirstAdjacent | server/routes/transactions.js:9 | sorted by date descending holds exactly when no record is dated before the next one |
| TransactionRoutes.ValidationErrors | server/routes/transactions.js:19-29 | the checks fail exactly for the absent or empty fields, each failed check appears once, in declaration order, and the list is empty exactly when all four fields are present |
| TransactionRoutes.MessagesOfMissingFields | server/routes/transactions.js:20-28 | the 400 body carries a check's message exactly when that check's field is absent or empty |
| TransactionRoutes.RequiredMessagesDistinct | server/routes/transactions.js:20-23 | the four messages are pairwise different, so each names one field |
| TransactionRoutes.NewRecord | server/routes/transactions.js:31-40 | the created record is owned by the caller, takes the type, category, amount and description from the body, and gets the default date |
| TransactionRoutes.NewRecordIgnoresBodyDate | server/routes/transactions.js:31-40 | a date in the body has no effect on the created record |
| TransactionRoutes.Patched | server/routes/transactions.js:62-66 | the update sets the four sent fields, keeps unsent ones, and leaves id, owner and date alone |
| TransactionRoutes.InsertByDate | server/routes/transactions.js:9 | inserting into the listing adds exactly the new record to the multiset of records |
| TransactionRoutes.InsertByDateSorted | server/routes/transactions.js:9 | inserting keeps the listing sorted by date descending |
| TransactionRoutes.InsertByDateNoDuplicates | server/routes/transactions.js:9 | inserting a new record keeps every record in the listing once |
| TransactionRoutes.InsertByDateMembers | server/routes/transactions.js:9 | the listing after an insertion holds the old records and the new one, and nothing else |
| TransactionRoutes.TransactionStore.Get | server/routes/transactions.js:7-15 | status 200 and a list holding exactly the caller's records, each once, newest first; the store is not changed |
| TransactionRoutes.TransactionStore.Post | server/routes/transactions.js:17-48 | a body with an empty field gets 400 with the failed checks' messages in declaration order and the store is unchanged; otherwise exactly one record is added under a fresh id and returned with 200; no other user's records change |
| TransactionRoutes.TransactionStore.Put | server/routes/transactions.js:50-73 | unknown id gives 404, then a record of another user gives 401, both with the store unchanged; otherwise only that record changes, to the patched record, which is returned; no other user's records change |
| TransactionRoutes.TransactionStore.Delete | server/routes/transactions.js:75-91 | unknown id gives 404, then another user's record gives 401, both with the store unchanged; otherwise exactly that id is removed and 200 with "Transaction removed" returned |
| TransactionRoutes.TransactionStore.constructor | server/routes/transactions.js:5 | a new collection is empty and satisfies the store invariant |

## Left out

- React state, effects, loading and error rendering, and the charts. The reductions receive
  the fetched list as a parameter.
- Floating-point amounts: amounts are integers, so rounding in sums is not modelled.
- Locale-dependent month labels and time zones. `MonthOf` maps a date to its month number,
  and the time of day is not part of a date.
- JavaScript's key order for integer-like keys. An object lists keys such as `"2"` before
  other keys, so a category named by digits would move ahead. The model keeps plain
  insertion order for every key.
- `Dashboard.GetCategoryData`: category names are assumed not to be names of properties every
  object inherits (`constructor`, `toString`, `__proto__`, and the like). For such a name
  `acc[category]` already holds the inherited value. For `constructor` the test at
  client/src/components/Dashboard.jsx:72 sees a truthy function, and line 75 concatenates it
  with the amount into a string. For `__proto__` the assignment does not create a key, so the
  slice is missing. The model sums such categories like any other, so for them
  `Aggregation.CategoryConservation` describes the model and not the page.
- The authentication middleware loaded at server/routes/transactions.js:4 is not part of this
  model. The caller's id is a parameter, on the assumption that the middleware sets
  `req.user.id` before a route runs and that a rejected request never reaches a route.
- The schema module loaded at server/routes/transactions.js:5 is not part of this model, so
  nothing it may add is modelled: a restriction on the type or the amount, default values, or
  how ids are made. The default date of a new record is a parameter, and new ids come from a
  counter (`nextId`). If the schema rejects a value, saving fails with 500, which the model
  does not capture.
- Every 500 path: database errors, thrown exceptions, malformed ids and failed casts of a
  non-numeric amount.
- `TransactionRoutes.ValidationErrors`: the model checks the four fields of the body only.
  express-validator's `check()` at server/routes/transactions.js:20-23 also looks up these
  names in the query string, the headers and the cookies, and every instance found must pass.
  So a request such as `POST /api/transactions?description=` with a complete body is answered
  400 by the server and 200 by the model. An express-validator error also carries the field
  name, the value and the location. The model keeps only which check failed, and the 400 body
  holds the message of each failed check.
- `TransactionRoutes.TransactionStore.Put` and `TransactionRoutes.TransactionStore.Delete`:
  the model assumes Mongoose 6 or 7. There, fields not sent to PUT keep their stored value,
  because `undefined` is stripped from `$set`, and `findByIdAndRemove` at
  server/routes/transactions.js:85 exists. Older versions may set unsent fields differently.
  Mongoose 8 no longer has `findByIdAndRemove`, so an owner's DELETE would answer 500 and
  remove nothing.
- `TransactionRoutes.TransactionStore.Get`: records with equal dates appear in an unspecified
  order, as in the database sort; the contract does not fix it.
- Concurrency between two requests. That includes the gap between the ownership read and the
  write in PUT and DELETE.
- The form component, the API client, the navigation bar and the server setup, as they are
  outside the core.
