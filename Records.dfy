/** The transaction record shared by the server routes and the dashboard. */
module Records {

  /** Owner identity, compared as a string (`transaction.user.toString()` against `req.user.id`). */
  type UserId = string

  /** Document identity, assigned by the store when a record is created. */
  type Id = nat

  type Month = m: int | 1 <= m <= 12 witness 1
  type Day = d: int | 1 <= d <= 31 witness 1

  /** A calendar date; the time of day is not part of this model. */
  datatype Date = Date(year: int, month: Month, day: Day)

  /** The short month label of a date, as a month number: the year is dropped, so
      two Januaries of different years get the same label. */
  function MonthOf(d: Date): Month
  {
    d.month
  }

  /** `a` lies strictly before `b` in calendar order. */
  predicate Earlier(a: Date, b: Date)
    ensures a.year < b.year ==> Earlier(a, b)
    ensures Earlier(a, b) ==> a.year <= b.year
  {
    a.year < b.year
    || (a.year == b.year && (a.month < b.month || (a.month == b.month && a.day < b.day)))
  }

  /** Calendar order is a strict total order on dates. */
  lemma EarlierTotal(a: Date, b: Date, c: Date)
    ensures !Earlier(a, a)
    ensures Earlier(a, b) ==> !Earlier(b, a)
    ensures Earlier(a, b) && Earlier(b, c) ==> Earlier(a, c)
    ensures a != b ==> Earlier(a, b) || Earlier(b, a)
    ensures !Earlier(a, b) && !Earlier(b, c) ==> !Earlier(a, c)
  {
  }

  /** A stored transaction. `kind` is the record's `type` field, kept as the string the
      client sent; `amount` is in cents. */
  datatype Transaction = Transaction(
    id: Id,
    owner: UserId,
    kind: string,
    category: string,
    amount: int,
    description: string,
    date: Date)

  /** The dashboard's test `transaction.type === 'income'`; every other type string is an expense. */
  predicate IsIncome(t: Transaction)
  {
    t.kind == "income"
  }
}
