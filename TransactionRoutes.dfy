/** The four authenticated routes under `/api/transactions`, over a document store that
    maps each document id to its record. The caller's identity is the one the auth
    middleware attached to the request, passed in as `caller`. */
module TransactionRoutes {
  import opened Records
  import opened Sequences

  datatype Option<T> = None | Some(value: T)

  const OK := 200
  const BAD_REQUEST := 400
  const UNAUTHORIZED := 401
  const NOT_FOUND := 404

  /** The JSON body of a response. */
  datatype Payload =
    | Records(records: seq<Transaction>)
    | Record(record: Transaction)
    | Errors(messages: seq<string>)
    | Message(msg: string)

  datatype Response = Response(status: int, payload: Payload)

  /** A POST body. A field that is absent or the empty string is `""`; an absent or empty
      `amount` is `None`. `date` is whatever the client sent, if anything. */
  datatype NewBody = NewBody(
    kind: string,
    category: string,
    amount: Option<int>,
    description: string,
    date: Option<Date>)

  /** A PUT body: a field the client did not send is `None`. */
  datatype Patch = Patch(
    kind: Option<string>,
    category: Option<string>,
    amount: Option<int>,
    description: Option<string>)

  // ---------------------------------------------------------------------------
  // Validation of a new record

  /** All four required fields of a POST body are present and non-empty. */
  predicate Complete(b: NewBody)
  {
    b.kind != "" && b.category != "" && b.amount.Some? && b.description != ""
  }

  /** The four checks of a POST body, in the order they are declared. */
  datatype Field = Type | Category | Amount | Description

  /** The message each check reports when it fails. */
  function RequiredMessage(f: Field): string
  {
    match f
    case Type => "Type is required"
    case Category => "Category is required"
    case Amount => "Amount is required"
    case Description => "Description is required"
  }

  /** Each message names one check: a 400 body tells which fields were missing. */
  lemma RequiredMessagesDistinct(f: Field, g: Field)
    ensures RequiredMessage(f) == RequiredMessage(g) <==> f == g
  {
    if f != g {
      assert RequiredMessage(f)[0] != RequiredMessage(g)[0];
    }
  }

  /** The messages of the failed checks `errs`, in the same order. */
  function ErrorMessages(errs: seq<Field>): seq<string>
  {
    seq(|errs|, i requires 0 <= i < |errs| => RequiredMessage(errs[i]))
  }

  /** The field of `b` that check `f` tests is absent or empty. */
  predicate Missing(b: NewBody, f: Field)
  {
    match f
    case Type => b.kind == ""
    case Category => b.category == ""
    case Amount => b.amount.None?
    case Description => b.description == ""
  }

  /** The failed checks, in declaration order. */
  function ValidationErrors(b: NewBody): (errs: seq<Field>)
    ensures errs == [] <==> Complete(b)
    ensures forall f :: f in errs <==> Missing(b, f)
    ensures forall i, j :: 0 <= i < j < |errs| ==> Rank(errs[i]) < Rank(errs[j])
    ensures NoDuplicates(errs)
  {
    (if b.kind == "" then [Type] else [])
    + (if b.category == "" then [Category] else [])
    + (if b.amount.None? then [Amount] else [])
    + (if b.description == "" then [Description] else [])
  }

  /** The 400 body carries a check's message exactly when that check's field is missing. */
  lemma MessagesOfMissingFields(b: NewBody, f: Field)
    ensures RequiredMessage(f) in ErrorMessages(ValidationErrors(b)) <==> Missing(b, f)
  {
    var errs := ValidationErrors(b);
    if RequiredMessage(f) in ErrorMessages(errs) {
      var i :| 0 <= i < |errs| && ErrorMessages(errs)[i] == RequiredMessage(f);
      RequiredMessagesDistinct(errs[i], f);
      assert errs[i] in errs;
    }
    if Missing(b, f) {
      var i :| 0 <= i < |errs| && errs[i] == f;
      assert ErrorMessages(errs)[i] == RequiredMessage(f);
    }
  }

  /** The position of a check in the declared list. */
  function Rank(f: Field): nat
  {
    match f
    case Type => 0
    case Category => 1
    case Amount => 2
    case Description => 3
  }

  /** The record a valid POST body creates: the caller owns it, the four fields come from
      the body and the date is the store's default, whatever date the body carried. */
  function NewRecord(id: Id, caller: UserId, b: NewBody, today: Date): (t: Transaction)
    requires Complete(b)
    ensures t.id == id && t.owner == caller && t.date == today
    ensures t.kind == b.kind && t.category == b.category && t.description == b.description
    ensures Some(t.amount) == b.amount
  {
    Transaction(id, caller, b.kind, b.category, b.amount.value, b.description, today)
  }

  /** The date a client sends with a new record is never stored. */
  lemma NewRecordIgnoresBodyDate(id: Id, caller: UserId, b: NewBody, today: Date, sent: Option<Date>)
    requires Complete(b)
    ensures NewRecord(id, caller, b.(date := sent), today) == NewRecord(id, caller, b, today)
  {
  }

  /** A record after `$set` of the sent fields: fields not sent keep their stored value,
      and the id, owner and date are never touched. */
  function Patched(t: Transaction, p: Patch): (r: Transaction)
    ensures r.id == t.id && r.owner == t.owner && r.date == t.date
    ensures r.kind == (if p.kind.Some? then p.kind.value else t.kind)
    ensures r.category == (if p.category.Some? then p.category.value else t.category)
    ensures r.amount == (if p.amount.Some? then p.amount.value else t.amount)
    ensures r.description == (if p.description.Some? then p.description.value else t.description)
  {
    t.(kind := if p.kind.Some? then p.kind.value else t.kind,
       category := if p.category.Some? then p.category.value else t.category,
       amount := if p.amount.Some? then p.amount.value else t.amount,
       description := if p.description.Some? then p.description.value else t.description)
  }

  // ---------------------------------------------------------------------------
  // Ordering of a listing

  /** No record is dated strictly before a record that follows it. */
  predicate NewestFirst(s: seq<Transaction>)
  {
    forall i, j :: 0 <= i < j < |s| ==> !Earlier(s[i].date, s[j].date)
  }

  /** Checking neighbours is enough: a list whose every record is not dated before the
      next one is newest-first throughout. */
  lemma {:induction false} NewestFirstAdjacent(s: seq<Transaction>)
    ensures NewestFirst(s) <==> forall i :: 0 <= i < |s| - 1 ==> !Earlier(s[i].date, s[i + 1].date)
  {
    if |s| > 1 && forall i :: 0 <= i < |s| - 1 ==> !Earlier(s[i].date, s[i + 1].date) {
      NewestFirstAdjacent(s[1..]);
      assert NewestFirst(s[1..]) by {
        forall i | 0 <= i < |s[1..]| - 1 ensures !Earlier(s[1..][i].date, s[1..][i + 1].date) {
          assert s[1..][i] == s[i + 1] && s[1..][i + 1] == s[i + 2];
        }
      }
      forall j | 1 <= j < |s| ensures !Earlier(s[0].date, s[j].date) {
        if j > 1 {
          assert s[1..][0] == s[1] && s[1..][j - 1] == s[j];
          EarlierTotal(s[0].date, s[1].date, s[j].date);
        }
      }
      forall i, j | 0 <= i < j < |s| ensures !Earlier(s[i].date, s[j].date) {
        if i > 0 {
          assert s[1..][i - 1] == s[i] && s[1..][j - 1] == s[j];
        }
      }
    }
  }

  /** `t` placed in a newest-first list before the first record dated strictly after it. */
  function InsertByDate(s: seq<Transaction>, t: Transaction): (r: seq<Transaction>)
    ensures multiset(r) == multiset(s) + multiset{t}
  {
    if s == [] then [t]
    else if !Earlier(t.date, s[0].date) then [t] + s
    else
      assert s == [s[0]] + s[1..];
      [s[0]] + InsertByDate(s[1..], t)
  }

  /** Inserting keeps a newest-first list newest-first. */
  lemma {:induction false} InsertByDateSorted(s: seq<Transaction>, t: Transaction)
    requires NewestFirst(s)
    ensures NewestFirst(InsertByDate(s, t))
  {
    if s == [] {
    } else if !Earlier(t.date, s[0].date) {
      forall j | 0 <= j < |s| ensures !Earlier(t.date, s[j].date) {
        EarlierTotal(t.date, s[0].date, s[j].date);
      }
    } else {
      var rest := InsertByDate(s[1..], t);
      InsertByDateSorted(s[1..], t);
      forall j | 0 <= j < |rest| ensures !Earlier(s[0].date, rest[j].date) {
        assert rest[j] in multiset(s[1..]) + multiset{t};
        if rest[j] != t {
          var k :| 0 <= k < |s[1..]| && s[1..][k] == rest[j];
          assert s[k + 1] == rest[j];
        } else {
          EarlierTotal(t.date, s[0].date, s[0].date);
        }
      }
    }
  }

  /** The inserted list holds the old records and the new one, and nothing else. */
  lemma InsertByDateMembers(s: seq<Transaction>, t: Transaction)
    ensures forall x :: x in InsertByDate(s, t) <==> x in s || x == t
  {
    var r := InsertByDate(s, t);
    forall x ensures x in r <==> x in s || x == t {
      assert x in r <==> x in multiset(r);
      assert x in s <==> x in multiset(s);
    }
  }

  /** A list with each record once keeps that property when a new record is inserted. */
  lemma {:induction false} InsertByDateNoDuplicates(s: seq<Transaction>, t: Transaction)
    requires NoDuplicates(s) && t !in s
    ensures NoDuplicates(InsertByDate(s, t))
  {
    if s != [] && Earlier(t.date, s[0].date) {
      var rest := InsertByDate(s[1..], t);
      assert s == [s[0]] + s[1..];
      InsertByDateNoDuplicates(s[1..], t);
      InsertByDateMembers(s[1..], t);
      assert s[0] !in rest;
      assert InsertByDate(s, t) == [s[0]] + rest;
    }
  }

  // ---------------------------------------------------------------------------
  // The store

  /** No record owned by someone other than `caller` differs between `before` and `after`. */
  ghost predicate OthersUntouched(before: map<Id, Transaction>, after: map<Id, Transaction>, caller: UserId)
  {
    && (forall id :: id in before && before[id].owner != caller ==> id in after && after[id] == before[id])
    && (forall id :: id in after && after[id].owner != caller ==> id in before && before[id] == after[id])
  }

  /** The transaction collection. `nextId` stands for the generator of fresh document ids. */
  class TransactionStore {
    var docs: map<Id, Transaction>
    var nextId: Id

    /** Every document carries its own id, and the generator is past all of them. */
    ghost predicate Valid()
      reads this
    {
      forall id :: id in docs ==> docs[id].id == id && id < nextId
    }

    constructor ()
      ensures Valid() && docs == map[] && nextId == 0
    {
      docs := map[];
      nextId := 0;
    }

    /** `GET /`: the caller's records, newest first. Records with the same date come in no
        particular order. */
    method Get(caller: UserId) returns (res: Response)
      requires Valid()
      ensures res.status == OK && res.payload.Records?
      ensures forall t :: t in res.payload.records <==> t in docs.Values && t.owner == caller
      ensures NoDuplicates(res.payload.records)
      ensures NewestFirst(res.payload.records)
    {
      var list: seq<Transaction> := [];
      var remaining := docs.Keys;
      assert forall x :: x in docs.Values ==> x.id in docs && docs[x.id] == x;
      while remaining != {}
        invariant remaining <= docs.Keys
        invariant forall x :: x in docs.Values ==> x.id in docs && docs[x.id] == x
        invariant forall t :: t in list <==> t in docs.Values && t.owner == caller && t.id !in remaining
        invariant NoDuplicates(list) && NewestFirst(list)
        decreases remaining
      {
        var id :| id in remaining;
        var t := docs[id];
        if t.owner == caller {
          assert t !in list;
          InsertByDateSorted(list, t);
          InsertByDateNoDuplicates(list, t);
          InsertByDateMembers(list, t);
          list := InsertByDate(list, t);
        }
        remaining := remaining - {id};
      }
      res := Response(OK, Records(list));
    }

    /** `POST /`: a body with an empty field is answered 400 with the failed checks'
        messages and stores nothing; otherwise one new record is stored and returned. */
    method Post(caller: UserId, body: NewBody, today: Date) returns (res: Response)
      requires Valid()
      modifies this
      ensures Valid()
      ensures !Complete(body) ==>
        res == Response(BAD_REQUEST, Errors(ErrorMessages(ValidationErrors(body))))
        && docs == old(docs) && nextId == old(nextId)
      ensures Complete(body) ==>
        var t := NewRecord(old(nextId), caller, body, today);
        && old(nextId) !in old(docs)
        && docs == old(docs)[old(nextId) := t]
        && res == Response(OK, Record(t))
      ensures OthersUntouched(old(docs), docs, caller)
    {
      var errors := ValidationErrors(body);
      if errors != [] {
        return Response(BAD_REQUEST, Errors(ErrorMessages(errors)));
      }
      var t := NewRecord(nextId, caller, body, today);
      docs := docs[nextId := t];
      nextId := nextId + 1;
      res := Response(OK, Record(t));
    }

    /** `PUT /:id`: an unknown id is answered 404 and a record of someone else 401, both
        before anything is written; otherwise the sent fields are set and the updated
        record is returned. */
    method Put(caller: UserId, id: Id, patch: Patch) returns (res: Response)
      requires Valid()
      modifies this
      ensures Valid() && nextId == old(nextId)
      ensures id !in old(docs) ==>
        res == Response(NOT_FOUND, Message("Transaction not found")) && docs == old(docs)
      ensures id in old(docs) && old(docs)[id].owner != caller ==>
        res == Response(UNAUTHORIZED, Message("Not authorized")) && docs == old(docs)
      ensures id in old(docs) && old(docs)[id].owner == caller ==>
        docs == old(docs)[id := Patched(old(docs)[id], patch)]
        && res == Response(OK, Record(docs[id]))
      ensures OthersUntouched(old(docs), docs, caller)
    {
      if id !in docs {
        return Response(NOT_FOUND, Message("Transaction not found"));
      }
      if docs[id].owner != caller {
        return Response(UNAUTHORIZED, Message("Not authorized"));
      }
      var t := Patched(docs[id], patch);
      docs := docs[id := t];
      res := Response(OK, Record(t));
    }

    /** `DELETE /:id`: 404 and 401 as for PUT; otherwise exactly that record is removed. */
    method Delete(caller: UserId, id: Id) returns (res: Response)
      requires Valid()
      modifies this
      ensures Valid() && nextId == old(nextId)
      ensures id !in old(docs) ==>
        res == Response(NOT_FOUND, Message("Transaction not found")) && docs == old(docs)
      ensures id in old(docs) && old(docs)[id].owner != caller ==>
        res == Response(UNAUTHORIZED, Message("Not authorized")) && docs == old(docs)
      ensures id in old(docs) && old(docs)[id].owner == caller ==>
        docs == old(docs) - {id} && res == Response(OK, Message("Transaction removed"))
      ensures OthersUntouched(old(docs), docs, caller)
    {
      if id !in docs {
        return Response(NOT_FOUND, Message("Transaction not found"));
      }
      if docs[id].owner != caller {
        return Response(UNAUTHORIZED, Message("Not authorized"));
      }
      docs := docs - {id};
      res := Response(OK, Message("Transaction removed"));
    }
  }
}
