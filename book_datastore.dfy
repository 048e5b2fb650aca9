/**
 * The shared-book datastore: the record shape, its two status values, and the three
 * backend operations the functions use (`put`, `update`, `query`) as operations on a map
 * from title to record.
 */
module BookDatastore {
  import opened Wrappers

  /** Wire values of `borrowed_status`. */
  const BookBorrowed: string := "borrowed"
  const BookNotBorrowed: string := "not_borrowed"

  /** `borrowed_status`, restricted to its enum. */
  datatype Status = Borrowed | NotBorrowed

  /** Reads a stored `borrowed_status`; only the two enum values are accepted. */
  function ParseStatus(name: string): (r: Option<Status>)
    ensures r == Some(Borrowed) <==> name == BookBorrowed
    ensures r == Some(NotBorrowed) <==> name == BookNotBorrowed
    ensures r.None? <==> name != BookBorrowed && name != BookNotBorrowed
  {
    if name == BookBorrowed then Some(Borrowed)
    else if name == BookNotBorrowed then Some(NotBorrowed)
    else None
  }

  /** The string written to `borrowed_status`; one of the enum values, read back unchanged. */
  function StatusName(s: Status): (r: string)
    ensures r == BookBorrowed || r == BookNotBorrowed
    ensures ParseStatus(r) == Some(s)
  {
    match s
    case Borrowed => BookBorrowed
    case NotBorrowed => BookNotBorrowed
  }

  /** Distinct statuses are written as distinct strings. */
  lemma StatusNameInjective(s: Status, t: Status)
    requires StatusName(s) == StatusName(t)
    ensures s == t
  {
  }

  /**
   * One stored record. `id` is the book's title and the primary key; `borrowedUserId`
   * is `None` where the store holds `null`.
   */
  datatype Book = Book(id: string, ownerUserId: string, status: Status, borrowedUserId: Option<string>)

  /** The record invariant: the borrower is set exactly when the book is lent out. */
  predicate Consistent(b: Book) {
    b.status == Borrowed <==> b.borrowedUserId.Some?
  }

  /** The primary key: every record is stored under its own `id`. */
  predicate KeyedById(books: map<string, Book>) {
    forall id | id in books :: books[id].id == id
  }

  /** Keyed by id and every record consistent. */
  predicate WellFormed(books: map<string, Book>) {
    KeyedById(books) && forall id | id in books :: Consistent(books[id])
  }

  /** Two titles never share a record. */
  lemma DistinctTitlesDistinctRecords(books: map<string, Book>, t1: string, t2: string)
    requires KeyedById(books) && t1 in books && t2 in books && t1 != t2
    ensures books[t1] != books[t2]
  {
  }

  /** `put`: inserts the record, or replaces the whole record already stored under `item.id`. */
  function PutRecord(books: map<string, Book>, item: Book): (m: map<string, Book>)
    ensures m.Keys == books.Keys + {item.id}
    ensures m[item.id] == item
    ensures forall id | id in books && id != item.id :: m[id] == books[id]
    ensures KeyedById(books) ==> KeyedById(m)
    ensures WellFormed(books) && Consistent(item) ==> WellFormed(m)
  {
    books[item.id := item]
  }

  /**
   * `update` with an item holding only `id`, `borrowed_status` and `borrowed_user_id`:
   * those fields of the record under `id` are overwritten and `book_owner_user_id` is kept.
   * A missing key leaves the store as it was (the backend is assumed to reject it).
   */
  function UpdateRecord(books: map<string, Book>, id: string, status: Status, borrower: Option<string>)
    : (m: map<string, Book>)
    ensures m.Keys == books.Keys
    ensures forall k | k in books && k != id :: m[k] == books[k]
    ensures id in books ==>
              && m[id].id == books[id].id
              && m[id].ownerUserId == books[id].ownerUserId
              && m[id].status == status
              && m[id].borrowedUserId == borrower
    ensures id !in books ==> m == books
    ensures KeyedById(books) ==> KeyedById(m)
    ensures WellFormed(books) && (status == Borrowed <==> borrower.Some?) ==> WellFormed(m)
  {
    if id in books then books[id := books[id].(status := status, borrowedUserId := borrower)]
    else books
  }

  /** `query` with the expression `borrowed_status = :status`: every record with that wire status. */
  function QueryRecords(books: map<string, Book>, statusName: string): (r: set<Book>)
    ensures forall b | b in r :: b in books.Values && StatusName(b.status) == statusName
    ensures forall id | id in books && StatusName(books[id].status) == statusName :: books[id] in r
  {
    set b | b in books.Values && StatusName(b.status) == statusName
  }

  /** `items.map(book => book.id)`. */
  function Ids(items: set<Book>): (r: set<string>)
    ensures forall b | b in items :: b.id in r
    ensures forall id | id in r :: exists b | b in items :: b.id == id
  {
    set b | b in items :: b.id
  }

  /** Reference definition: the titles whose record has `status`. */
  function TitlesWith(books: map<string, Book>, status: Status): set<string> {
    set id | id in books && books[id].status == status
  }

  /** A status query projected to ids yields exactly the titles with that status. */
  lemma QueryIds(books: map<string, Book>, status: Status)
    requires KeyedById(books)
    ensures Ids(QueryRecords(books, StatusName(status))) == TitlesWith(books, status)
  {
  }

  /** Every title has exactly one of the two statuses. */
  lemma StatusPartition(books: map<string, Book>)
    ensures TitlesWith(books, Borrowed) !! TitlesWith(books, NotBorrowed)
    ensures TitlesWith(books, Borrowed) + TitlesWith(books, NotBorrowed) == books.Keys
  {
  }

  /** The datastore, holding the records keyed by title. */
  class BookStore {
    var books: map<string, Book>

    ghost predicate Valid()
      reads this
    {
      KeyedById(books)
    }

    constructor ()
      ensures Valid() && books == map[]
    {
      books := map[];
    }

    /** `apps.datastore.put`; `fault` is the error the backend reports, if any. */
    method Put(item: Book, fault: Option<string>) returns (res: Outcome)
      requires Valid()
      modifies this
      ensures Valid()
      ensures res == if fault.Some? then Fail(fault.value) else Pass
      ensures books == if fault.Some? then old(books) else PutRecord(old(books), item)
    {
      if fault.Some? {
        return Fail(fault.value);
      }
      books := PutRecord(books, item);
      return Pass;
    }

    /**
     * `apps.datastore.update` of `id`, `borrowed_status` and `borrowed_user_id`.
     * Assumed of the backend: an update of a key it does not hold reports an error.
     */
    method Update(id: string, status: Status, borrower: Option<string>, fault: Option<string>)
      returns (res: Outcome)
      requires Valid()
      requires id in books || fault.Some?
      modifies this
      ensures Valid()
      ensures res == if fault.Some? then Fail(fault.value) else Pass
      ensures books == if fault.Some? then old(books) else UpdateRecord(old(books), id, status, borrower)
    {
      if fault.Some? {
        return Fail(fault.value);
      }
      books := UpdateRecord(books, id, status, borrower);
      return Pass;
    }
  }
}
