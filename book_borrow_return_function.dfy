/**
 * Borrowing and returning a book: the action tokens, `_borrowBook`, `_returnBook`, their
 * messages and the handler that dispatches on the action.
 */
module BookBorrowReturnFunction {
  import opened Wrappers
  import opened BookDatastore
  import opened SlackText

  /** The action tokens chosen in the first form. */
  const BookBorrow: string := "借りる"
  const BookReturn: string := "返す"

  datatype Action = Borrow | Return

  /** The prefix the handler puts on an error thrown by a store helper. */
  const Failed: string := "BookBorrowOrRetrunFunction failed: "

  /** The handler's `switch`: only the two tokens name an action. */
  function ParseAction(action: string): (r: Option<Action>)
    ensures r == Some(Borrow) <==> action == BookBorrow
    ensures r == Some(Return) <==> action == BookReturn
    ensures r.None? <==> action != BookBorrow && action != BookReturn
  {
    if action == BookBorrow then Some(Borrow)
    else if action == BookReturn then Some(Return)
    else None
  }

  /** The token that selects `a`; it is read back as `a`. */
  function Token(a: Action): (t: string)
    ensures t == BookBorrow || t == BookReturn
    ensures ParseAction(t) == Some(a)
  {
    match a
    case Borrow => BookBorrow
    case Return => BookReturn
  }

  /** The store after a successful `_borrowBook`: lent to `userId`, whatever its status was. */
  function AfterBorrow(books: map<string, Book>, bookName: string, userId: string): (m: map<string, Book>)
    ensures m.Keys == books.Keys
    ensures forall id | id in books && id != bookName :: m[id] == books[id]
    ensures bookName in books ==>
              && m[bookName].status == Borrowed
              && m[bookName].borrowedUserId == Some(userId)
              && m[bookName].ownerUserId == books[bookName].ownerUserId
              && m[bookName].id == books[bookName].id
    ensures WellFormed(books) ==> WellFormed(m)
  {
    UpdateRecord(books, bookName, Borrowed, Some(userId))
  }

  /** The store after a successful `_returnBook`: available, with no borrower, whatever its status was. */
  function AfterReturn(books: map<string, Book>, bookName: string): (m: map<string, Book>)
    ensures m.Keys == books.Keys
    ensures forall id | id in books && id != bookName :: m[id] == books[id]
    ensures bookName in books ==>
              && m[bookName].status == NotBorrowed
              && m[bookName].borrowedUserId == None
              && m[bookName].ownerUserId == books[bookName].ownerUserId
              && m[bookName].id == books[bookName].id
    ensures WellFormed(books) ==> WellFormed(m)
  {
    UpdateRecord(books, bookName, NotBorrowed, None)
  }

  /** The store after the handler, given the action token and what the backend reports. */
  function StoreAfter(books: map<string, Book>, action: string, bookName: string, userId: string,
                      fault: Option<string>): (m: map<string, Book>)
    ensures m.Keys == books.Keys
    ensures forall id | id in books && id != bookName :: m[id] == books[id]
    ensures ParseAction(action).None? || fault.Some? ==> m == books
    ensures action == BookBorrow && fault.None? ==> m == AfterBorrow(books, bookName, userId)
    ensures action == BookReturn && fault.None? ==> m == AfterReturn(books, bookName)
    ensures WellFormed(books) ==> WellFormed(m)
  {
    assert |BookBorrow| == 3 && |BookReturn| == 2;
    match ParseAction(action)
    case None => books
    case Some(Borrow) => if fault.Some? then books else AfterBorrow(books, bookName, userId)
    case Some(Return) => if fault.Some? then books else AfterReturn(books, bookName)
  }

  /** Borrowing and then returning a title leaves it as returning it alone would. */
  lemma BorrowThenReturn(books: map<string, Book>, bookName: string, userId: string)
    ensures AfterReturn(AfterBorrow(books, bookName, userId), bookName) == AfterReturn(books, bookName)
  {
  }

  /** A borrow-then-return round trip restores a title that was available. */
  lemma BorrowReturnRoundTrip(books: map<string, Book>, bookName: string, userId: string)
    requires WellFormed(books)
    requires bookName in books && books[bookName].status == NotBorrowed
    ensures AfterReturn(AfterBorrow(books, bookName, userId), bookName) == books
  {
  }

  /** Borrowing a lent-out title succeeds and replaces its borrower. */
  lemma BorrowReplacesBorrower(books: map<string, Book>, bookName: string, first: string, second: string)
    ensures AfterBorrow(AfterBorrow(books, bookName, first), bookName, second)
         == AfterBorrow(books, bookName, second)
  {
  }

  /** Returning an available title succeeds and changes nothing. */
  lemma ReturnAvailableUnchanged(books: map<string, Book>, bookName: string)
    requires WellFormed(books)
    requires bookName in books ==> books[bookName].status == NotBorrowed
    ensures AfterReturn(books, bookName) == books
  {
  }

  /** `_borrowBook`: the update, with its error wrapped. */
  method BorrowBook(store: BookStore, bookName: string, borrowUserId: string, fault: Option<string>)
    returns (o: Outcome)
    requires store.Valid()
    requires bookName in store.books || fault.Some?
    modifies store
    ensures store.Valid()
    ensures o == if fault.Some? then Fail("_borrowBook failed: " + fault.value) else Pass
    ensures store.books == if fault.Some? then old(store.books) else AfterBorrow(old(store.books), bookName, borrowUserId)
  {
    var res := store.Update(bookName, Borrowed, Some(borrowUserId), fault);
    if res.Fail? {
      return Fail("_borrowBook failed: " + res.message);
    }
    return Pass;
  }

  /** `_returnBook`: the update, with its error wrapped; it is not told who returns the book. */
  method ReturnBook(store: BookStore, bookName: string, fault: Option<string>) returns (o: Outcome)
    requires store.Valid()
    requires bookName in store.books || fault.Some?
    modifies store
    ensures store.Valid()
    ensures o == if fault.Some? then Fail("_returnBook failed: " + fault.value) else Pass
    ensures store.books == if fault.Some? then old(store.books) else AfterReturn(old(store.books), bookName)
  {
    var res := store.Update(bookName, NotBorrowed, None, fault);
    if res.Fail? {
      return Fail("_returnBook failed: " + res.message);
    }
    return Pass;
  }

  /** `_borrowMessage`: opens with the borrower's mention, then the title in 「」. */
  function BorrowMessage(bookName: string, borrowUserId: string): (r: string)
    ensures |r| == |Mention(borrowUserId)| + |" が「"| + |bookName| + |"」を借りました :book:"|
    ensures r[..|Mention(borrowUserId)|] == Mention(borrowUserId)
    ensures r[|Mention(borrowUserId)|..][..|" が「"|] == " が「"
    ensures r[|Mention(borrowUserId)| + |" が「"|..][..|bookName|] == bookName
    ensures r[|Mention(borrowUserId)| + |" が「"| + |bookName|..] == "」を借りました :book:"
  {
    Mention(borrowUserId) + " が「" + bookName + "」を借りました :book:"
  }

  /** `_returnMessage`: opens with the returning user's mention, then the title in 「」. */
  function ReturnMessage(bookName: string, borrowUserId: string): (r: string)
    ensures |r| == |Mention(borrowUserId)| + |" が借りていた「"| + |bookName| + |"」が返却されました :okaeri:"|
    ensures r[..|Mention(borrowUserId)|] == Mention(borrowUserId)
    ensures r[|Mention(borrowUserId)|..][..|" が借りていた「"|] == " が借りていた「"
    ensures r[|Mention(borrowUserId)| + |" が借りていた「"|..][..|bookName|] == bookName
    ensures r[|Mention(borrowUserId)| + |" が借りていた「"| + |bookName|..] == "」が返却されました :okaeri:"
  {
    Mention(borrowUserId) + " が借りていた「" + bookName + "」が返却されました :okaeri:"
  }

  /** A borrow message names the borrower and the title it was made for, and no other pair. */
  lemma BorrowMessageInjective(b1: string, u1: string, b2: string, u2: string)
    requires PlainUserId(u1) && PlainUserId(u2)
    requires BorrowMessage(b1, u1) == BorrowMessage(b2, u2)
    ensures b1 == b2 && u1 == u2
  {
    MentionPrefixInjective(BorrowMessage(b1, u1), u1, u2);
  }

  /** A return message names the user and the title it was made for, and no other pair. */
  lemma ReturnMessageInjective(b1: string, u1: string, b2: string, u2: string)
    requires PlainUserId(u1) && PlainUserId(u2)
    requires ReturnMessage(b1, u1) == ReturnMessage(b2, u2)
    ensures b1 == b2 && u1 == u2
  {
    MentionPrefixInjective(ReturnMessage(b1, u1), u1, u2);
  }

  /** A borrow message is never a return message: they end in `:book:` and `:okaeri:`. */
  lemma BorrowAndReturnMessagesDiffer(b1: string, u1: string, b2: string, u2: string)
    ensures BorrowMessage(b1, u1) != ReturnMessage(b2, u2)
  {
    var m1, m2 := BorrowMessage(b1, u1), ReturnMessage(b2, u2);
    var s1, s2 := "」を借りました :book:", "」が返却されました :okaeri:";
    assert m1 == (Mention(u1) + " が「" + b1) + s1;
    assert m1[|m1| - 2] == s1[|s1| - 2] == 'k';
    assert m2 == (Mention(u2) + " が借りていた「" + b2) + s2;
    assert m2[|m2| - 2] == s2[|s2| - 2] == 'i';
  }

  /**
   * The handler. `fault` is what the backend reports for the update; a borrow or return of
   * a missing title is assumed to be reported as a fault.
   */
  method Handle(store: BookStore, action: string, bookName: string, userId: string, fault: Option<string>)
    returns (r: Result<string>)
    requires store.Valid()
    requires ParseAction(action).Some? ==> bookName in store.books || fault.Some?
    modifies store
    ensures store.Valid()
    ensures ParseAction(action).None? ==> r == Err("Invalid action: " + action)
    ensures action == BookBorrow && fault.Some? ==>
              r == Err(Failed + ("_borrowBook failed: " + fault.value))
    ensures action == BookBorrow && fault.None? ==> r == Ok(BorrowMessage(bookName, userId))
    ensures action == BookReturn && fault.Some? ==>
              r == Err(Failed + ("_returnBook failed: " + fault.value))
    ensures action == BookReturn && fault.None? ==> r == Ok(ReturnMessage(bookName, userId))
    ensures store.books == StoreAfter(old(store.books), action, bookName, userId, fault)
    ensures WellFormed(old(store.books)) ==> WellFormed(store.books)
  {
    ghost var before := store.books;
    assert |BookBorrow| == 3 && |BookReturn| == 2;
    if action == BookBorrow {
      assert ParseAction(action) == Some(Borrow);
      var o := BorrowBook(store, bookName, userId, fault);
      assert store.books == StoreAfter(before, action, bookName, userId, fault);
      if o.Fail? {
        return Err(Failed + o.message);
      }
      var message := BorrowMessage(bookName, userId);
      return Ok(message);
    } else if action == BookReturn {
      assert ParseAction(action) == Some(Return);
      var o := ReturnBook(store, bookName, fault);
      assert store.books == StoreAfter(before, action, bookName, userId, fault);
      if o.Fail? {
        return Err(Failed + o.message);
      }
      var message := ReturnMessage(bookName, userId);
      return Ok(message);
    } else {
      return Err("Invalid action: " + action);
    }
  }
}
