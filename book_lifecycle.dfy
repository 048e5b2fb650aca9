/**
 * The ledger over time: the three functions invoked one after another against the same
 * store, and what holds of every state they reach.
 */
module BookLifecycle {
  import opened Wrappers
  import opened BookDatastore
  import Add = BookAddFunction
  import opened BookBorrowReturnFunction
  import Pre = BookBorrowReturnPreprocessFunction

  /** One invocation of a function that writes, with what the backend reports for its write. */
  datatype Request =
    | AddRequest(bookName: string, userId: string, fault: Option<string>)
    | BorrowOrReturnRequest(action: string, bookName: string, userId: string, fault: Option<string>)

  /** The store after one invocation. */
  function Step(books: map<string, Book>, req: Request): map<string, Book> {
    match req
    case AddRequest(bookName, userId, fault) => Add.StoreAfter(books, bookName, userId, fault)
    case BorrowOrReturnRequest(action, bookName, userId, fault) =>
      BookBorrowReturnFunction.StoreAfter(books, action, bookName, userId, fault)
  }

  /** The store after invocations made in order. */
  function Run(books: map<string, Book>, reqs: seq<Request>): map<string, Book>
    decreases |reqs|
  {
    if reqs == [] then books else Run(Step(books, reqs[0]), reqs[1..])
  }

  /**
   * Every store reached from a well-formed one, in particular from the empty store, is
   * keyed by title and has a borrower exactly on its lent-out books.
   */
  lemma {:induction false} RunPreservesWellFormed(books: map<string, Book>, reqs: seq<Request>)
    requires WellFormed(books)
    ensures WellFormed(Run(books, reqs))
    decreases |reqs|
  {
    if reqs != [] {
      var next := Step(books, reqs[0]);
      assert WellFormed(next) by {
        match reqs[0]
        case AddRequest(_, _, _) =>
        case BorrowOrReturnRequest(_, _, _, _) =>
      }
      RunPreservesWellFormed(next, reqs[1..]);
    }
  }

  /** An invocation only ever writes the title it names. */
  lemma {:induction false} RunTouchesOnlyNamedTitles(books: map<string, Book>, reqs: seq<Request>, id: string)
    requires forall i | 0 <= i < |reqs| :: reqs[i].bookName != id
    ensures id in Run(books, reqs) <==> id in books
    ensures id in books ==> Run(books, reqs)[id] == books[id]
    decreases |reqs|
  {
    if reqs != [] {
      RunTouchesOnlyNamedTitles(Step(books, reqs[0]), reqs[1..], id);
    }
  }

  /**
   * A title picked from the candidate list, with the same action token, undergoes the
   * state-machine transition: an available book becomes lent to `userId`, a lent-out book
   * becomes available. The handler's assumption about missing keys is then not needed.
   */
  lemma CandidateTransition<I>(books: map<string, Book>, interactivity: I, action: string,
                               bookName: string, userId: string)
    requires WellFormed(books)
    requires Pre.Handle(books, interactivity, action, None).Ok?
    requires bookName in Pre.Handle(books, interactivity, action, None).value.books
    ensures bookName in books
    ensures action == BookBorrow ==>
              && books[bookName].status == NotBorrowed && books[bookName].borrowedUserId == None
              && BookBorrowReturnFunction.StoreAfter(books, action, bookName, userId, None)[bookName]
                 == books[bookName].(status := Borrowed, borrowedUserId := Some(userId))
    ensures action == BookReturn ==>
              && books[bookName].status == Borrowed && books[bookName].borrowedUserId.Some?
              && BookBorrowReturnFunction.StoreAfter(books, action, bookName, userId, None)[bookName]
                 == books[bookName].(status := NotBorrowed, borrowedUserId := None)
  {
  }

  /** Two distinct titles added to an empty pool are exactly the titles offered for borrowing. */
  lemma AddedTitlesAreBorrowable(t1: string, u1: string, t2: string, u2: string)
    requires t1 != t2
    ensures Pre.Candidates(Add.Added(Add.Added(map[], t1, u1), t2, u2), Borrow) == {t1, t2}
    ensures Pre.Candidates(Add.Added(Add.Added(map[], t1, u1), t2, u2), Return) == {}
  {
  }

  /** Borrowing moves a title from the borrow list to the return list; returning moves it back. */
  lemma BorrowAndReturnMoveBetweenLists(books: map<string, Book>, bookName: string, userId: string)
    requires bookName in books
    ensures bookName in Pre.Candidates(AfterBorrow(books, bookName, userId), Return)
    ensures bookName !in Pre.Candidates(AfterBorrow(books, bookName, userId), Borrow)
    ensures bookName in Pre.Candidates(AfterReturn(books, bookName), Borrow)
    ensures bookName !in Pre.Candidates(AfterReturn(books, bookName), Return)
  {
  }

  /** Re-adding a lent-out title makes it available again under the new owner. */
  lemma AddAfterBorrowDiscardsLoan(books: map<string, Book>, bookName: string, borrower: string, owner: string)
    ensures Add.Added(AfterBorrow(books, bookName, borrower), bookName, owner) == Add.Added(books, bookName, owner)
  {
  }

  /** A sample session: U1 adds "Clean Code", U2 borrows it, U2 returns it. */
  function ExampleRequests(): seq<Request> {
    [AddRequest("Clean Code", "U1", None),
     BorrowOrReturnRequest(BookBorrow, "Clean Code", "U2", None),
     BorrowOrReturnRequest(BookReturn, "Clean Code", "U2", None)]
  }

  /** The stores the sample session passes through. */
  lemma ExampleStates()
    ensures Run(map[], ExampleRequests()[..1]) == map["Clean Code" := Add.NewRecord("Clean Code", "U1")]
    ensures Run(map[], ExampleRequests()[..2])
         == map["Clean Code" := Book("Clean Code", "U1", Borrowed, Some("U2"))]
    ensures Run(map[], ExampleRequests()) == map["Clean Code" := Add.NewRecord("Clean Code", "U1")]
  {
    var reqs := ExampleRequests();
    var added := map["Clean Code" := Add.NewRecord("Clean Code", "U1")];
    var lent := map["Clean Code" := Book("Clean Code", "U1", Borrowed, Some("U2"))];
    assert Step(map[], reqs[0]) == added;
    assert Step(added, reqs[1]) == lent;
    assert Step(lent, reqs[2]) == added;
    assert reqs[..1][1..] == [] && reqs[..2][1..] == [reqs[1]] && reqs[1..] == [reqs[1], reqs[2]];
    assert [reqs[1], reqs[2]][1..] == [reqs[2]] && [reqs[1]][1..] == [] && [reqs[2]][1..] == [];
    assert Run(lent, [reqs[2]]) == added;
    assert Run(added, [reqs[1]]) == lent;
  }

  /**
   * The sample session: "Clean Code" added by U1 and borrowed by U2 leaves nothing to
   * borrow and "Clean Code" to return; returning it offers it for borrowing again.
   */
  lemma LendingExample()
    ensures Pre.Candidates(Run(map[], ExampleRequests()[..1]), Borrow) == {"Clean Code"}
    ensures var lent := Run(map[], ExampleRequests()[..2]);
            && KeyedById(lent)
            && Pre.Candidates(lent, Borrow) == {}
            && Pre.Candidates(lent, Return) == {"Clean Code"}
            && Pre.Handle(lent, (), BookBorrow, None)
               == Err(Pre.Failed + (Pre.Failed + "No borrowable books found"))
    ensures var back := Run(map[], ExampleRequests());
            && Pre.Candidates(back, Borrow) == {"Clean Code"}
            && Pre.Candidates(back, Return) == {}
  {
    ExampleStates();
    var added := map["Clean Code" := Add.NewRecord("Clean Code", "U1")];
    var lent := map["Clean Code" := Book("Clean Code", "U1", Borrowed, Some("U2"))];
    assert TitlesWith(lent, NotBorrowed) == {};
    assert TitlesWith(lent, Borrowed) == {"Clean Code"};
    assert TitlesWith(added, Borrowed) == {};
    assert TitlesWith(added, NotBorrowed) == {"Clean Code"};
  }
}
