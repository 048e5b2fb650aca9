/**
 * The step before borrowing or returning: list the titles the chosen action applies to and
 * pick the copy of the next form. It only reads the store.
 */
module BookBorrowReturnPreprocessFunction {
  import opened Wrappers
  import opened BookDatastore
  import opened BookBorrowReturnFunction

  /** The four strings of the next form. */
  datatype FormCopy = FormCopy(title: string, description: string, booksTitle: string, userIdTitle: string)

  /** The function's outputs; `interactivity` is the platform's handle, passed through untouched. */
  datatype Outputs<I> = Outputs(
    interactivity: I,
    nextFormTitle: string,
    nextFormDescription: string,
    nextFormBooksTitle: string,
    nextFormUserIdTitle: string,
    books: set<string>)

  const Failed: string := "BookBorrowOrReturnPreprocessFunction failed: "

  /** The fixed per-action copy of the next form; its title and user field name the action's token. */
  function FormCopyFor(a: Action): (r: FormCopy)
    ensures r.title == "共有本を" + Token(a)
    ensures r.userIdTitle == "本を" + Token(a) + "ユーザー"
  {
    match a
    case Borrow =>
      FormCopy("共有本を借りる", "貸出可能な本から借りたい本を選んでください", "借りたい本を選ぶ", "本を借りるユーザー")
    case Return =>
      FormCopy("共有本を返す", "貸出中の本から返したい本を選んでください", "返したい本を選ぶ", "本を返すユーザー")
  }

  /** Reference definition of the candidate list: available titles to borrow, lent-out titles to return. */
  function Candidates(books: map<string, Book>, a: Action): set<string> {
    match a
    case Borrow => TitlesWith(books, NotBorrowed)
    case Return => TitlesWith(books, Borrowed)
  }

  /** Every title is a candidate for exactly one of the two actions. */
  lemma CandidatesPartition(books: map<string, Book>)
    ensures Candidates(books, Borrow) !! Candidates(books, Return)
    ensures Candidates(books, Borrow) + Candidates(books, Return) == books.Keys
  {
    StatusPartition(books);
  }

  /** `_fetchAllNotBorrowdBook`: all the records whose status is `not_borrowed`. */
  function FetchAllNotBorrowedBook(books: map<string, Book>, fault: Option<string>): (r: Result<set<Book>>)
    ensures fault.Some? ==> r == Err("_fetchAllNotBorrowdBook failed: " + fault.value)
    ensures fault.None? ==> r.Ok? && forall b | b in r.value :: b in books.Values && b.status == NotBorrowed
    ensures fault.None? && KeyedById(books) ==> Ids(r.value) == TitlesWith(books, NotBorrowed)
  {
    if fault.Some? then Err("_fetchAllNotBorrowdBook failed: " + fault.value)
    else Ok(QueryRecords(books, BookNotBorrowed))
  }

  /** `_fetchAllBorrowedBook`: all the records whose status is `borrowed`. */
  function FetchAllBorrowedBook(books: map<string, Book>, fault: Option<string>): (r: Result<set<Book>>)
    ensures fault.Some? ==> r == Err("_fetchAllBorrowedBook failed: " + fault.value)
    ensures fault.None? ==> r.Ok? && forall b | b in r.value :: b in books.Values && b.status == Borrowed
    ensures fault.None? && KeyedById(books) ==> Ids(r.value) == TitlesWith(books, Borrowed)
  {
    if fault.Some? then Err("_fetchAllBorrowedBook failed: " + fault.value)
    else Ok(QueryRecords(books, BookBorrowed))
  }

  /**
   * The body of one `case`'s `try` block: fetch, project to ids, reject an empty list,
   * and fill in the action's copy.
   */
  function TryList<I>(books: map<string, Book>, interactivity: I, a: Action, fault: Option<string>)
    : (r: Result<Outputs<I>>)
    requires KeyedById(books)
    ensures fault.Some? ==> r == Err((match a
      case Borrow => "_fetchAllNotBorrowdBook failed: "
      case Return => "_fetchAllBorrowedBook failed: ") + fault.value)
    ensures fault.None? && Candidates(books, a) == {} ==> r == Err(Failed + match a
      case Borrow => "No borrowable books found"
      case Return => "No returnable books found")
    ensures fault.None? && Candidates(books, a) != {} ==>
              var copy := FormCopyFor(a);
              r == Ok(Outputs(interactivity, copy.title, copy.description, copy.booksTitle,
                              copy.userIdTitle, Candidates(books, a)))
  {
    var fetched := match a
      case Borrow => FetchAllNotBorrowedBook(books, fault)
      case Return => FetchAllBorrowedBook(books, fault);
    match fetched
    case Err(e) => Err(e)
    case Ok(items) =>
      var titles := Ids(items);
      QueryIds(books, match a case Borrow => NotBorrowed case Return => Borrowed);
      if |titles| == 0 then
        Err(Failed + match a
          case Borrow => "No borrowable books found"
          case Return => "No returnable books found")
      else
        var copy := FormCopyFor(a);
        Ok(Outputs(interactivity, copy.title, copy.description, copy.booksTitle, copy.userIdTitle, titles))
  }

  /**
   * The handler. `fault` is what the backend reports for the query, if anything. An error
   * thrown inside the `try` block is caught and prefixed again.
   */
  function Handle<I>(books: map<string, Book>, interactivity: I, action: string, fault: Option<string>)
    : (r: Result<Outputs<I>>)
    requires KeyedById(books)
    ensures ParseAction(action).None? ==> r == Err(Failed + "Invalid action")
    ensures action == BookBorrow && fault.Some? ==>
              r == Err(Failed + ("_fetchAllNotBorrowdBook failed: " + fault.value))
    ensures action == BookReturn && fault.Some? ==>
              r == Err(Failed + ("_fetchAllBorrowedBook failed: " + fault.value))
    ensures action == BookBorrow && fault.None? && Candidates(books, Borrow) == {} ==>
              r == Err(Failed + (Failed + "No borrowable books found"))
    ensures action == BookReturn && fault.None? && Candidates(books, Return) == {} ==>
              r == Err(Failed + (Failed + "No returnable books found"))
    ensures r.Ok? <==> ParseAction(action).Some? && fault.None? && Candidates(books, ParseAction(action).value) != {}
    ensures r.Ok? ==>
              var a := ParseAction(action).value;
              && r.value.books == Candidates(books, a)
              && r.value.books != {}
              && r.value.interactivity == interactivity
              && FormCopy(r.value.nextFormTitle, r.value.nextFormDescription,
                          r.value.nextFormBooksTitle, r.value.nextFormUserIdTitle) == FormCopyFor(a)
  {
    match ParseAction(action)
    case None => Err(Failed + "Invalid action")
    case Some(a) =>
      match TryList(books, interactivity, a, fault)
      case Ok(outputs) => Ok(outputs)
      case Err(e) => Err(Failed + e)
  }
}
