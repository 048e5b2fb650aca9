/** Adding a book to the shared pool: `_addBook`, `_addMessage` and the handler around them. */
module BookAddFunction {
  import opened Wrappers
  import opened BookDatastore
  import opened SlackText

  /** The item `_addBook` puts: owned by `userId`, available, with no borrower. */
  function NewRecord(bookName: string, userId: string): Book {
    Book(bookName, userId, NotBorrowed, None)
  }

  /** The store after a successful `_addBook`. */
  function Added(books: map<string, Book>, bookName: string, userId: string): (m: map<string, Book>)
    ensures bookName in m
    ensures m[bookName].ownerUserId == userId
    ensures m[bookName].status == NotBorrowed && m[bookName].borrowedUserId == None
    ensures m.Keys == books.Keys + {bookName}
    ensures forall id | id in books && id != bookName :: m[id] == books[id]
    ensures WellFormed(books) ==> WellFormed(m)
  {
    PutRecord(books, NewRecord(bookName, userId))
  }

  /** The store after the handler, given what the backend reports. */
  function StoreAfter(books: map<string, Book>, bookName: string, userId: string, fault: Option<string>)
    : (m: map<string, Book>)
    ensures forall id | id != bookName :: (id in m <==> id in books) && (id in books ==> m[id] == books[id])
    ensures fault.Some? ==> m == books
    ensures fault.None? ==> bookName in m && m[bookName] == NewRecord(bookName, userId)
    ensures WellFormed(books) ==> WellFormed(m)
  {
    if fault.Some? then books else Added(books, bookName, userId)
  }

  /** Adding the same title for the same owner twice leaves the store as adding it once. */
  lemma AddIdempotent(books: map<string, Book>, bookName: string, userId: string)
    ensures Added(Added(books, bookName, userId), bookName, userId) == Added(books, bookName, userId)
  {
  }

  /** Re-adding a title discards its previous owner and any borrow state. */
  lemma AddOverwrites(books: map<string, Book>, bookName: string, userId: string, previous: Book)
    requires previous.id == bookName
    ensures Added(PutRecord(books, previous), bookName, userId) == Added(books, bookName, userId)
  {
  }

  /** `_addBook`: the put, with its error wrapped. */
  method AddBook(store: BookStore, bookName: string, userId: string, fault: Option<string>)
    returns (o: Outcome)
    requires store.Valid()
    modifies store
    ensures store.Valid()
    ensures o == if fault.Some? then Fail("_addBook failed: " + fault.value) else Pass
    ensures store.books == StoreAfter(old(store.books), bookName, userId, fault)
  {
    var res := store.Put(NewRecord(bookName, userId), fault);
    if res.Fail? {
      return Fail("_addBook failed: " + res.message);
    }
    return Pass;
  }

  /** `_addMessage`: opens with the owner's mention, then the title in 「」. */
  function AddMessage(bookName: string, userId: string): (r: string)
    ensures |r| == |Mention(userId)| + |" の「"| + |bookName| + |"」が共有本に追加されました :books:"|
    ensures r[..|Mention(userId)|] == Mention(userId)
    ensures r[|Mention(userId)|..][..|" の「"|] == " の「"
    ensures r[|Mention(userId)| + |" の「"|..][..|bookName|] == bookName
    ensures r[|Mention(userId)| + |" の「"| + |bookName|..] == "」が共有本に追加されました :books:"
  {
    Mention(userId) + " の「" + bookName + "」が共有本に追加されました :books:"
  }

  /** The confirmation names the owner and the title it was made for, and no other pair. */
  lemma AddMessageInjective(b1: string, u1: string, b2: string, u2: string)
    requires PlainUserId(u1) && PlainUserId(u2)
    requires AddMessage(b1, u1) == AddMessage(b2, u2)
    ensures b1 == b2 && u1 == u2
  {
    MentionPrefixInjective(AddMessage(b1, u1), u1, u2);
  }

  /** The handler: add the book, then build the message; a failed put becomes the function's error. */
  method Handle(store: BookStore, bookName: string, userId: string, fault: Option<string>)
    returns (r: Result<string>)
    requires store.Valid()
    modifies store
    ensures store.Valid()
    ensures fault.Some? ==> r == Err("BookAddFunction failed: " + ("_addBook failed: " + fault.value))
    ensures fault.None? ==> r == Ok(AddMessage(bookName, userId))
    ensures store.books == StoreAfter(old(store.books), bookName, userId, fault)
    ensures WellFormed(old(store.books)) ==> WellFormed(store.books)
  {
    var o := AddBook(store, bookName, userId, fault);
    if o.Fail? {
      return Err("BookAddFunction failed: " + o.message);
    }
    var message := AddMessage(bookName, userId);
    return Ok(message);
  }
}
