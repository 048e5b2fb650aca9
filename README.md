# Shared-book lending ledger

A model of the core of `book-admin`, a Slack app that keeps a pool of shared physical books.
Each book is a record in `BookDatastore`, keyed by its title, with an owner, a status
(`borrowed` / `not_borrowed`) and a borrower that is `null` while the book is available.
Three functions operate on the store:

- **BookAddFunction** puts a fresh record for a title (available, no borrower) and builds a
  confirmation message;
- **BookBorrowOrRetrunFunction** (the code's spelling, `BookBorrowOrRetrunFunctionDefinition`) dispatches on the action token `借りる` (borrow) or `返す`
  (return), updates the status and borrower of one record without looking at its prior state,
  and builds a message;
- **BookBorrowOrRetrunPreprocessFunction** (the code's spelling of its definition,
  `BookBorrowOrRetrunPreprocessFunctionDefinition`; its error prefix spells it
  `BookBorrowOrReturnPreprocessFunction`) lists the titles the chosen action applies to
  (available ones for borrowing, lent-out ones for returning), rejects an empty list, and picks
  the fixed copy of the next form.

The Slack client is replaced by the store itself: `BookStore` is a class whose field
`books: map<string, Book>` the writing operations update in place. Each backend call takes a
parameter `fault: Option<string>`, which is the error the backend reports, or `None` when the
call succeeds. The preprocess function only reads, so it is a function of the map.

Modules follow the source files: `BookDatastore` (`datastores/book_datastore.ts`),
`BookAddFunction`, `BookBorrowReturnFunction` and `BookBorrowReturnPreprocessFunction`
(the three files under `functions/`). There are three helper modules:

- `Wrappers` holds the `Option`, `Result` and `Outcome` types.
- `SlackText` holds the `<@user>` mention and lemmas about reading it back.
- `BookLifecycle` runs the writing functions one after another on the same store. It proves
  what holds in every state the store can reach, and how the preprocess step connects to
  borrow and return.

Behaviour the model keeps exactly as the code has it, although a stricter design would differ:

- Adding a book does not check that the title or the user id is non-empty.
- A borrow or return writes unconditionally: there is no check of the prior status and no
  conflict error. Borrowing a lent-out book replaces its borrower; returning an available book
  succeeds.
- A return does not compare the returning user with the recorded borrower. That user id is used only in
  the message.
- The error texts are the code's own, typos included: `BookBorrowOrRetrunFunction`,
  `_fetchAllNotBorrowdBook`. In the preprocess function, an empty list gives an error with the
  prefix twice, because the inner `throw` is caught and wrapped again.

Assumptions about the backend, stated as assumptions and not proved:

- An `update` of a title the store does not hold is reported as an error. This is the
  requirement `id in books || fault.Some?` on `BookStore.Update`, and
  `bookName in store.books || fault.Some?` on the borrow/return handler and its helpers. In the pure `UpdateRecord`, a missing key leaves the
  map unchanged. `BookLifecycle.CandidateTransition` shows that this requirement is met
  whenever the title was taken from the preprocess list.
- A status query returns every matching record in one response: no pagination, no order. Its
  result is therefore a `set`.
- Slack user ids contain no `>`. Only the lemmas saying that a message identifies its user and
  title rely on this.

## Model

| member | source | states |
|---|---|---|
| `BookDatastore.ParseStatus` | datastores/book_datastore.ts:19-22 | a stored `borrowed_status` is accepted exactly when it is `"borrowed"` or `"not_borrowed"`, and each maps to its own status |
| `BookDatastore.StatusName` | datastores/book_datastore.ts:3-4 | the status written is always one of the two enum strings and reads back as the same status |
| `BookDatastore.StatusNameInjective` | datastores/book_datastore.ts:3-4 | the two status constants are distinct strings |
| `BookDatastore.DistinctTitlesDistinctRecords` | datastores/book_datastore.ts:8-13 | with `id` as primary key, two different titles never share a record |
| `BookDatastore.PutRecord` | functions/book_add_function.ts:75-83 | `put` stores the item under its `id`, replacing any earlier record whole; the other keys are unchanged; keying by id and record consistency are preserved |
| `BookDatastore.UpdateRecord` | functions/book_borrow_return_function.ts:102-111 | `update` overwrites only status and borrower of the record under `id`, keeps `id` and owner, touches no other key and adds none; it preserves consistency when the new status is borrowed exactly when a borrower is given |
| `BookDatastore.QueryIds` | functions/book_borrow_return_preprocess_function.ts:87-88 | a status query projected with `book.id` gives exactly the titles whose record has that status |
| `BookDatastore.StatusPartition` | datastores/book_datastore.ts:19-22 | every title has exactly one of the two statuses |
| `BookDatastore.QueryRecords` | functions/book_borrow_return_preprocess_function.ts:154-161 | a `query` on `borrowed_status = :status` returns stored records only, each with that wire status, and every stored record with that status is among them |
| `BookDatastore.Ids` | functions/book_borrow_return_preprocess_function.ts:88 | projecting records with `book.id` keeps the id of every record and yields no id that no record has |
| `BookDatastore.BookStore.constructor` | datastores/book_datastore.ts:6-30 | a new datastore is empty and keyed by id |
| `BookDatastore.BookStore.Put` | functions/book_add_function.ts:75-87 | on a backend error the store is unchanged and the error is reported; otherwise the store is `PutRecord` of the old one |
| `BookDatastore.BookStore.Update` | functions/book_borrow_return_function.ts:102-115 | on a backend error the store is unchanged and the error is reported; otherwise the store is `UpdateRecord` of the old one |
| `BookAddFunction.Added` | functions/book_add_function.ts:75-83 | after an add, the title is owned by `user_id`, is `not_borrowed` with borrower `null`; no other record changes; well-formedness is kept |
| `BookAddFunction.StoreAfter` | functions/book_add_function.ts:52-56 | the add handler writes only `book_name`: nothing on failure, the fresh record on success; well-formedness is kept |
| `BookAddFunction.AddIdempotent` | functions/book_add_function.ts:75-83 | adding the same title and owner twice leaves the store as adding once |
| `BookAddFunction.AddOverwrites` | functions/book_add_function.ts:75-83 | adding over any existing record gives the same store as adding to a store without it: the previous owner and borrow state are discarded |
| `BookAddFunction.AddBook` | functions/book_add_function.ts:70-88 | `_addBook` puts the fresh record; a failed put gives `"_addBook failed: " + err` and leaves the store unchanged |
| `BookAddFunction.AddMessage` | functions/book_add_function.ts:96-99 | the confirmation opens with the owner's `<@user_id>` mention, followed by the separator ` の「`, the title and the fixed ending `」が共有本に追加されました :books:`, and nothing else |
| `BookAddFunction.AddMessageInjective` | functions/book_add_function.ts:96-99 | the add message determines the title and the owner it was built from |
| `BookAddFunction.Handle` | functions/book_add_function.ts:46-62 | failure gives exactly `"BookAddFunction failed: _addBook failed: " + err` and no message; success gives `<@user> の「title」が共有本に追加されました :books:`; the store follows `StoreAfter` and stays well-formed |
| `BookBorrowReturnFunction.ParseAction` | functions/book_borrow_return_function.ts:62-87 | exactly the tokens `借りる` and `返す` select borrow and return; any other text selects nothing |
| `BookBorrowReturnFunction.Token` | functions/book_borrow_return_function.ts:13-14 | each action has a token that is read back as that action |
| `BookBorrowReturnFunction.AfterBorrow` | functions/book_borrow_return_function.ts:102-111 | borrow sets status `borrowed` and borrower `user_id` whatever the prior status, keeps the owner, touches no other key, keeps well-formedness |
| `BookBorrowReturnFunction.AfterReturn` | functions/book_borrow_return_function.ts:127-136 | return sets status `not_borrowed` and borrower `null` whatever the prior status, keeps the owner, touches no other key, keeps well-formedness |
| `BookBorrowReturnFunction.StoreAfter` | functions/book_borrow_return_function.ts:62-87 | the handler writes at most `book_name`; `借りる` with no backend error gives exactly `AfterBorrow` for `book_name` and `user_id`, `返す` with no backend error gives exactly `AfterReturn` for `book_name`; an invalid action or a backend error leaves the store unchanged; well-formedness is kept |
| `BookBorrowReturnFunction.BorrowThenReturn` | functions/book_borrow_return_function.ts:106-110 | borrowing then returning a title leaves the store as returning it alone |
| `BookBorrowReturnFunction.BorrowReturnRoundTrip` | functions/book_borrow_return_function.ts:131-135 | on a well-formed store, borrowing then returning an available title restores the store exactly |
| `BookBorrowReturnFunction.BorrowReplacesBorrower` | functions/book_borrow_return_function.ts:102-111 | borrowing a lent-out title succeeds and the second borrower replaces the first |
| `BookBorrowReturnFunction.ReturnAvailableUnchanged` | functions/book_borrow_return_function.ts:127-136 | returning an available title succeeds and changes nothing |
| `BookBorrowReturnFunction.BorrowBook` | functions/book_borrow_return_function.ts:97-116 | `_borrowBook` performs the borrow update; a failure gives `"_borrowBook failed: " + err` and leaves the store unchanged |
| `BookBorrowReturnFunction.ReturnBook` | functions/book_borrow_return_function.ts:123-141 | `_returnBook` performs the return update without the user id; a failure gives `"_returnBook failed: " + err` and leaves the store unchanged |
| `BookBorrowReturnFunction.BorrowMessage` | functions/book_borrow_return_function.ts:149-152 | the borrow message opens with the borrower's mention, followed by the separator ` が「`, the title and the fixed ending `」を借りました :book:`, and nothing else |
| `BookBorrowReturnFunction.ReturnMessage` | functions/book_borrow_return_function.ts:159-163 | the return message opens with the returning user's mention, followed by the separator ` が借りていた「`, the title and the fixed ending `」が返却されました :okaeri:`, and nothing else |
| `BookBorrowReturnFunction.BorrowMessageInjective` | functions/book_borrow_return_function.ts:149-152 | the borrow message determines the borrower and the title |
| `BookBorrowReturnFunction.ReturnMessageInjective` | functions/book_borrow_return_function.ts:159-163 | the return message determines the user and the title |
| `BookBorrowReturnFunction.BorrowAndReturnMessagesDiffer` | functions/book_borrow_return_function.ts:149-163 | no borrow message equals a return message, for any user ids: one ends in `:book:`, the other in `:okaeri:` |
| `BookBorrowReturnFunction.Handle` | functions/book_borrow_return_function.ts:56-89 | an unknown action gives `"Invalid action: " + action` with no store change; a backend error gives `"BookBorrowOrRetrunFunction failed: _borrowBook failed: " + err` (or the `_returnBook` variant) and no message; success gives the exact borrow or return message; the store follows `StoreAfter` and stays well-formed |
| `BookBorrowReturnPreprocessFunction.CandidatesPartition` | functions/book_borrow_return_preprocess_function.ts:153-182 | the borrow and return candidate sets are disjoint and together cover every title in the store |
| `BookBorrowReturnPreprocessFunction.FormCopyFor` | functions/book_borrow_return_preprocess_function.ts:96-132 | the next form's title is `共有本を` followed by the action's token and its user field is `本を` + token + `ユーザー`; the other strings are the fixed per-action table |
| `BookBorrowReturnPreprocessFunction.FetchAllNotBorrowedBook` | functions/book_borrow_return_preprocess_function.ts:148-168 | on success the result holds only stored `not_borrowed` records and, on a store keyed by id, their ids are all the available titles; a failure gives `"_fetchAllNotBorrowdBook failed: " + err` |
| `BookBorrowReturnPreprocessFunction.FetchAllBorrowedBook` | functions/book_borrow_return_preprocess_function.ts:169-189 | on success the result holds only stored `borrowed` records and, on a store keyed by id, their ids are all the lent-out titles; a failure gives `"_fetchAllBorrowedBook failed: " + err` |
| `BookBorrowReturnPreprocessFunction.TryList` | functions/book_borrow_return_preprocess_function.ts:86-105 | inside the `try` block: a fetch failure carries the fetch's own message; with no candidates the error is the singly prefixed no-books message; otherwise the outputs hold exactly the candidate titles, the action's form copy and the given `interactivity` |
| `BookBorrowReturnPreprocessFunction.Handle` | functions/book_borrow_return_preprocess_function.ts:78-146 | success happens exactly for a valid action with a working query and a non-empty candidate set; then `books` is exactly the available titles (borrow) or lent-out titles (return), the form copy is the action's fixed table and `interactivity` passes through; an empty list gives the doubly prefixed `No borrowable books found` / `No returnable books found`; a query failure and an invalid action give their prefixed errors |
| `BookLifecycle.RunPreservesWellFormed` | datastores/book_datastore.ts:17-28 | every store reached by any sequence of add and borrow/return invocations, with any backend outcomes, keeps records under their own id and has a borrower exactly on lent-out books |
| `BookLifecycle.RunTouchesOnlyNamedTitles` | functions/book_borrow_return_function.ts:106-110 | a record whose title no invocation names is never created, removed or changed |
| `BookLifecycle.CandidateTransition` | workflows/book_borrow_workflow.ts:55-102 | a title picked from the preprocess list and borrowed or returned with the same token is in the store and makes the transition available → lent to `user_id`, or lent → available |
| `BookLifecycle.AddedTitlesAreBorrowable` | functions/book_borrow_return_preprocess_function.ts:153-161 | two distinct titles added to an empty pool are exactly the borrow candidates, and the return list is empty |
| `BookLifecycle.BorrowAndReturnMoveBetweenLists` | functions/book_borrow_return_preprocess_function.ts:153-182 | after a borrow, the title is in the return list and not the borrow list; after a return, the other way round |
| `BookLifecycle.AddAfterBorrowDiscardsLoan` | functions/book_add_function.ts:75-83 | re-adding a lent-out title gives the same store as adding it fresh: the loan is lost |
| `BookLifecycle.ExampleStates` | functions/book_borrow_return_function.ts:102-136 | U1 adding "Clean Code", U2 borrowing it and U2 returning it pass the store through the fresh record, the record lent to U2, and the fresh record again |
| `BookLifecycle.LendingExample` | functions/book_borrow_return_preprocess_function.ts:86-94 | "Clean Code" added by U1 and then borrowed by U2 leaves nothing to borrow, so preprocess fails with the doubly prefixed error, and "Clean Code" is the only title to return; after the return it is the only title to borrow again |

## Left out

- The Slack SDK declarations (`DefineFunction`, `DefineDatastore`, parameter schemas, `SlackFunction`), which are declarative glue. Of the schema, only the constants and the record fields are kept.
- The Slack API client, its transport and `async`/`await`. The backend's answer is the `fault` parameter and its effect is a direct write to the map. The backend's error text is carried through unchanged.
- What the real backend does with an `update` of a missing key. It is an assumption, stated under `BookStore.Update`, and is not proved.
- Query pagination and result order. A query is modelled as returning every matching record as a set, so the `books` output is a set of titles and not an ordered array.
- The workflows, the link triggers and the manifest: form rendering, shortcuts and message delivery. `BookLifecycle.CandidateTransition` keeps only the hand-off from preprocess to borrow/return.
- Concurrent requests and conditional updates. The code performs a sequential, unconditional overwrite, and the model does exactly that. Two requests that race may both report success, and this model does not show that.
- The `interactivity` value. It is a type parameter and is passed through unchanged.
- `BookAddFunction.Handle`, `BookBorrowReturnFunction.Handle`, `BookBorrowReturnPreprocessFunction.Handle`: only errors the backend reports in its response are modelled. Each `catch` also catches an exception thrown by the client call itself; its message would then reach the handler's prefix without the helper's `"_addBook failed: "`, `"_borrowBook failed: "`, `"_returnBook failed: "` or fetch prefix, and the model does not produce that text. `put` and `query` are judged by `res.ok` and `update` by `res.error`; the model takes one `fault` for both tests and so assumes a response never has `ok` and `error` out of step.
