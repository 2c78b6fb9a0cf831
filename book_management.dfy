/** The book screen's state and handlers. Each server call is a parameter holding how
    it ended; each handler returns the request it sends (`None` when the form is
    rejected before any request) and whether it then starts a reload of the list. */
module BookManagement {
  import opened Http
  import opened Collections
  import opened BookMapping

  /** The key the delete handler filters on: the row's `_id`. */
  function Oid(b: Book): string {
    b.oid
  }

  /** The key the update handler replaces on: the document's own `id` (the ISBN). */
  function DocumentId(b: Book): string {
    b.doc.id
  }

  /** An optional value as it reads inside a template literal. */
  function IdText(id: Option<string>): string {
    match id
    case None => "undefined"
    case Some(s) => s
  }

  class BookScreen {
    var books: seq<Book>
    var newBook: BookDraft
    var showAddModal: bool
    var showUpModal: bool

    constructor ()
      ensures books == [] && newBook == EmptyDraft
      ensures !showAddModal && !showUpModal
    {
      books := [];
      newBook := EmptyDraft;
      showAddModal := false;
      showUpModal := false;
    }

    /** `fetchBooks`: a successful list replaces the books wholesale. */
    method FetchBooks(response: Outcome<seq<Book>>) returns (request: Request<BookDocument>)
      modifies this`books
      ensures request == Get("/books")
      ensures books == if response.Ok? then response.data else old(books)
    {
      request := Get("/books");
      if response.Ok? {
        books := response.data;
      }
    }

    /** `handleAddBook`: posts the mapped form; on success appends the created row,
        clears the form, closes the add dialog and starts a reload. */
    method AddBook(response: Outcome<Book>) returns (request: Option<Request<BookDocument>>, refetch: bool)
      modifies this`books, this`newBook, this`showAddModal
      ensures request == if HasTitleAndAuthor(old(newBook))
        then Some(Post("/books", BookToAdd(old(newBook)))) else None
      ensures refetch <==> HasTitleAndAuthor(old(newBook)) && response.Ok?
      ensures refetch ==>
        (books == old(books) + [response.data] && newBook == ClearedDraft && !showAddModal)
      ensures !refetch ==>
        (books == old(books) && newBook == old(newBook) && showAddModal == old(showAddModal))
    {
      if !HasTitleAndAuthor(newBook) {
        return None, false;
      }
      request := Some(Post("/books", BookToAdd(newBook)));
      refetch := false;
      if response.Ok? {
        books := books + [response.data];
        newBook := ClearedDraft;
        refetch := true;
        showAddModal := false;
      }
    }

    /** `handleDeleteBook`: on success drops every row with that `_id`. */
    method DeleteBook(id: string, response: Outcome<()>) returns (request: Request<BookDocument>)
      modifies this`books
      ensures request == Delete("/books/" + id)
      ensures books == if response.Ok? then Without(old(books), Oid, id) else old(books)
    {
      request := Delete("/books/" + id);
      if response.Ok? {
        books := Without(books, Oid, id);
      }
    }

    /** `handleUpdateBook`: puts the mapped form to the `_id` the form carries; on
        success replaces the rows whose document `id` is the returned one, clears the
        form, closes the ADD dialog (the edit dialog stays as it was) and starts a reload. */
    method UpdateBook(response: Outcome<Book>) returns (request: Option<Request<BookDocument>>, refetch: bool)
      modifies this`books, this`newBook, this`showAddModal
      ensures request == if HasTitleAndAuthor(old(newBook))
        then Some(Put("/books/" + IdText(old(newBook).id), UpdatedBook(old(newBook)))) else None
      ensures refetch <==> HasTitleAndAuthor(old(newBook)) && response.Ok?
      ensures refetch ==>
        (books == ReplaceWhere(old(books), DocumentId, response.data.doc.id, response.data)
         && newBook == EmptyDraft && !showAddModal)
      ensures !refetch ==>
        (books == old(books) && newBook == old(newBook) && showAddModal == old(showAddModal))
      ensures showUpModal == old(showUpModal)
    {
      if !HasTitleAndAuthor(newBook) {
        return None, false;
      }
      request := Some(Put("/books/" + IdText(newBook.id), UpdatedBook(newBook)));
      refetch := false;
      if response.Ok? {
        books := ReplaceWhere(books, DocumentId, response.data.doc.id, response.data);
        newBook := EmptyDraft;
        refetch := true;
        showAddModal := false;
      }
    }

    /** The row's "edit" button: pre-fills the form and opens the edit dialog. */
    method EditBook(b: Book)
      modifies this`newBook, this`showUpModal
      ensures newBook == Prefill(b) && showUpModal
    {
      newBook := Prefill(b);
      showUpModal := true;
    }

    method OpenAddModal()
      modifies this`showAddModal
      ensures showAddModal
    {
      showAddModal := true;
    }

    method CloseAddModal()
      modifies this`showAddModal
      ensures !showAddModal
    {
      showAddModal := false;
    }

    method CloseUpModal()
      modifies this`showUpModal
      ensures !showUpModal
    {
      showUpModal := false;
    }
  }

  /** Editing a row and saving it: the request goes to the row's `_id`, and since a
      successful save closes the add dialog instead of the edit dialog, the edit dialog
      stays open on a cleared form, so pressing save again sends nothing. */
  method EditThenSaveTwice(b: Book, saved: Book, again: Outcome<Book>)
    returns (first: Option<Request<BookDocument>>, editStillOpen: bool,
             second: Option<Request<BookDocument>>)
    requires HasTitleAndAuthor(Prefill(b))
    ensures first == Some(Put("/books/" + b.oid, UpdatedBook(Prefill(b))))
    ensures editStillOpen
    ensures second == None
  {
    var screen := new BookScreen();
    screen.EditBook(b);
    var refetch;
    first, refetch := screen.UpdateBook(Ok(saved));
    editStillOpen := screen.showUpModal;
    second, refetch := screen.UpdateBook(again);
  }
}
