# BookStoreFE admin console — a Dafny model

This project models the administrative core of the BookStoreFE storefront. That core
has four parts:

- the route table built in `src/main.jsx`;
- the `ProtectedRoute` wrapper, which sends signed-out visitors to `/login` and
  non-admin users to `/`;
- the three admin screens: books, accounts and categories. Each screen holds a list
  fetched from the back end, a draft form and some dialog flags. Its handlers
  validate the draft, send one request and then update the list locally or reload it.

Modules, one per concern:

- `Http`: `Option`; `Outcome` (the answer a request got: `Ok(data)` or `Err`);
  `Request` (method, path relative to the back-end base URL, body).
- `Collections`: the two array operations the screens apply. `Without` is
  `filter(x => key(x) !== k)`. `ReplaceWhere` is `map(x => key(x) === k ? v : x)`.
  Their lemmas cover order, idempotence and "nothing else changes".
- `ProtectedRoute`: the guard, as a function of the session.
- `Router`: the ten routes in declaration order. Each path pattern is kept as its
  slash-separated pieces, and `:id` matches one non-empty piece. The module has
  first-match lookup (`FindRoute`) and `Resolve`, which gives what a location shows
  for a session. Its lemmas state the table's paths, that no location matches two
  entries, and what signed-out, non-admin and admin sessions can reach.
- `BookMapping`: the document a book draft is turned into on create and on update,
  including the author slug and the 100-character short description. It also has the
  draft that "edit" pre-fills from a row, and the round trips between the two.
- `BookManagement`, `AccountManagement`, `CategoryManagement`: one class per screen.
  Its fields are the screen's React state. Its methods are the handlers. A handler
  takes the server's answer as an `Outcome` parameter. It returns the request it
  would send (`None` when the form is refused before any request), and a flag for the
  list reload it starts. The reload itself is the screen's `Fetch…` method.

Behaviours of the code that the model reproduces:

- Adding a book or an account appends the server's response to the local list. For
  books, a reload is also started after the append.
- A successful book update closes the *add* dialog, not the edit dialog. So the edit
  dialog stays open on a cleared form (`BookManagement.EditThenSaveTwice`).
- An account update sends no bearer credential.
- The guard reads `user.role` on every authenticated session. When the context holds
  no user, that read throws while rendering; the model gives this outcome as
  `Throw` (`Failed` at the router). Unguarded routes never read the user.
- The category screen is imported by the entry module, but no route renders it
  (`Router.CategoryManagementUnreachable`).

## Model

| member | source | states |
|---|---|---|
| ProtectedRoute.Guard | src/Context/ProtectedRoute.jsx:5-18 | renders the element exactly when the session is authenticated and its user has role "Admin"; redirects with replace to `/login` exactly when signed out, and to `/` exactly when signed in with a user of another role; throws exactly when signed in with no user in the context |
| Router.Split | src/main.jsx:17-58 | a location splits into at least one piece, and no piece holds a slash |
| Router.JoinSplit | src/main.jsx:17-58 | joining the pieces of a split gives the location back |
| Router.SplitJoin | src/main.jsx:17-58 | splitting the join of slash-free pieces gives the pieces back |
| Router.Matches | src/main.jsx:17-58 | a pattern matches only locations with as many pieces as it has |
| Router.MatchesLiteral | src/main.jsx:17-58 | a pattern without `:name` pieces matches exactly its own path |
| Router.Resolve | src/main.jsx:17-58 | not found exactly when no entry matches; a redirect or a failure comes only from a guarded entry; a redirect goes to `/` when signed in and to `/login` when signed out, with replace; a failure only for a signed-in context without a user; a shown page is the matched entry's page, and a guarded one only for an admin |
| Router.FindRoute | src/main.jsx:17-58 | returns an entry that matches the location and no earlier entry matches, or none exactly when no entry matches |
| Router.PublicRoutePaths | src/main.jsx:18-45 | the table has ten entries, and the first seven have the paths `/`, `/about`, `/book/:id`, `/payment`, `/cart`, `/login`, `/register` in that order |
| Router.AdminRoutePaths | src/main.jsx:46-57 | entries eight to ten have the paths `/admin`, `/admin/book-management`, `/admin/account-management` |
| Router.GuardedRoutes | src/main.jsx:46-57 | an entry is wrapped in the guard exactly when its path is an admin path and its page is an admin page; the other seven are exactly the public paths |
| Router.PathsDistinct | src/main.jsx:17-58 | no two entries have the same path |
| Router.AtMostOneMatch | src/main.jsx:17-58 | no location matches two different entries, so route ranking never decides |
| Router.FindsMatchingRoute | src/main.jsx:17-58 | a location matching an entry is resolved through that entry |
| Router.PathReachesOwnRoute | src/main.jsx:17-58 | each entry's path matches its own pattern and resolves to that entry |
| Router.BookDetailPattern | src/main.jsx:26-29 | `/book/:id` matches exactly `/book/` followed by a non-empty piece without a slash |
| Router.PublicForEveryone | src/main.jsx:18-45 | a location matching an unguarded entry shows that page to every session, including a signed-in one whose context holds no user |
| Router.GuardedEntry | src/main.jsx:46-57 | visiting a guarded entry's own path gives exactly what the guard decides for the session |
| Router.SignedInWithoutUserFails | src/Context/ProtectedRoute.jsx:13 | signed in with no user in the context, each admin path fails to render |
| Router.SignedOutAdminToLogin | src/main.jsx:46-57 | signed out, each admin path redirects to `/login` with replace |
| Router.NonAdminAdminToHome | src/main.jsx:46-57 | signed in without the admin role, each admin path redirects to `/` with replace |
| Router.OnlyAdminsSeeAdminPages | src/main.jsx:46-57 | without an admin session no location shows an admin page; every redirect goes to `/login` when signed out and to `/` otherwise, and a failure happens only when signed in without a user |
| Router.AdminSeesEverything | src/main.jsx:17-58 | an admin session is never redirected and never fails, and each table path shows its own page |
| Router.CategoryManagementUnreachable | src/main.jsx:14 | the imported category screen is shown for no location and no session |
| Router.RedirectsLand | src/Context/ProtectedRoute.jsx:8-15 | both redirect targets are unguarded entries, so one redirect ends on the home or login page for any later session |
| Collections.Without | src/components/Admin/BookManagement.jsx:121 | the result keeps exactly the elements whose key differs from the removed one |
| Collections.WithoutAppend | src/components/Admin/BookManagement.jsx:121 | filtering distributes over concatenation, so the kept rows keep their order |
| Collections.WithoutNoMatch | src/components/Admin/AccountManagement.jsx:43 | deleting an id no row has leaves the list unchanged |
| Collections.WithoutAllMatch | src/components/Admin/AccountManagement.jsx:43 | when every row has the deleted id the list becomes empty |
| Collections.WithoutIdempotent | src/components/Admin/AccountManagement.jsx:43 | deleting the same id twice removes nothing more |
| Collections.ReplaceWhere | src/components/Admin/AccountManagement.jsx:56 | same length; each row with the key becomes the replacement and every other row is unchanged |
| Collections.ReplaceWhereNoMatch | src/components/Admin/AccountManagement.jsx:56 | an update whose id no row has leaves the list unchanged |
| Collections.ReplaceWhereIdempotent | src/components/Admin/BookManagement.jsx:188 | applying the same update twice changes nothing more |
| Collections.ReplaceWhereKeepsOthers | src/components/Admin/BookManagement.jsx:188 | when the replacement has the matched id, the rows with other ids are exactly the old ones in the old order |
| BookMapping.Lower | src/components/Admin/BookManagement.jsx:49 | same length, each character lowered on its own, and no capital ASCII letter left |
| BookMapping.Slug | src/components/Admin/BookManagement.jsx:49 | the slug is no longer than the author's name and contains no whitespace |
| BookMapping.CollapseSpaces | src/components/Admin/BookManagement.jsx:49 | replacing whitespace runs never lengthens the text, leaves no whitespace, and each character is a dash or comes from the input |
| BookMapping.CollapseSpacesNoSpace | src/components/Admin/BookManagement.jsx:49 | text without whitespace is left as it is |
| BookMapping.CollapseSpacesRun | src/components/Admin/BookManagement.jsx:49 | a non-empty whitespace run becomes one dash |
| BookMapping.CollapseSpacesAppend | src/components/Admin/BookManagement.jsx:49 | the replacement works piece by piece when no whitespace run crosses the cut |
| BookMapping.CollapseSpacesKeepsOrder | src/components/Admin/BookManagement.jsx:49 | apart from whitespace and dashes, the result has the same characters as the input in the same order |
| BookMapping.SlugIdempotent | src/components/Admin/BookManagement.jsx:141 | slugging a slug changes nothing |
| BookMapping.SlugOfA | src/components/Admin/BookManagement.jsx:49 | the author "A" gets the slug "a" |
| BookMapping.ShortDescription | src/components/Admin/BookManagement.jsx:62 | a prefix of the description of at most 100 characters: all of it when it is that short, exactly 100 characters otherwise |
| BookMapping.ParseFloat | src/components/Admin/BookManagement.jsx:147 | the result is always a number, and a number is kept as it is |
| BookMapping.HasTitleAndAuthor | src/components/Admin/BookManagement.jsx:37 | a draft passes exactly when the document made from it has a name and a named author; neither cleared form passes |
| BookMapping.BookToAdd | src/components/Admin/BookManagement.jsx:44-89 | the created document takes name, author, whitespace-free slug, categories, description, cover, the one cover image, short description and id from the draft, has zero sales and rating, and its three prices are the draft's price as typed |
| BookMapping.UpdatedBook | src/components/Admin/BookManagement.jsx:136-181 | the updated document has the same fields from the draft, and its three prices are the parsed price |
| BookMapping.Prefill | src/components/Admin/BookManagement.jsx:243-252 | the form carries the row's `_id` as its id and the document's id as its ISBN, and can be saved exactly when the row has a name and a first author with a name |
| BookMapping.CreateUpdateAgree | src/components/Admin/BookManagement.jsx:136-181 | the update document is the create document with only the three price fields replaced by the parsed price |
| BookMapping.PrefillAfterAdd | src/components/Admin/BookManagement.jsx:243-252 | editing a row created from a draft gives back that draft, with the row's `_id` as its id |
| BookMapping.PrefillAfterUpdate | src/components/Admin/BookManagement.jsx:243-252 | editing a row written by an update gives back the draft with the parsed price |
| BookMapping.UpdateKeepsRow | src/components/Admin/BookManagement.jsx:243-252 | saving an edited row without changes puts back the row's own document, with only the prices parsed |
| BookManagement.BookScreen.constructor | src/components/Admin/BookManagement.jsx:6-19 | empty list, empty form, both dialogs closed |
| BookManagement.BookScreen.FetchBooks | src/components/Admin/BookManagement.jsx:23-31 | sends `GET /books`; a successful answer replaces the list, a failure keeps it |
| BookManagement.BookScreen.AddBook | src/components/Admin/BookManagement.jsx:36-116 | without a title or an author nothing is sent and nothing changes; otherwise posts the create document to `/books`, and on success appends the created row, clears the form, closes the add dialog and starts a reload |
| BookManagement.BookScreen.DeleteBook | src/components/Admin/BookManagement.jsx:118-126 | sends `DELETE /books/<id>`; on success drops the rows whose `_id` is the id, on failure keeps the list |
| BookManagement.BookScreen.UpdateBook | src/components/Admin/BookManagement.jsx:128-207 | without a title or an author nothing is sent; otherwise puts the update document to `/books/<form id>`, and on success replaces the rows whose document id is the returned one, clears the form, closes the add dialog (not the edit dialog) and starts a reload |
| BookManagement.BookScreen.EditBook | src/components/Admin/BookManagement.jsx:241-254 | fills the form from the row and opens the edit dialog |
| BookManagement.BookScreen.OpenAddModal | src/components/Admin/BookManagement.jsx:270 | opens the add dialog |
| BookManagement.BookScreen.CloseAddModal | src/components/Admin/BookManagement.jsx:286 | closes the add dialog |
| BookManagement.BookScreen.CloseUpModal | src/components/Admin/BookManagement.jsx:408 | closes the edit dialog |
| BookManagement.EditThenSaveTwice | src/components/Admin/BookManagement.jsx:184-202 | editing a row and saving sends the update to `/books/<_id>`; the edit dialog stays open on a cleared form, so a second save sends nothing |
| AccountManagement.DraftComplete | src/components/Admin/AccountManagement.jsx:27 | the cleared form never passes the add handler's check |
| AccountManagement.AccountComplete | src/components/Admin/AccountManagement.jsx:50 | an edited account passes the update check exactly when the form it would fill passes the add check |
| AccountManagement.AccountScreen.constructor | src/components/Admin/AccountManagement.jsx:6-9 | empty list, empty form, nothing being edited, add dialog closed |
| AccountManagement.AccountScreen.FetchAccounts | src/components/Admin/AccountManagement.jsx:11-21 | sends `GET /users`; a successful answer replaces the list, a failure keeps it |
| AccountManagement.AccountScreen.AddAccount | src/components/Admin/AccountManagement.jsx:26-38 | without username, email and phone nothing is sent and nothing changes; otherwise posts the form to `/users/register`, and on success appends the returned account and clears the form, leaving the add dialog as it was |
| AccountManagement.AccountScreen.DeleteAccount | src/components/Admin/AccountManagement.jsx:40-47 | sends `DELETE /users/<id>`; on success drops the accounts with that id, on failure keeps the list |
| AccountManagement.AccountScreen.UpdateAccount | src/components/Admin/AccountManagement.jsx:49-61 | with an incomplete account nothing is sent; otherwise puts it to `/users/userId/<id>`, and on success replaces the accounts with that id by the answer and ends editing |
| AccountManagement.AccountScreen.EditAccount | src/components/Admin/AccountManagement.jsx:90 | starts editing the row, which shows the edit dialog |
| AccountManagement.AccountScreen.CancelEdit | src/components/Admin/AccountManagement.jsx:212 | ends editing, which hides the edit dialog |
| AccountManagement.AccountScreen.OpenAddModal | src/components/Admin/AccountManagement.jsx:112 | opens the add dialog |
| AccountManagement.AccountScreen.CloseAddModal | src/components/Admin/AccountManagement.jsx:128 | closes the add dialog |
| AccountManagement.BlankUsernameNotSent | src/components/Admin/AccountManagement.jsx:27-30 | a registration with an empty username sends nothing and leaves the list empty, whatever the server would answer |
| AccountManagement.DeleteFive | src/components/Admin/AccountManagement.jsx:40-47 | deleting id "5" from the accounts 1, 5, 7 leaves 1 and 7 in order |
| CategoryManagement.ParseIsLeaf | src/components/Admin/CategoryManagement.jsx:137 | reads true exactly for the option value the selector shows for a leaf |
| CategoryManagement.IsLeafRoundTrip | src/components/Admin/CategoryManagement.jsx:131-139 | the selector reads back the flag it displays |
| CategoryManagement.CategoryScreen.constructor | src/components/Admin/CategoryManagement.jsx:6-8 | empty list, an empty non-leaf form, dialog closed |
| CategoryManagement.CategoryScreen.FetchCategories | src/components/Admin/CategoryManagement.jsx:11-18 | sends `GET /categories`; a successful answer replaces the list, a failure keeps it |
| CategoryManagement.CategoryScreen.AddCategory | src/components/Admin/CategoryManagement.jsx:24-39 | without a name nothing is sent; otherwise posts the form to `/categories`, and on success clears the form, closes the dialog and starts a reload, never touching the list itself |
| CategoryManagement.CategoryScreen.DeleteCategory | src/components/Admin/CategoryManagement.jsx:41-49 | sends `DELETE /categories/<id>` and starts a reload exactly when it succeeds |
| CategoryManagement.CategoryScreen.SelectIsLeaf | src/components/Admin/CategoryManagement.jsx:134-138 | sets the leaf flag to whether the chosen value is "true", keeping the name |
| CategoryManagement.CategoryScreen.OpenAddModal | src/components/Admin/CategoryManagement.jsx:94 | opens the add dialog |
| CategoryManagement.CategoryScreen.CloseAddModal | src/components/Admin/CategoryManagement.jsx:110 | closes the add dialog |
| CategoryManagement.DeleteThenReload | src/components/Admin/CategoryManagement.jsx:41-49 | after a deletion and its reload the list is what the reload returned, or the old list when either request failed |

## Left out

- Network and `axios`: every request is a returned `Request` value, and its answer is
  an `Outcome` parameter. Headers, status codes and error payloads are not modelled.
- The back-end base URL (`VITE_APP_BE_URL`) is not modelled. Request paths are
  relative to it.
- Asynchrony: the reload a handler starts is reported as a flag and modelled as a
  separate `Fetch…` call. The model does not cover interleavings where the reload
  lands before or after the local append, or where two handlers race.
- `alert` and `console` output are not modelled. A refused form is `None`, a failed
  request leaves the state unchanged.
- BookMapping.ParseFloat: `parseFloat` is not evaluated. A parsed price is kept
  symbolically as `Number(text it came from)`.
- BookMapping.Lower: `toLowerCase` is modelled on ASCII letters only, and so is the
  lower-casing inside `BookMapping.Slug`. The whitespace class of `\s` is modelled
  in full.
- BookMapping.ShortDescription: `slice` counts UTF-16 code units, while the model
  counts Dafny characters. The two differ only for characters outside the Basic
  Multilingual Plane.
- Router.FindRoute: react-router's ranking is not modelled. Since no location matches
  two entries, ranking would not change the outcome.
- Router.Matches: case-insensitive matching, trailing-slash tolerance and the
  percent-decoding of the location are not modelled. Matching is exact, piece by
  piece, on the location as given. So `/%61dmin` reaches the guard in the browser but
  is `NotFound` in the model.
- The `UserContext` provider, login and logout are not modelled. The guard takes the
  session as parameters. A user is modelled by its role alone, so a user object
  without a `role` field is not covered.
- ProtectedRoute.Guard: the `TypeError` thrown for a signed-in context without a user
  is an outcome (`Throw`). What React then displays (an error boundary or an empty
  page) is not modelled.
- The fixed `current_seller` fields (store id, sku, name, link, logo, product id,
  flags) are not modelled. The model keeps only the seller's price.
- The draft keys `_id` and `publishedYear` are never read by the handlers and are not
  modelled.
- The input fields' `onChange` handlers for text inputs are not modelled. A scenario
  method (for example `AccountManagement.BlankUsernameNotSent`) assigns the draft
  directly. The leaf selector is modelled.
- JavaScript `undefined` (the first author of an empty authors list, a draft without
  `id` or `password`) is modelled as `""` or `None`. A PUT to a missing book id
  targets `/books/undefined`.
- BookMapping.Prefill / BookManagement.BookScreen.EditBook: rows are modelled as
  complete documents, so a row always has an `authors` list and a `description`. The
  source also lists rows without them. For a row without an `authors` key,
  `book.authors[0]?.name` (BookManagement.jsx:246) throws, so the form is not filled
  and the edit dialog does not open. For a row without a `description`, the form is
  filled, but the next add or update throws at `description.slice`
  (BookManagement.jsx:62 or 154) inside its `try`. It then shows its error alert and
  sends nothing. The model fills the form, opens the dialog and sends the request.
- The other screens (home, book detail, cart, payment, login, register, dashboard)
  appear only as route targets. Their contents are not part of this model.
