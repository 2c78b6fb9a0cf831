/** The account screen's state and handlers. Unlike the book screen it never reloads:
    every successful call is folded into the local list directly. */
module AccountManagement {
  import opened Http
  import opened Collections

  /** A row of the account list. */
  datatype Account = Account(id: string, username: string, email: string, phone: string, password: string)

  /** The `newAccount` form; `password` is absent until typed into, and again after a
      successful add clears the form. */
  datatype AccountDraft = AccountDraft(username: string, email: string, phone: string, password: Option<string>)

  const EmptyAccountDraft := AccountDraft("", "", "", None)

  /** The add handler's check; the password is not looked at, and the cleared form
      always fails it. */
  predicate DraftComplete(d: AccountDraft)
    ensures DraftComplete(d) ==> d != EmptyAccountDraft
  {
    d.username != "" && d.email != "" && d.phone != ""
  }

  /** The form an account would fill. */
  function AsDraft(a: Account): AccountDraft {
    AccountDraft(a.username, a.email, a.phone, Some(a.password))
  }

  /** The update handler's check on the account being edited: the same rule the add
      handler applies to a form. */
  predicate AccountComplete(a: Account)
    ensures AccountComplete(a) <==> DraftComplete(AsDraft(a))
  {
    a.username != "" && a.email != "" && a.phone != ""
  }

  /** The key both the delete and the update handler compare: the account's `id`. */
  function AccountId(a: Account): string {
    a.id
  }

  class AccountScreen {
    var accounts: seq<Account>
    var newAccount: AccountDraft
    var editingAccount: Option<Account>
    var showAddModal: bool

    constructor ()
      ensures accounts == [] && newAccount == EmptyAccountDraft
      ensures editingAccount == None && !showAddModal
    {
      accounts := [];
      newAccount := EmptyAccountDraft;
      editingAccount := None;
      showAddModal := false;
    }

    /** Whether the edit dialog is on screen: exactly while an account is being edited. */
    predicate EditModalShown()
      reads this
    {
      editingAccount.Some?
    }

    /** `fetchAccounts`: a successful list replaces the accounts wholesale. */
    method FetchAccounts(response: Outcome<seq<Account>>) returns (request: Request<AccountDraft>)
      modifies this`accounts
      ensures request == Get("/users")
      ensures accounts == if response.Ok? then response.data else old(accounts)
    {
      request := Get("/users");
      if response.Ok? {
        accounts := response.data;
      }
    }

    /** `handleAddAccount`: registers the form; on success appends the returned account
        and clears the form, leaving the add dialog as it was. */
    method AddAccount(response: Outcome<Account>) returns (request: Option<Request<AccountDraft>>)
      modifies this`accounts, this`newAccount
      ensures request == if DraftComplete(old(newAccount))
        then Some(Post("/users/register", old(newAccount))) else None
      ensures DraftComplete(old(newAccount)) && response.Ok? ==>
        (accounts == old(accounts) + [response.data] && newAccount == EmptyAccountDraft)
      ensures !(DraftComplete(old(newAccount)) && response.Ok?) ==>
        (accounts == old(accounts) && newAccount == old(newAccount))
      ensures showAddModal == old(showAddModal)
    {
      if !DraftComplete(newAccount) {
        return None;
      }
      request := Some(Post("/users/register", newAccount));
      if response.Ok? {
        accounts := accounts + [response.data];
        newAccount := EmptyAccountDraft;
      }
    }

    /** `handleDeleteAccount`: on success drops every account with that `id`. */
    method DeleteAccount(id: string, response: Outcome<()>) returns (request: Request<AccountDraft>)
      modifies this`accounts
      ensures request == Delete("/users/" + id)
      ensures accounts == if response.Ok? then Without(old(accounts), AccountId, id) else old(accounts)
    {
      request := Delete("/users/" + id);
      if response.Ok? {
        accounts := Without(accounts, AccountId, id);
      }
    }

    /** `handleUpdateAccount`, reachable only from the edit dialog, that is while an
        account is being edited: puts it; on success replaces the accounts with its `id`
        by the returned one and closes the dialog. */
    method UpdateAccount(response: Outcome<Account>) returns (request: Option<Request<Account>>)
      requires editingAccount.Some?
      modifies this`accounts, this`editingAccount
      ensures var e := old(editingAccount).value;
        request == if AccountComplete(e)
          then Some(Put("/users/userId/" + e.id, e)) else None
      ensures var e := old(editingAccount).value;
        AccountComplete(e) && response.Ok? ==>
          (accounts == ReplaceWhere(old(accounts), AccountId, e.id, response.data)
           && editingAccount == None)
      ensures !(AccountComplete(old(editingAccount).value) && response.Ok?) ==>
        (accounts == old(accounts) && editingAccount == old(editingAccount))
    {
      var e := editingAccount.value;
      if !AccountComplete(e) {
        return None;
      }
      request := Some(Put("/users/userId/" + e.id, e));
      if response.Ok? {
        accounts := ReplaceWhere(accounts, AccountId, e.id, response.data);
        editingAccount := None;
      }
    }

    /** The row's "edit" button: the row becomes the account being edited. */
    method EditAccount(a: Account)
      modifies this`editingAccount
      ensures editingAccount == Some(a) && EditModalShown()
    {
      editingAccount := Some(a);
    }

    /** The edit dialog's close and cancel buttons. */
    method CancelEdit()
      modifies this`editingAccount
      ensures editingAccount == None && !EditModalShown()
    {
      editingAccount := None;
    }

    method OpenAddModal()
      modifies this`showAddModal
      ensures showAddModal
    {
      showAddModal := true;
    }

    method CloseAddModal()
      modifies this`showAddModal
      ensures !showAddModal
    {
      showAddModal := false;
    }
  }

  /** A registration with an empty username is refused before any request is sent,
      whatever the server would have answered. */
  method BlankUsernameNotSent(email: string, phone: string, response: Outcome<Account>)
    returns (request: Option<Request<AccountDraft>>, accounts: seq<Account>)
    ensures request == None && accounts == []
  {
    var screen := new AccountScreen();
    screen.newAccount := AccountDraft("", email, phone, None);
    request := screen.AddAccount(response);
    accounts := screen.accounts;
  }

  /** Deleting the account with id "5" from three accounts keeps the other two in order. */
  method DeleteFive(a: Account, b: Account, c: Account) returns (accounts: seq<Account>)
    requires a.id == "1" && b.id == "5" && c.id == "7"
    ensures accounts == [a, c]
  {
    var screen := new AccountScreen();
    var _ := screen.FetchAccounts(Ok([a, b, c]));
    var _ := screen.DeleteAccount("5", Ok(()));
    accounts := screen.accounts;
    assert [a, b, c][1..] == [b, c] && [b, c][1..] == [c] && [c][1..] == [];
    assert Without([c], AccountId, "5") == [c];
    assert Without([b, c], AccountId, "5") == [c];
  }
}
