/** The category screen's state and handlers. It never edits its list locally: adding
    and deleting only ask for a reload, and the reload alone replaces the list. */
module CategoryManagement {
  import opened Http

  /** A row of the category list, with the server's `_id`. */
  datatype Category = Category(oid: string, name: string, isLeaf: bool)

  /** The `newCategory` form. */
  datatype CategoryDraft = CategoryDraft(name: string, isLeaf: bool)

  const EmptyCategoryDraft := CategoryDraft("", false)

  /** The value the leaf selector shows for a flag (React renders `value={flag}` as text). */
  function OptionValue(isLeaf: bool): string {
    if isLeaf then "true" else "false"
  }

  /** How the selector's change handler reads the chosen option: only the exact text
      the selector shows for a leaf reads as one. */
  function ParseIsLeaf(value: string): (r: bool)
    ensures r <==> value == OptionValue(true)
  {
    value == "true"
  }

  /** Reading back the option shown for a flag gives the flag. */
  lemma IsLeafRoundTrip(isLeaf: bool)
    ensures ParseIsLeaf(OptionValue(isLeaf)) == isLeaf
  {
  }

  class CategoryScreen {
    var categories: seq<Category>
    var newCategory: CategoryDraft
    var showAddModal: bool

    constructor ()
      ensures categories == [] && newCategory == EmptyCategoryDraft && !showAddModal
    {
      categories := [];
      newCategory := EmptyCategoryDraft;
      showAddModal := false;
    }

    /** `fetchCategories`: a successful list replaces the categories wholesale. */
    method FetchCategories(response: Outcome<seq<Category>>) returns (request: Request<CategoryDraft>)
      modifies this`categories
      ensures request == Get("/categories")
      ensures categories == if response.Ok? then response.data else old(categories)
    {
      request := Get("/categories");
      if response.Ok? {
        categories := response.data;
      }
    }

    /** `handleAddCategory`: posts the form; on success clears it, closes the dialog
        and starts a reload. The list itself is not touched. */
    method AddCategory(response: Outcome<()>) returns (request: Option<Request<CategoryDraft>>, reload: bool)
      modifies this`newCategory, this`showAddModal
      ensures request == if old(newCategory).name != ""
        then Some(Post("/categories", old(newCategory))) else None
      ensures reload <==> old(newCategory).name != "" && response.Ok?
      ensures reload ==> (newCategory == EmptyCategoryDraft && !showAddModal)
      ensures !reload ==> (newCategory == old(newCategory) && showAddModal == old(showAddModal))
      ensures categories == old(categories)
    {
      if newCategory.name == "" {
        return None, false;
      }
      request := Some(Post("/categories", newCategory));
      reload := false;
      if response.Ok? {
        newCategory := EmptyCategoryDraft;
        showAddModal := false;
        reload := true;
      }
    }

    /** `handleDeleteCategory`: on success starts a reload; the list is not touched. */
    method DeleteCategory(id: string, response: Outcome<()>) returns (request: Request<CategoryDraft>, reload: bool)
      ensures request == Delete("/categories/" + id)
      ensures reload <==> response.Ok?
    {
      request := Delete("/categories/" + id);
      reload := response.Ok?;
    }

    /** The leaf selector's change handler. */
    method SelectIsLeaf(value: string)
      modifies this`newCategory
      ensures newCategory == old(newCategory).(isLeaf := value == "true")
    {
      newCategory := newCategory.(isLeaf := ParseIsLeaf(value));
    }

    method OpenAddModal()
      modifies this`showAddModal
      ensures showAddModal
    {
      showAddModal := true;
    }

    method CloseAddModal()
      modifies this`showAddModal
      ensures !showAddModal
    {
      showAddModal := false;
    }
  }

  /** A deletion followed by its reload: the list shown is exactly what the reload
      returned, or the old list when the deletion or the reload failed. */
  method DeleteThenReload(before: seq<Category>, id: string, deleted: Outcome<()>,
                          reloaded: Outcome<seq<Category>>)
    returns (after: seq<Category>)
    ensures after == if deleted.Ok? && reloaded.Ok? then reloaded.data else before
  {
    var screen := new CategoryScreen();
    var _ := screen.FetchCategories(Ok(before));
    var _, reload := screen.DeleteCategory(id, deleted);
    if reload {
      var _ := screen.FetchCategories(reloaded);
    }
    after := screen.categories;
  }
}
