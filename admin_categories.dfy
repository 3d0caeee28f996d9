/** The admin categories page: the same dialog, request and list-update
    workflow as the products page, over categories with a single name field. */
module AdminCategories {

  import opened Wrappers
  import opened AdminLists

  datatype Category = Category(id: string, name: string, createdAt: string)

  function CategoryId(c: Category): string { c.id }

  const Collection := "/api/categories"

  /** The JSON body of a submit: `{ name }`. */
  datatype CategoryBody = CategoryBody(name: string)

  /** Editing a category and deleting it address the same URL under the
      categories collection; creating addresses the collection itself. */
  lemma CategoryRequests(id: string)
    ensures SubmitRequest(Collection, Some(id)) == Request("PUT", "/api/categories/" + id)
    ensures DeleteRequest(Collection, id) == Request("DELETE", "/api/categories/" + id)
    ensures SubmitRequest(Collection, None) == Request("POST", "/api/categories")
  {
  }

  class CategoriesPage {
    var categories: seq<Category>
    var isDialogOpen: bool
    var editing: Option<Category>
    var name: string

    constructor()
      ensures categories == [] && !isDialogOpen && editing == None && name == ""
    {
      categories := [];
      isDialogOpen := false;
      editing := None;
      name := "";
    }

    /** `resetForm` */
    method ResetForm()
      modifies this`name, this`editing
      ensures name == "" && editing == None
    {
      name := "";
      editing := None;
    }

    /** `handleOpenDialog(category?)` */
    method OpenDialog(category: Option<Category>)
      modifies this`name, this`editing, this`isDialogOpen
      ensures isDialogOpen && editing == category
      ensures name == if category.Some? then category.value.name else ""
    {
      if category.Some? {
        editing := category;
        name := category.value.name;
      } else {
        ResetForm();
      }
      isDialogOpen := true;
    }

    /** `handleCloseDialog` */
    method CloseDialog()
      modifies this`name, this`editing, this`isDialogOpen
      ensures !isDialogOpen && name == "" && editing == None
    {
      isDialogOpen := false;
      ResetForm();
    }

    /** `handleSubmit`: `result` is the category the server answered with,
        `None` when the request failed. */
    method Submit(result: Option<Category>) returns (request: Request, body: CategoryBody)
      modifies this`categories, this`name, this`editing, this`isDialogOpen
      ensures request == SubmitRequest(Collection, if old(editing).Some? then Some(old(editing).value.id) else None)
      ensures body == CategoryBody(old(name))
      ensures result.None? ==>
                categories == old(categories) && name == old(name) && editing == old(editing)
                && isDialogOpen == old(isDialogOpen)
      ensures result.Some? && old(editing).Some? ==>
                categories == Replace(old(categories), CategoryId, old(editing).value.id, result.value)
      ensures result.Some? && old(editing).None? ==> categories == Append(old(categories), result.value)
      ensures result.Some? ==> !isDialogOpen && name == "" && editing == None
    {
      request := SubmitRequest(Collection, if editing.Some? then Some(editing.value.id) else None);
      body := CategoryBody(name);
      if result.None? {
        return;
      }
      if editing.Some? {
        categories := Replace(categories, CategoryId, editing.value.id, result.value);
      } else {
        categories := Append(categories, result.value);
      }
      CloseDialog();
    }

    /** `handleDelete(categoryId)`: `ok` is whether the server accepted. */
    method Delete(categoryId: string, ok: bool) returns (request: Request)
      modifies this`categories
      ensures request == DeleteRequest(Collection, categoryId)
      ensures ok ==> categories == Remove(old(categories), CategoryId, categoryId)
      ensures !ok ==> categories == old(categories)
    {
      request := DeleteRequest(Collection, categoryId);
      if ok {
        categories := Remove(categories, CategoryId, categoryId);
      }
    }
  }
}
