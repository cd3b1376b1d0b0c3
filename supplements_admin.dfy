/**
 * The admin page that lists the active supplements five to a page and edits
 * them in a form: the page arithmetic, the slice of the list a page shows,
 * the Previous/Next guards, and the state the handlers update. The requests
 * themselves are returned as values; their replies are parameters.
 */
module SupplementsAdmin {
  import opened Wrappers
  import opened JsValues

  /** `ITEMS_PER_PAGE`. */
  const ItemsPerPage: nat := 5

  function Min(a: int, b: int): int { if a <= b then a else b }

  /** `Math.ceil(n / ITEMS_PER_PAGE)`: the fewest pages of five that hold `n` items. */
  function TotalPages(n: nat): (r: nat)
    ensures n <= r * ItemsPerPage
    ensures r == 0 || (r - 1) * ItemsPerPage < n
    ensures r == 0 <==> n == 0
  {
    (n + ItemsPerPage - 1) / ItemsPerPage
  }

  /** An index given to `Array.prototype.slice`: a negative one counts from the end; both are clamped to the array. */
  function SliceIndex(i: int, n: nat): (r: nat)
    ensures r <= n
    ensures 0 <= i ==> r == Min(i, n)
  {
    if i < 0 then (if n + i < 0 then 0 else n + i) else Min(i, n)
  }

  /** `items.slice(start, end)`. */
  function JsSlice<T>(items: seq<T>, start: int, end: int): seq<T>
  {
    var a, b := SliceIndex(start, |items|), SliceIndex(end, |items|);
    if a >= b then [] else items[a..b]
  }

  /** `paginatedSupplements` for page `page`. */
  function PageItems<T>(items: seq<T>, page: int): seq<T>
  {
    JsSlice(items, (page - 1) * ItemsPerPage, page * ItemsPerPage)
  }

  /**
   * From page 1 on, a page is the run of at most five items that starts at
   * item `(page - 1) * 5`; it is empty exactly when it lies past the last page.
   */
  lemma PageItemsWindow<T>(items: seq<T>, page: int)
    requires 1 <= page
    ensures (page - 1) * ItemsPerPage <= |items| ==>
              PageItems(items, page) == items[(page - 1) * ItemsPerPage .. Min(page * ItemsPerPage, |items|)]
    ensures |PageItems(items, page)| <= ItemsPerPage
    ensures |PageItems(items, page)| > 0 <==> page <= TotalPages(|items|)
  {
  }

  /** Every page from 1 to the last, in order. */
  function AllPages<T>(items: seq<T>): (r: seq<seq<T>>)
    ensures |r| == TotalPages(|items|)
  {
    seq(TotalPages(|items|), i requires 0 <= i => PageItems(items, i + 1))
  }

  function Concat<T>(pages: seq<seq<T>>): seq<T>
  {
    if pages == [] then [] else Concat(pages[..|pages| - 1]) + pages[|pages| - 1]
  }

  lemma {:induction false} PagesPrefix<T>(items: seq<T>, k: nat)
    requires k <= TotalPages(|items|)
    ensures Concat(AllPages(items)[..k]) == items[..Min(k * ItemsPerPage, |items|)]
  {
    if k > 0 {
      var pages := AllPages(items);
      PagesPrefix(items, k - 1);
      assert pages[..k][..k - 1] == pages[..k - 1];
      PageItemsWindow(items, k);
      var lo, hi := (k - 1) * ItemsPerPage, Min(k * ItemsPerPage, |items|);
      assert Min((k - 1) * ItemsPerPage, |items|) == lo;
      assert items[..hi] == items[..lo] + items[lo..hi];
    }
  }

  /** The pages partition the list: read one after the other, they are the list. */
  lemma PagesPartition<T>(items: seq<T>)
    ensures Concat(AllPages(items)) == items
  {
    var pages := AllPages(items);
    PagesPrefix(items, |pages|);
    assert pages[..|pages|] == pages;
  }

  /** The pagination bar is drawn only while the form is hidden and there is more than one page. */
  predicate ControlsShown(showForm: bool, total: nat) { !showForm && total > 1 }

  /** `disabled={currentPage === 1}`. */
  predicate PreviousDisabled(page: int) { page == 1 }

  /** `disabled={currentPage === totalPages}`. */
  predicate NextDisabled(page: int, total: nat) { page == total }

  /** The edit form: four fields, typed in as strings or copied from a supplement. */
  datatype Form = Form(name: Json, productLink: Json, dosage: Json, description: Json)

  const EmptyForm := Form(Str(""), Str(""), Str(""), Str(""))

  datatype FormField = Name | ProductLink | Dosage | Description

  /** `x || ""`. */
  function OrEmpty(x: Json): (r: Json)
    ensures Truthy(x) ==> r == x
    ensures !Truthy(x) ==> r == Str("")
  {
    if Truthy(x) then x else Str("")
  }

  /** The form `handleEditClick` fills from a supplement. */
  function FormOf(supp: Json): (f: Form)
    ensures f.name == OrEmpty(Get(supp, "name")) && f.productLink == OrEmpty(Get(supp, "productLink"))
    ensures f.dosage == OrEmpty(Get(supp, "dosage")) && f.description == OrEmpty(Get(supp, "description"))
  {
    Form(OrEmpty(Get(supp, "name")), OrEmpty(Get(supp, "productLink")),
         OrEmpty(Get(supp, "dosage")), OrEmpty(Get(supp, "description")))
  }

  /** A field missing from the supplement, or empty, is an empty string in the form, and never undefined. */
  lemma FormOfFallsBack(supp: Json)
    ensures !Truthy(Get(supp, "name")) ==> FormOf(supp).name == Str("")
    ensures !supp.Obj? ==> FormOf(supp) == EmptyForm
    ensures FormOf(supp).name != Undefined && FormOf(supp).productLink != Undefined
    ensures FormOf(supp).dosage != Undefined && FormOf(supp).description != Undefined
  {
  }

  /** `{ ...form, [field]: value }`. */
  function WithField(f: Form, field: FormField, value: string): (r: Form)
    ensures field == Name ==> r == f.(name := Str(value))
    ensures field == ProductLink ==> r == f.(productLink := Str(value))
    ensures field == Dosage ==> r == f.(dosage := Str(value))
    ensures field == Description ==> r == f.(description := Str(value))
  {
    match field
    case Name => f.(name := Str(value))
    case ProductLink => f.(productLink := Str(value))
    case Dosage => f.(dosage := Str(value))
    case Description => f.(description := Str(value))
  }

  /** The requests the page sends. */
  datatype Request =
    | Update(id: Json, body: Form)   // PUT /supplements/update/{id}
    | Add(body: Form)                // POST /supplements/add_supplement
    | Remove(id: Json)               // DELETE /supplements/delete/{id}

  /** The request `handleSubmit` sends for the form. */
  function SubmitRequest(editId: Json, form: Form): (r: Request)
    ensures r.Update? <==> Truthy(editId)
    ensures r.Add? <==> !Truthy(editId)
    ensures r.Update? ==> r.id == editId
    ensures r.body == form
  {
    if Truthy(editId) then Update(editId, form) else Add(form)
  }

  /** What the table body shows. */
  datatype TableBody = LoadingRow | NoSupplementsRow | Rows(items: seq<Json>)

  function TableBodyOf(loading: bool, shown: seq<Json>): (r: TableBody)
    ensures loading ==> r == LoadingRow
    ensures !loading && shown == [] ==> r == NoSupplementsRow
    ensures !loading && shown != [] ==> r == Rows(shown)
  {
    if loading then LoadingRow else if shown == [] then NoSupplementsRow else Rows(shown)
  }

  /** Suppliments.tsx: the component's state. */
  class SupplementsPage {
    var supplements: seq<Json>
    var loading: bool
    var showForm: bool
    var editId: Json
    var form: Form
    var currentPage: int

    /** The page is one of the list's pages, or page 1 of an empty list. */
    ghost predicate Valid()
      reads this
    {
      1 <= currentPage && (currentPage == 1 || currentPage <= TotalPages(|supplements|))
    }

    constructor ()
      ensures Valid()
      ensures supplements == [] && loading && !showForm && editId == Null
      ensures form == EmptyForm && currentPage == 1
    {
      supplements := [];
      loading := true;
      showForm := false;
      editId := Null;
      form := EmptyForm;
      currentPage := 1;
    }

    function Total(): (r: nat)
      reads this
      ensures r == TotalPages(|supplements|)
    {
      TotalPages(|supplements|)
    }

    /** The rows of the current page. */
    function Shown(): seq<Json>
      reads this
    {
      PageItems(supplements, currentPage)
    }

    /** On a valid page of a list that is not empty, one to five rows are drawn. */
    lemma ShownIsFull()
      requires Valid()
      ensures |Shown()| <= ItemsPerPage
      ensures supplements != [] <==> Shown() != []
      ensures supplements != [] ==> Shown() == supplements[(currentPage - 1) * ItemsPerPage .. Min(currentPage * ItemsPerPage, |supplements|)]
    {
      PageItemsWindow(supplements, currentPage);
    }

    /**
     * `fetchSupplements`, with the reply as a parameter: a list replaces the
     * supplements and goes back to page 1; a failure keeps them. Either way
     * the spinner stops.
     */
    method Fetch(reply: Option<seq<Json>>)
      modifies this
      requires Valid()
      ensures Valid()
      ensures reply.Some? ==> supplements == reply.value && currentPage == 1
      ensures reply.None? ==> supplements == old(supplements) && currentPage == old(currentPage)
      ensures !loading
      ensures showForm == old(showForm) && editId == old(editId) && form == old(form)
    {
      loading := true;
      if reply.Some? {
        supplements := reply.value;
        currentPage := 1;
      }
      loading := false;
    }

    /** `handleChange`: one field takes the typed value. */
    method Change(field: FormField, value: string)
      modifies this
      requires Valid()
      ensures Valid()
      ensures form == WithField(old(form), field, value)
      ensures supplements == old(supplements) && currentPage == old(currentPage) && loading == old(loading)
      ensures showForm == old(showForm) && editId == old(editId)
    {
      form := WithField(form, field, value);
    }

    /** `handleAddClick`, behind the Add button that only the hidden form shows: an empty form for a new supplement. */
    method AddClick()
      modifies this
      requires Valid() && !showForm
      ensures Valid()
      ensures editId == Null && form == EmptyForm && showForm
      ensures supplements == old(supplements) && currentPage == old(currentPage) && loading == old(loading)
    {
      editId := Null;
      form := EmptyForm;
      showForm := true;
    }

    /** `handleEditClick`, from a table row (the table is drawn only while the form is hidden): the form holds the supplement's fields and remembers its id. */
    method EditClick(supp: Json)
      modifies this
      requires Valid() && !showForm
      ensures Valid()
      ensures editId == Get(supp, "id") && form == FormOf(supp) && showForm
      ensures supplements == old(supplements) && currentPage == old(currentPage) && loading == old(loading)
    {
      editId := Get(supp, "id");
      form := Form(OrEmpty(Get(supp, "name")), OrEmpty(Get(supp, "productLink")),
                   OrEmpty(Get(supp, "dosage")), OrEmpty(Get(supp, "description")));
      showForm := true;
    }

    /** `handleCancel`: hide the form, forget the supplement being edited, empty the fields. */
    method Cancel()
      modifies this
      requires Valid()
      ensures Valid()
      ensures !showForm && editId == Null && form == EmptyForm
      ensures supplements == old(supplements) && currentPage == old(currentPage) && loading == old(loading)
    {
      showForm := false;
      editId := Null;
      form := EmptyForm;
    }

    /**
     * `handleSubmit`, with the outcome of the request as a parameter: it
     * returns the request sent, an update when a supplement is being edited
     * and an addition otherwise. On success the form is cancelled (the
     * page then fetches the list again, which is `Fetch`); on failure
     * nothing changes.
     */
    method Submit(succeeded: bool) returns (sent: Request)
      modifies this
      requires Valid()
      ensures Valid()
      ensures sent == SubmitRequest(old(editId), old(form))
      ensures succeeded ==> !showForm && editId == Null && form == EmptyForm
      ensures !succeeded ==> showForm == old(showForm) && editId == old(editId) && form == old(form)
      ensures supplements == old(supplements) && currentPage == old(currentPage) && loading == old(loading)
    {
      if Truthy(editId) {
        sent := Update(editId, form);
      } else {
        sent := Add(form);
      }
      if succeeded {
        Cancel();
      }
    }

    /** `handleDelete`, from a table row: the request sent; the list changes only through the `Fetch` that follows. */
    method Delete(id: Json) returns (sent: Request)
      requires Valid() && !showForm
      ensures sent == Remove(id)
    {
      sent := Remove(id);
    }

    /** A click on Previous: the button exists only while the form is hidden and with more than one page, and is disabled on page 1. */
    method PreviousClick()
      modifies this
      requires Valid()
      ensures Valid()
      ensures ControlsShown(showForm, Total()) && !PreviousDisabled(old(currentPage)) ==> currentPage == old(currentPage) - 1
      ensures !ControlsShown(showForm, Total()) || PreviousDisabled(old(currentPage)) ==> currentPage == old(currentPage)
      ensures supplements == old(supplements) && loading == old(loading)
      ensures showForm == old(showForm) && editId == old(editId) && form == old(form)
    {
      if ControlsShown(showForm, TotalPages(|supplements|)) && currentPage != 1 {
        currentPage := currentPage - 1;
      }
    }

    /** A click on Next: the button exists only while the form is hidden and with more than one page, and is disabled on the last one. */
    method NextClick()
      modifies this
      requires Valid()
      ensures Valid()
      ensures ControlsShown(showForm, Total()) && !NextDisabled(old(currentPage), Total()) ==> currentPage == old(currentPage) + 1
      ensures !ControlsShown(showForm, Total()) || NextDisabled(old(currentPage), Total()) ==> currentPage == old(currentPage)
      ensures supplements == old(supplements) && loading == old(loading)
      ensures showForm == old(showForm) && editId == old(editId) && form == old(form)
    {
      if ControlsShown(showForm, TotalPages(|supplements|)) && currentPage != TotalPages(|supplements|) {
        currentPage := currentPage + 1;
      }
    }

    /** What the table body shows now. */
    function Body(): (r: TableBody)
      reads this
      ensures r == TableBodyOf(loading, Shown())
    {
      TableBodyOf(loading, PageItems(supplements, currentPage))
    }
  }

  /** Page `p` of a list has a Next button that works exactly when there is a page after it. */
  lemma NavigationGuards(n: nat, page: int, showForm: bool)
    requires 1 <= page && (page == 1 || page <= TotalPages(n))
    ensures ControlsShown(showForm, TotalPages(n)) && !NextDisabled(page, TotalPages(n)) <==> !showForm && page + 1 <= TotalPages(n)
    ensures ControlsShown(showForm, TotalPages(n)) && !PreviousDisabled(page) <==> !showForm && TotalPages(n) > 1 && page >= 2
  {
  }
}
