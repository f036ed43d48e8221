/** The customer page: the customers of the current page, a search over
    them, an edit form, a delete confirmation and the Previous/Next pager. */
module UserPage {
  import opened Outcomes
  import opened Text
  import opened JsValues
  import opened IdLists
  import UserRoute

  datatype Customer = Customer(id: string, name: string, phone: string, status: string)

  function IdOf(c: Customer): string {
    c.id
  }

  // ---------------------------------------------------------------------------
  // Search

  /** The name or the id holds the query, letters compared without case. */
  predicate NameOrIdMatches(c: Customer, query: string) {
    Includes(Lower(c.name), Lower(query)) || Includes(Lower(c.id), Lower(query))
  }

  /** The test of `filteredCustomers`: name and id without case, the phone as written. */
  predicate Matches(c: Customer, query: string) {
    Includes(Lower(c.name), Lower(query)) || Includes(c.phone, query) || Includes(Lower(c.id), Lower(query))
  }

  /** `customers.filter(...)`: the customers the query matches, in their order. */
  function FilteredCustomers(customers: seq<Customer>, query: string): (r: seq<Customer>)
    ensures SubsequenceOf(r, customers)
    ensures forall i :: 0 <= i < |r| ==> Matches(r[i], query)
  {
    var keep := c => Matches(c, query);
    FilterSpec(customers, keep);
    Filter(customers, keep)
  }

  /** A customer matches exactly when the lower-cased query occurs at some
      position of the lower-cased name or id, or the query as typed occurs in
      the phone number. */
  lemma MatchesIff(c: Customer, query: string)
    ensures Matches(c, query) <==>
      (exists i :: OccursAt(Lower(c.name), Lower(query), i))
      || (exists i :: OccursAt(c.phone, query, i))
      || (exists i :: OccursAt(Lower(c.id), Lower(query), i))
  {
    IncludesIff(Lower(c.name), Lower(query));
    IncludesIff(c.phone, query);
    IncludesIff(Lower(c.id), Lower(query));
  }

  /** The case of the query's letters does not matter for names and ids. */
  lemma NameOrIdIgnoresCase(c: Customer, query: string)
    ensures NameOrIdMatches(c, query) <==> NameOrIdMatches(c, Lower(query))
    ensures NameOrIdMatches(c, query) ==> Matches(c, query) && Matches(c, Lower(query))
  {
    LowerIdempotent(query);
  }

  /** A customer is listed exactly when it is one of the customers and matches. */
  lemma FilteredMembers(customers: seq<Customer>, query: string, c: Customer)
    ensures c in FilteredCustomers(customers, query) <==> c in customers && Matches(c, query)
  {
    FilterMembers(customers, c => Matches(c, query), c);
  }

  /** An empty search lists every customer. */
  lemma EmptyQueryKeepsAll(customers: seq<Customer>)
    ensures FilteredCustomers(customers, "") == customers
  {
    forall i | 0 <= i < |customers| ensures Matches(customers[i], "") {
      IncludesEmpty(Lower(customers[i].name));
    }
    FilterAll(customers, c => Matches(c, ""));
  }

  // ---------------------------------------------------------------------------
  // Pager

  /** Previous: `Math.max(p - 1, 1)`. */
  function PreviousPage(p: int): (r: int)
    ensures r >= 1
    ensures p >= 1 ==> r <= p
    ensures p > 1 ==> r == p - 1
  {
    if p - 1 > 1 then p - 1 else 1
  }

  /** Next as written: `Math.min(p + 1, totalPages)`. */
  function NextPageAsWritten(p: int, totalPages: int): int {
    if p + 1 < totalPages then p + 1 else totalPages
  }

  /** For an empty customer list the route answers totalPages 0; Next is
      then enabled on page 1 (1 !== 0) and takes the page to 0. */
  lemma NextLeavesFirstPage()
    ensures UserRoute.TotalPages(Num(0), Some(10)) == Some(0)
    ensures NextPageAsWritten(1, 0) == 0
  {
  }

  /** Next kept within the pages there are: also at least 1. */
  function NextPage(p: int, totalPages: int): (r: int)
    ensures r >= 1
    ensures r <= if totalPages > 1 then totalPages else 1
    ensures 1 <= p < totalPages ==> r == p + 1
  {
    var n := if p + 1 < totalPages then p + 1 else totalPages;
    if n > 1 then n else 1
  }

  /** Next never lowers a page that is in range, and never moves past the last page. */
  lemma NextPageMonotone(p: int, totalPages: int)
    requires 1 <= p <= totalPages
    ensures p <= NextPage(p, totalPages) <= totalPages
    ensures NextPage(p, totalPages) == p <==> p == totalPages
  {
  }

  // ---------------------------------------------------------------------------
  // The page state

  const BlankCustomer := Customer("", "", "", "active")

  class UserPage {
    var customers: seq<Customer>
    var loading: bool
    var error: Option<string>
    var searchQuery: string
    var showForm: bool
    var editingId: Option<string>
    var editForm: Option<Customer>
    var showDeleteModal: bool
    var customerToDelete: Option<Customer>
    var page: int
    var limit: int
    var totalPages: int

    /** The first render: page 1 of 1, ten customers per page, nothing shown. */
    constructor ()
      ensures customers == [] && !loading && error.None? && searchQuery == ""
      ensures !showForm && editingId.None? && editForm.None?
      ensures !showDeleteModal && customerToDelete.None?
      ensures page == 1 && limit == 10 && totalPages == 1
    {
      customers := [];
      loading := false;
      error := None;
      searchQuery := "";
      showForm := false;
      editingId := None;
      editForm := None;
      showDeleteModal := false;
      customerToDelete := None;
      page := 1;
      limit := 10;
      totalPages := 1;
    }

    /** The customers the table shows. */
    function Shown(): seq<Customer>
      reads this
    {
      FilteredCustomers(customers, searchQuery)
    }

    /** The search input. */
    method Search(query: string)
      modifies this
      ensures searchQuery == query && customers == old(customers)
      ensures Shown() == FilteredCustomers(old(customers), query)
      ensures showForm == old(showForm) && editingId == old(editingId) && editForm == old(editForm)
      ensures showDeleteModal == old(showDeleteModal) && customerToDelete == old(customerToDelete)
      ensures page == old(page) && totalPages == old(totalPages) && loading == old(loading) && error == old(error) && limit == old(limit)
    {
      searchQuery := query;
    }

    /** `handleEdit`: open the form on a copy of the customer. */
    method Edit(c: Customer)
      modifies this
      ensures editingId == Some(c.id) && editForm == Some(c) && showForm
      ensures customers == old(customers) && searchQuery == old(searchQuery)
      ensures showDeleteModal == old(showDeleteModal) && customerToDelete == old(customerToDelete)
      ensures page == old(page) && totalPages == old(totalPages) && loading == old(loading) && error == old(error) && limit == old(limit)
    {
      editingId := Some(c.id);
      editForm := Some(c);
      showForm := true;
    }

    /** `handleSaveEdit`: without a form nothing happens; otherwise every
        customer with the id becomes the form, and the form closes. Nothing in
        it can throw, so its catch is never taken. */
    method SaveEdit(id: string)
      modifies this
      ensures old(editForm).None? ==>
                customers == old(customers) && editingId == old(editingId) && editForm == old(editForm)
                && showForm == old(showForm) && loading == old(loading)
      ensures old(editForm).Some? ==>
                customers == ReplaceById(old(customers), IdOf, id, old(editForm).value)
                && editingId.None? && editForm.None? && !showForm && !loading
      ensures searchQuery == old(searchQuery) && error == old(error)
      ensures showDeleteModal == old(showDeleteModal) && customerToDelete == old(customerToDelete)
      ensures page == old(page) && totalPages == old(totalPages) && limit == old(limit)
    {
      if editForm.None? {
        return;
      }
      loading := true;
      customers := ReplaceById(customers, IdOf, id, editForm.value);
      editingId := None;
      editForm := None;
      showForm := false;
      loading := false;
    }

    /** The form's save button: `handleSaveEdit(editForm?.id || '')`. */
    method ClickSave()
      modifies this
      ensures old(editForm).None? ==>
                customers == old(customers) && editingId == old(editingId) && editForm == old(editForm)
                && showForm == old(showForm) && loading == old(loading)
      ensures old(editForm).Some? ==>
                customers == ReplaceById(old(customers), IdOf, old(editForm).value.id, old(editForm).value)
                && editingId.None? && editForm.None? && !showForm && !loading
      ensures searchQuery == old(searchQuery) && error == old(error)
      ensures showDeleteModal == old(showDeleteModal) && customerToDelete == old(customerToDelete)
      ensures page == old(page) && totalPages == old(totalPages) && limit == old(limit)
    {
      var id := if editForm.Some? then editForm.value.id else "";
      SaveEdit(id);
    }

    /** `handleDelete`: select the first customer with the id (or none) and
        open the confirmation. */
    method Delete(id: string)
      modifies this
      ensures customerToDelete == FindById(old(customers), IdOf, id) && showDeleteModal
      ensures customers == old(customers) && searchQuery == old(searchQuery)
      ensures showForm == old(showForm) && editingId == old(editingId) && editForm == old(editForm)
      ensures page == old(page) && totalPages == old(totalPages) && loading == old(loading) && error == old(error) && limit == old(limit)
    {
      customerToDelete := FindById(customers, IdOf, id);
      showDeleteModal := true;
    }

    /** `confirmDelete`: with nothing selected nothing happens; otherwise every
        customer with the selected id goes and the confirmation closes. */
    method ConfirmDelete()
      modifies this
      ensures old(customerToDelete).None? ==>
                customers == old(customers) && showDeleteModal == old(showDeleteModal)
                && customerToDelete == old(customerToDelete) && loading == old(loading)
      ensures old(customerToDelete).Some? ==>
                customers == RemoveById(old(customers), IdOf, old(customerToDelete).value.id)
                && !showDeleteModal && customerToDelete.None? && !loading
      ensures searchQuery == old(searchQuery) && error == old(error)
      ensures showForm == old(showForm) && editingId == old(editingId) && editForm == old(editForm)
      ensures page == old(page) && totalPages == old(totalPages) && limit == old(limit)
    {
      if customerToDelete.None? {
        return;
      }
      loading := true;
      customers := RemoveById(customers, IdOf, customerToDelete.value.id);
      showDeleteModal := false;
      customerToDelete := None;
      loading := false;
    }

    /** The confirmation's cancel button. */
    method CloseDeleteModal()
      modifies this
      ensures !showDeleteModal && customerToDelete.None?
      ensures customers == old(customers) && searchQuery == old(searchQuery)
      ensures showForm == old(showForm) && editingId == old(editingId) && editForm == old(editForm)
      ensures page == old(page) && totalPages == old(totalPages) && loading == old(loading) && error == old(error) && limit == old(limit)
    {
      showDeleteModal := false;
      customerToDelete := None;
    }

    /** `handleCancel`: close the form. */
    method Cancel()
      modifies this
      ensures editingId.None? && editForm.None? && !showForm
      ensures customers == old(customers) && searchQuery == old(searchQuery)
      ensures showDeleteModal == old(showDeleteModal) && customerToDelete == old(customerToDelete)
      ensures page == old(page) && totalPages == old(totalPages) && loading == old(loading) && error == old(error) && limit == old(limit)
    {
      editingId := None;
      editForm := None;
      showForm := false;
    }

    /** The add button: a blank form with status "active", shown or hidden in turn. */
    method OpenAddForm()
      modifies this
      ensures editingId.None? && editForm == Some(BlankCustomer) && showForm == !old(showForm)
      ensures customers == old(customers) && searchQuery == old(searchQuery)
      ensures showDeleteModal == old(showDeleteModal) && customerToDelete == old(customerToDelete)
      ensures page == old(page) && totalPages == old(totalPages) && loading == old(loading) && error == old(error) && limit == old(limit)
    {
      editingId := None;
      editForm := Some(BlankCustomer);
      showForm := !showForm;
    }

    /** The empty list's add button: shows the form and leaves its contents
        as they are. */
    method ShowForm()
      modifies this
      ensures showForm
      ensures editingId == old(editingId) && editForm == old(editForm)
      ensures customers == old(customers) && searchQuery == old(searchQuery)
      ensures showDeleteModal == old(showDeleteModal) && customerToDelete == old(customerToDelete)
      ensures page == old(page) && totalPages == old(totalPages) && loading == old(loading) && error == old(error) && limit == old(limit)
    {
      showForm := true;
    }

    /** Previous, disabled on page 1. */
    method ClickPrevious()
      modifies this
      ensures page == if old(page) == 1 then old(page) else PreviousPage(old(page))
      ensures old(page) >= 1 ==> 1 <= page <= old(page)
      ensures customers == old(customers) && totalPages == old(totalPages) && searchQuery == old(searchQuery)
      ensures showForm == old(showForm) && editingId == old(editingId) && editForm == old(editForm)
      ensures showDeleteModal == old(showDeleteModal) && customerToDelete == old(customerToDelete)
      ensures loading == old(loading) && error == old(error) && limit == old(limit)
    {
      if page != 1 {
        page := PreviousPage(page);
      }
    }

    /** Next, disabled on the last page, kept at 1 or above. */
    method ClickNext()
      modifies this
      ensures page == if old(page) == totalPages then old(page) else NextPage(old(page), totalPages)
      ensures old(page) >= 1 ==> page >= 1
      ensures 1 <= old(page) <= totalPages ==> old(page) <= page <= totalPages
      ensures customers == old(customers) && totalPages == old(totalPages) && searchQuery == old(searchQuery)
      ensures showForm == old(showForm) && editingId == old(editingId) && editForm == old(editForm)
      ensures showDeleteModal == old(showDeleteModal) && customerToDelete == old(customerToDelete)
      ensures loading == old(loading) && error == old(error) && limit == old(limit)
    {
      if page != totalPages {
        page := NextPage(page, totalPages);
      }
    }
  }

  // ---------------------------------------------------------------------------
  // Properties of the handlers

  /** Saving the blank add form changes no customer unless one has the empty
      id: the form's id is '' and saving only replaces, it never appends. */
  lemma AddFormSavesNothing(customers: seq<Customer>)
    requires forall i :: 0 <= i < |customers| ==> customers[i].id != ""
    ensures ReplaceById(customers, IdOf, BlankCustomer.id, BlankCustomer) == customers
  {
    ReplaceAbsent(customers, IdOf, BlankCustomer.id, BlankCustomer);
  }

  /** The customer selected for deletion is the first with the id, and none
      is selected exactly when no customer has it; confirming then removes
      every customer with that id and keeps the others in order. */
  lemma DeleteSelectsThenRemoves(customers: seq<Customer>, id: string)
    ensures var sel := FindById(customers, IdOf, id);
      && (sel.None? <==> forall i :: 0 <= i < |customers| ==> customers[i].id != id)
      && (sel.Some? ==> sel.value.id == id && sel.value in customers)
    ensures var r := RemoveById(customers, IdOf, id);
      && SubsequenceOf(r, customers)
      && (forall c :: c in r <==> c in customers && c.id != id)
  {
    FindByIdSpec(customers, IdOf, id);
    RemoveByIdSpec(customers, IdOf, id);
  }
}
