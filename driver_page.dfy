/** The driver page: the list of drivers with an edit form and a delete
    confirmation. Every handler updates the page state in place. */
module DriverPage {
  import opened Outcomes
  import opened IdLists

  /** A driver as the page holds it; the last four fields are optional. */
  datatype Driver = Driver(
    id: string, name: string, idNumber: string, description: string, status: string,
    phone: Option<string>, email: Option<string>, vehicle: Option<string>, joinDate: Option<string>)

  function IdOf(d: Driver): string {
    d.id
  }

  class DriverPage {
    var drivers: seq<Driver>
    var loading: bool
    var error: Option<string>
    var editingId: Option<string>
    var editForm: Option<Driver>
    var showForm: bool
    var showDeleteModal: bool
    var driverToDelete: Option<Driver>

    /** The first render: no drivers, nothing shown. */
    constructor ()
      ensures drivers == [] && !loading && error.None?
      ensures editingId.None? && editForm.None? && !showForm
      ensures !showDeleteModal && driverToDelete.None?
    {
      drivers := [];
      loading := false;
      error := None;
      editingId := None;
      editForm := None;
      showForm := false;
      showDeleteModal := false;
      driverToDelete := None;
    }

    /** `handleEdit`: open the form on a copy of the driver. */
    method Edit(d: Driver)
      modifies this
      ensures editingId == Some(d.id) && editForm == Some(d) && showForm
      ensures drivers == old(drivers) && loading == old(loading) && error == old(error)
      ensures showDeleteModal == old(showDeleteModal) && driverToDelete == old(driverToDelete)
    {
      editingId := Some(d.id);
      editForm := Some(d);
      showForm := true;
    }

    /** `handleSaveEdit`: without a form nothing happens; otherwise every
        driver with the id becomes the form, and the form closes. Nothing in
        it can throw, so its catch is never taken. */
    method SaveEdit(id: string)
      modifies this
      ensures old(editForm).None? ==>
                drivers == old(drivers) && editingId == old(editingId) && editForm == old(editForm)
                && showForm == old(showForm) && loading == old(loading)
      ensures old(editForm).Some? ==>
                drivers == ReplaceById(old(drivers), IdOf, id, old(editForm).value)
                && editingId.None? && editForm.None? && !showForm && !loading
      ensures error == old(error)
      ensures showDeleteModal == old(showDeleteModal) && driverToDelete == old(driverToDelete)
    {
      if editForm.None? {
        return;
      }
      loading := true;
      drivers := ReplaceById(drivers, IdOf, id, editForm.value);
      editingId := None;
      editForm := None;
      showForm := false;
      loading := false;
    }

    /** The form's save button: `handleSaveEdit(editForm?.id || "")`. */
    method ClickSave()
      modifies this
      ensures old(editForm).None? ==>
                drivers == old(drivers) && editingId == old(editingId) && editForm == old(editForm)
                && showForm == old(showForm) && loading == old(loading)
      ensures old(editForm).Some? ==>
                drivers == ReplaceById(old(drivers), IdOf, old(editForm).value.id, old(editForm).value)
                && editingId.None? && editForm.None? && !showForm && !loading
      ensures error == old(error)
      ensures showDeleteModal == old(showDeleteModal) && driverToDelete == old(driverToDelete)
    {
      var id := if editForm.Some? then editForm.value.id else "";
      SaveEdit(id);
    }

    /** `handleDelete`: select the first driver with the id (or none) and open
        the confirmation. */
    method Delete(id: string)
      modifies this
      ensures driverToDelete == FindById(old(drivers), IdOf, id) && showDeleteModal
      ensures drivers == old(drivers) && loading == old(loading) && error == old(error)
      ensures editingId == old(editingId) && editForm == old(editForm) && showForm == old(showForm)
    {
      driverToDelete := FindById(drivers, IdOf, id);
      showDeleteModal := true;
    }

    /** `confirmDelete`: with nothing selected nothing happens; otherwise every
        driver with the selected id goes and the confirmation closes. */
    method ConfirmDelete()
      modifies this
      ensures old(driverToDelete).None? ==>
                drivers == old(drivers) && showDeleteModal == old(showDeleteModal)
                && driverToDelete == old(driverToDelete) && loading == old(loading)
      ensures old(driverToDelete).Some? ==>
                drivers == RemoveById(old(drivers), IdOf, old(driverToDelete).value.id)
                && !showDeleteModal && driverToDelete.None? && !loading
      ensures error == old(error)
      ensures editingId == old(editingId) && editForm == old(editForm) && showForm == old(showForm)
    {
      if driverToDelete.None? {
        return;
      }
      loading := true;
      drivers := RemoveById(drivers, IdOf, driverToDelete.value.id);
      showDeleteModal := false;
      driverToDelete := None;
      loading := false;
    }

    /** The confirmation's cancel button. */
    method CloseDeleteModal()
      modifies this
      ensures !showDeleteModal && driverToDelete.None?
      ensures drivers == old(drivers) && loading == old(loading) && error == old(error)
      ensures editingId == old(editingId) && editForm == old(editForm) && showForm == old(showForm)
    {
      showDeleteModal := false;
      driverToDelete := None;
    }

    /** `handleCancel`: close the form. */
    method Cancel()
      modifies this
      ensures editingId.None? && editForm.None? && !showForm
      ensures drivers == old(drivers) && loading == old(loading) && error == old(error)
      ensures showDeleteModal == old(showDeleteModal) && driverToDelete == old(driverToDelete)
    {
      editingId := None;
      editForm := None;
      showForm := false;
    }

    /** The add button: shows or hides the form and leaves the form's
        contents as they are (none, unless an edit was left open). */
    method ToggleForm()
      modifies this
      ensures showForm == !old(showForm)
      ensures drivers == old(drivers) && loading == old(loading) && error == old(error)
      ensures editingId == old(editingId) && editForm == old(editForm)
      ensures showDeleteModal == old(showDeleteModal) && driverToDelete == old(driverToDelete)
    {
      showForm := !showForm;
    }

    /** The empty list's add button: shows the form. */
    method ShowForm()
      modifies this
      ensures showForm
      ensures drivers == old(drivers) && loading == old(loading) && error == old(error)
      ensures editingId == old(editingId) && editForm == old(editForm)
      ensures showDeleteModal == old(showDeleteModal) && driverToDelete == old(driverToDelete)
    {
      showForm := true;
    }
  }

  // ---------------------------------------------------------------------------
  // Properties of the list updates

  /** Saving the form of a driver that is in the list changes exactly the
      drivers with its id, keeps the number of drivers, and saving it again
      changes nothing. */
  lemma SaveReplacesExactly(drivers: seq<Driver>, form: Driver)
    ensures var r := ReplaceById(drivers, IdOf, form.id, form);
      && |r| == |drivers|
      && (forall i :: 0 <= i < |drivers| ==> r[i] == if drivers[i].id == form.id then form else drivers[i])
      && ReplaceById(r, IdOf, form.id, form) == r
  {
    ReplaceIdempotent(drivers, IdOf, form.id, form);
  }

  /** Deleting the selected driver leaves none with its id, keeps the others
      in order, and after it no driver with that id can be selected. */
  lemma DeleteRemovesExactly(drivers: seq<Driver>, selected: Driver)
    ensures var r := RemoveById(drivers, IdOf, selected.id);
      && SubsequenceOf(r, drivers)
      && (forall i :: 0 <= i < |r| ==> r[i].id != selected.id)
      && (forall d :: d in r <==> d in drivers && d.id != selected.id)
      && FindById(r, IdOf, selected.id).None?
  {
    RemoveByIdSpec(drivers, IdOf, selected.id);
    FindAfterRemove(drivers, IdOf, selected.id);
  }

  /** Editing a driver and saving its unchanged form leaves the list as it was. */
  lemma SaveUnchangedForm(drivers: seq<Driver>, k: nat)
    requires k < |drivers| && forall i :: 0 <= i < |drivers| && drivers[i].id == drivers[k].id ==> drivers[i] == drivers[k]
    ensures ReplaceById(drivers, IdOf, drivers[k].id, drivers[k]) == drivers
  {
  }
}
