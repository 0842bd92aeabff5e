/** The state of the store admin page (`StoreAdminPage`) and its handlers, each
    an atomic transition of that state. */
module AdminPanel {
  import opened Wrappers
  import opened Strings
  import opened StoreModel
  import opened Tags
  import opened StoreCollection
  import Export = CsvExport
  import Import = CsvImport

  /** The form holds the id of the record being edited, and no id otherwise. */
  predicate FormMatchesEditing(editing: Option<Store>, f: Form) {
    if editing.Some? then f.id == Some(editing.value.id) else f.id.None?
  }

  class StoreAdminPage {
    var stores: seq<Store>
    var isAddingStore: bool
    var editingStore: Option<Store>
    var formData: Form

    predicate Valid()
      reads this
    {
      FormMatchesEditing(editingStore, formData)
    }

    /** The page as it opens on the bundled store list. */
    constructor(initial: seq<Store>)
      ensures stores == initial && !isAddingStore && editingStore.None?
      ensures formData == BlankForm() && Valid()
    {
      stores := initial;
      isAddingStore := false;
      editingStore := None;
      formData := BlankForm();
    }

    /** The add/close button flips the form's visibility and nothing else. */
    method ToggleAdding()
      requires Valid()
      modifies this
      ensures isAddingStore == !old(isAddingStore)
      ensures stores == old(stores) && editingStore == old(editingStore) && formData == old(formData)
      ensures Valid()
    {
      isAddingStore := !isAddingStore;
    }

    /** `handleInputChange`: one text input writes its field of the form. */
    method ChangeInput(field: TextField, value: string)
      requires Valid()
      modifies this
      ensures formData == SetField(old(formData), field, value)
      ensures stores == old(stores) && editingStore == old(editingStore)
      ensures isAddingStore == old(isAddingStore)
      ensures Valid()
    {
      formData := SetField(formData, field, value);
    }

    /** `handleTagsChange`: the tag input replaces the form's tags by the
      parsed list. */
    method ChangeTags(input: string)
      requires Valid()
      modifies this
      ensures formData == old(formData).(tags := Some(ParseTags(input)))
      ensures stores == old(stores) && editingStore == old(editingStore)
      ensures isAddingStore == old(isAddingStore)
      ensures Valid()
    {
      var tags := ParseTags(input);
      formData := formData.(tags := Some(tags));
    }

    /** `handleEdit`: open the form on a record. */
    method Edit(store: Store)
      modifies this
      ensures editingStore == Some(store) && formData == FormOf(store) && isAddingStore
      ensures stores == old(stores)
      ensures Valid()
    {
      editingStore := Some(store);
      formData := FormOf(store);
      isAddingStore := true;
    }

    /** The Cancel button: close the form, leave edit mode and reset the form
      (this reset does not set `photos`). */
    method Cancel()
      modifies this
      ensures !isAddingStore && editingStore.None? && formData == CancelledForm()
      ensures stores == old(stores)
      ensures Valid()
    {
      isAddingStore := false;
      editingStore := None;
      formData := CancelledForm();
    }

    /** `handleSubmit`. In edit mode the edited record is replaced by the merge
      of it and the form and edit mode ends; the form stays open. Otherwise a
      new record is appended and the form closes. Either way the form is reset. */
    method Submit()
      requires Valid()
      requires editingStore.None? ==> |stores| > 0
      modifies this
      ensures stores == Submitted(old(stores), old(editingStore), old(formData))
      ensures isAddingStore == (old(isAddingStore) && old(editingStore).Some?)
      ensures editingStore.None? && formData == BlankForm()
      ensures Valid()
    {
      var next := Submitted(stores, editingStore, formData);
      if editingStore.None? {
        isAddingStore := false;
      }
      stores := next;
      editingStore := None;
      formData := BlankForm();
    }

    /** `handleDelete`: when the user confirms, drop every record with the id. */
    method Delete(id: int, confirmed: bool)
      requires Valid()
      modifies this
      ensures stores == if confirmed then Deleted(old(stores), id) else old(stores)
      ensures UniqueIds(old(stores)) ==> UniqueIds(stores)
      ensures editingStore == old(editingStore) && formData == old(formData)
      ensures isAddingStore == old(isAddingStore)
      ensures Valid()
    {
      if confirmed {
        if UniqueIds(stores) {
          DeletePreservesUnique(stores, id);
        }
        stores := Deleted(stores, id);
      }
    }

    /** `handleExportCSV`: the text of the file offered for download. */
    method ExportCsv() returns (text: string)
      ensures text == Export.ExportCsv(stores)
    {
      text := Export.ExportCsv(stores);
    }

    /** `handleImportCSV`: with no file chosen nothing happens; otherwise the
      records read from the file replace the list. */
    method ImportCsv(file: Option<string>)
      requires Valid()
      modifies this
      ensures file.None? ==> stores == old(stores)
      ensures file.Some? ==> stores == Import.ImportCsv(file.value)
      ensures file.Some? ==> |stores| == Import.CountNonBlank(Split(file.value, '\n')[1..])
      ensures editingStore == old(editingStore) && formData == old(formData)
      ensures isAddingStore == old(isAddingStore)
      ensures Valid()
    {
      if file.Some? {
        var imported := ReadStores(file.value);
        stores := imported;
      }
    }
  }

  /** The loop of `handleImportCSV`: the lines after the first are read in
      order, blank ones skipped, and each other line's record is pushed. */
  method ReadStores(text: string) returns (imported: seq<Store>)
    ensures imported == Import.ImportCsv(text)
    ensures |imported| == Import.CountNonBlank(Split(text, '\n')[1..])
  {
    var lines := Split(text, '\n');
    imported := [];
    var i := 1;
    while i < |lines|
      invariant 1 <= i <= |lines|
      invariant imported == Import.ParseLines(lines[1..i])
    {
      Import.ParseNextLine(lines, i);
      if Trim(lines[i]) != "" {
        var store := Import.ParseRow(lines[i]);
        imported := imported + [store];
      }
      i := i + 1;
    }
    assert lines[1..i] == lines[1..];
    Import.ParseLinesCount(lines[1..]);
  }
}
