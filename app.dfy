/** The `App` component's list state: the `entries` and `filterImportant`
    state cells, and the handlers that overwrite `entries` with one of the
    transforms of module Journal. Each handler's network call is left out:
    its outcome never reaches the list. */
module App {
  import opened Seqs
  import opened Journal
  import Form
  import opened Text

  class Store {
    var entries: seq<Entry>
    var filterImportant: bool

    /** First render: no entries yet, filter off. */
    constructor()
      ensures entries == [] && !filterImportant
    {
      entries := [];
      filterImportant := false;
    }

    /** The timer set on mount and by the "Demo Data" button: the list
        becomes the ten built-in entries, whatever it held before. */
    method LoadDemo()
      modifies this`entries
      ensures entries == SeedEntries()
    {
      entries := SeedEntries();
    }

    /** `fetchEntries`: the converted posts on success, the built-in
        entries on any failure; `flags` are the client's random draws. */
    method FetchEntries(result: FetchResult, flags: seq<bool>)
      requires result.Fetched? ==> |flags| >= Kept(result.posts)
      modifies this`entries
      ensures entries == Fetch(result, flags)
      ensures |entries| <= FetchLimit
      ensures result.FetchFailed? ==> entries == SeedEntries()
    {
      entries := Fetch(result, flags);
    }

    /** `createEntry`: the new entry, with the clock reading `id`, goes in
        front at once; the POST that follows cannot undo it. */
    method CreateEntry(id: int, title: string, body: string)
      modifies this`entries
      ensures entries == Create(old(entries), id, title, body)
      ensures |entries| == |old(entries)| + 1 && entries[1..] == old(entries)
    {
      entries := Create(entries, id, title, body);
    }

    /** `deleteEntry`: the local removal happens whatever the DELETE call
        did. */
    method DeleteEntry(id: int)
      modifies this`entries
      ensures entries == Delete(old(entries), id)
      ensures IsSubsequence(entries, old(entries))
      ensures forall e :: e in entries <==> e in old(entries) && e.id != id
    {
      entries := Delete(entries, id);
    }

    /** `updateEntry`: the edit is applied locally before the PUT. */
    method UpdateEntry(id: int, title: string, body: string)
      modifies this`entries
      ensures entries == Update(old(entries), id, title, body)
      ensures |entries| == |old(entries)|
    {
      entries := Update(entries, id, title, body);
    }

    /** `toggleImportant`. */
    method ToggleImportant(id: int)
      modifies this`entries
      ensures entries == Journal.ToggleImportant(old(entries), id)
      ensures |entries| == |old(entries)|
    {
      entries := Journal.ToggleImportant(entries, id);
    }

    /** The "Important Only" / "Show All" button. */
    method ToggleFilter()
      modifies this`filterImportant
      ensures filterImportant == !old(filterImportant)
    {
      filterImportant := !filterImportant;
    }

    /** `filteredEntries`, the list handed to `JournalList`: the important
        entries in order when the filter is on, the whole list otherwise;
        the store itself is not changed. */
    method FilteredEntries() returns (view: seq<Entry>)
      ensures view == View(entries, filterImportant)
      ensures IsSubsequence(view, entries)
      ensures filterImportant ==> forall e :: e in view <==> e in entries && e.important
      ensures !filterImportant ==> view == entries
    {
      view := View(entries, filterImportant);
    }

    /** The new-entry form wired to `createEntry` (its `onSubmit`): a
        submission that fails validation changes neither the list nor the
        fields; one that passes puts an entry with non-blank text in front
        and empties the form. */
    method SubmitNewEntry(form: Form.JournalForm, id: int)
      requires form.initialData.None?
      modifies this`entries, form`formData, form`errors
      ensures var data := old(form.formData);
        var ok := !IsBlank(data.title) && !IsBlank(data.body);
        entries == (if ok then Create(old(entries), id, data.title, data.body) else old(entries)) &&
        form.formData == (if ok then Form.EmptyForm else data)
      ensures form.errors == Form.ValidationErrors(old(form.formData))
      ensures entries != old(entries) ==>
        !IsBlank(entries[0].title) && !IsBlank(entries[0].body)
    {
      var submitted := form.HandleSubmit();
      if submitted.Some? {
        CreateEntry(id, submitted.value.title, submitted.value.body);
      }
    }
  }
}
