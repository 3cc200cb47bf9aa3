// One notebook's section of the sidebar (components/SidebarNotebook.tsx):
// the journal entries and spaces listed under the notebook, their display
// order, and the inline rename fields. Navigation, menus and dialogs are not
// modelled.

module SidebarNotebook {
  import opened Opt
  import opened Strings
  import opened Types
  import Seqs
  import Spaces
  import Journal
  import Notebooks

  /** The entries listed under a notebook: those whose notebook id is it. */
  function NotebookEntries(entries: seq<JournalEntry>, notebookId: string): (r: seq<JournalEntry>)
    ensures forall e :: e in r <==> e in entries && e.notebookId == Some(notebookId)
  {
    Seqs.Filter((e: JournalEntry) => e.notebookId == Some(notebookId), entries)
  }

  function NotebookSpaces(spaces: seq<Spaces.Space>, notebookId: string): (r: seq<Spaces.Space>)
    ensures forall s :: s in r <==> s in spaces && s.notebookId == Some(notebookId)
  {
    Seqs.Filter((s: Spaces.Space) => s.notebookId == Some(notebookId), spaces)
  }

  /** The entry comparator `b.updatedAt - a.updatedAt`, as "a may come
      before b". */
  predicate NewerEntry(a: JournalEntry, b: JournalEntry)
  {
    a.updatedAt >= b.updatedAt
  }

  /** The space comparator: a pinned space before an unpinned one, and
      otherwise the more recently updated first. */
  predicate SpaceBefore(a: Spaces.Space, b: Spaces.Space)
  {
    (Spaces.IsPinned(a) && !Spaces.IsPinned(b))
    || (Spaces.IsPinned(a) == Spaces.IsPinned(b) && a.updatedAt >= b.updatedAt)
  }

  lemma EntryOrderIsTotal()
    ensures Seqs.Total(NewerEntry) && Seqs.Transitive(NewerEntry)
  {
  }

  lemma SpaceOrderIsTotal()
    ensures Seqs.Total(SpaceBefore) && Seqs.Transitive(SpaceBefore)
  {
  }

  function SortedEntries(entries: seq<JournalEntry>, notebookId: string): (r: seq<JournalEntry>)
    ensures multiset(r) == multiset(NotebookEntries(entries, notebookId))
  {
    EntryOrderIsTotal();
    Seqs.Sort(NewerEntry, NotebookEntries(entries, notebookId))
  }

  function SortedSpaces(spaces: seq<Spaces.Space>, notebookId: string): (r: seq<Spaces.Space>)
    ensures multiset(r) == multiset(NotebookSpaces(spaces, notebookId))
  {
    SpaceOrderIsTotal();
    Seqs.Sort(SpaceBefore, NotebookSpaces(spaces, notebookId))
  }

  /** The listed entries are exactly the notebook's entries, newest first. */
  lemma EntriesNewestFirst(entries: seq<JournalEntry>, notebookId: string)
    ensures var r := SortedEntries(entries, notebookId);
            (forall e :: e in r <==> e in entries && e.notebookId == Some(notebookId))
            && forall i, j :: 0 <= i < j < |r| ==> r[i].updatedAt >= r[j].updatedAt
  {
    var r := SortedEntries(entries, notebookId);
    EntryOrderIsTotal();
    assert Seqs.SortedBy(NewerEntry, r);
    forall e
      ensures e in r <==> e in NotebookEntries(entries, notebookId)
    {
      assert e in r <==> e in multiset(r);
    }
    forall i, j | 0 <= i < j < |r|
      ensures r[i].updatedAt >= r[j].updatedAt
    {
      Seqs.SortedPairwise(NewerEntry, r, i, j);
    }
  }

  /** The listed spaces are exactly the notebook's spaces; every pinned space
      comes before every unpinned one, and within each group the most
      recently updated comes first. */
  lemma SpacesPinnedFirst(spaces: seq<Spaces.Space>, notebookId: string)
    ensures var r := SortedSpaces(spaces, notebookId);
            (forall s :: s in r <==> s in spaces && s.notebookId == Some(notebookId))
            && (forall i, j :: 0 <= i < j < |r| && Spaces.IsPinned(r[j]) ==> Spaces.IsPinned(r[i]))
            && (forall i, j :: 0 <= i < j < |r| && Spaces.IsPinned(r[i]) == Spaces.IsPinned(r[j]) ==>
                  r[i].updatedAt >= r[j].updatedAt)
  {
    var r := SortedSpaces(spaces, notebookId);
    SpaceOrderIsTotal();
    assert Seqs.SortedBy(SpaceBefore, r);
    forall s
      ensures s in r <==> s in NotebookSpaces(spaces, notebookId)
    {
      assert s in r <==> s in multiset(r);
    }
    forall i, j | 0 <= i < j < |r|
      ensures SpaceBefore(r[i], r[j])
    {
      Seqs.SortedPairwise(SpaceBefore, r, i, j);
    }
  }

  /** The rename state of one notebook's section. */
  class NotebookSection {
    var editingNotebookName: bool
    var notebookName: string
    var editingJournalId: Option<string>
    var editingJournalTitle: string
    var editingSpaceId: Option<string>
    var editingSpaceName: string

    constructor (notebook: Notebook)
      ensures !editingNotebookName && notebookName == notebook.name
      ensures editingJournalId.None? && editingJournalTitle == ""
      ensures editingSpaceId.None? && editingSpaceName == ""
    {
      editingNotebookName := false;
      notebookName := notebook.name;
      editingJournalId := None;
      editingJournalTitle := "";
      editingSpaceId := None;
      editingSpaceName := "";
    }

    /** `handleFinishNotebookRename`: the notebook is renamed to the trimmed
        name only when that is non-blank and the typed name differs from the
        current one; editing ends either way. */
    method FinishNotebookRename(store: Notebooks.NotebookProvider, notebook: Notebook, now: int)
      modifies this, store
      ensures !editingNotebookName
      ensures !IsBlank(old(notebookName)) && old(notebookName) != notebook.name ==>
                store.notebooks == Notebooks.RenamedIn(old(store.notebooks), notebook.id, Trim(old(notebookName)), now)
      ensures IsBlank(old(notebookName)) || old(notebookName) == notebook.name ==>
                store.notebooks == old(store.notebooks)
      ensures store.currentNotebookId == old(store.currentNotebookId)
      ensures notebookName == old(notebookName)
    {
      if !IsBlank(notebookName) && notebookName != notebook.name {
        store.RenameNotebook(notebook.id, Trim(notebookName), now);
      }
      editingNotebookName := false;
    }

    /** `handleFinishJournalRename`: a non-blank title is stored trimmed; the
        editing state is cleared either way. */
    method FinishJournalRename(store: Journal.JournalStore, journalId: string, now: int, defaultTitle: string)
      modifies this, store
      ensures editingJournalId.None? && editingJournalTitle == ""
      ensures IsBlank(old(editingJournalTitle)) ==> store.entries == old(store.entries)
      ensures !IsBlank(old(editingJournalTitle)) ==>
                |store.entries| == |old(store.entries)|
                && forall i :: 0 <= i < |store.entries| ==>
                     store.entries[i] == if old(store.entries)[i].id == journalId
                                         then old(store.entries)[i].(title := Trim(old(editingJournalTitle)), updatedAt := now)
                                         else old(store.entries)[i]
    {
      if !IsBlank(editingJournalTitle) {
        var t := Trim(editingJournalTitle);
        TrimIdempotent(editingJournalTitle);
        store.UpdateEntry(journalId, Some(t), None, now, defaultTitle);
      }
      editingJournalId := None;
      editingJournalTitle := "";
    }

    /** `handleFinishSpaceRename`: a non-blank name is applied trimmed, as a
        manual rename; the editing state is cleared either way. */
    method FinishSpaceRename(store: Spaces.SpacesProvider, spaceId: string, now: int)
      modifies this, store
      ensures editingSpaceId.None? && editingSpaceName == ""
      ensures IsBlank(old(editingSpaceName)) ==> store.spaces == old(store.spaces)
      ensures !IsBlank(old(editingSpaceName)) ==>
                |store.spaces| == |old(store.spaces)|
                && forall i :: 0 <= i < |store.spaces| ==>
                     store.spaces[i] == if old(store.spaces)[i].id == spaceId
                                        then Spaces.Renamed(old(store.spaces)[i], Trim(old(editingSpaceName)), true, now)
                                        else old(store.spaces)[i]
      ensures store.currentSpaceId == old(store.currentSpaceId)
    {
      if !IsBlank(editingSpaceName) {
        store.RenameSpace(spaceId, Trim(editingSpaceName), true, now);
      }
      editingSpaceId := None;
      editingSpaceName := "";
    }
  }
}
