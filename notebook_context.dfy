// The notebook store of contexts/NotebookContext.tsx: an ordered list of
// notebooks and the id of the current one. Ids and clock readings are
// parameters; persistence to localStorage is not modelled.

module Notebooks {
  import opened Opt
  import opened Types
  import Seqs

  /** No two notebooks share an id (ids come from `crypto.randomUUID`). */
  predicate UniqueIds(nbs: seq<Notebook>)
  {
    forall i, j :: 0 <= i < j < |nbs| ==> nbs[i].id != nbs[j].id
  }

  predicate HasId(nbs: seq<Notebook>, id: string)
  {
    exists i | 0 <= i < |nbs| :: nbs[i].id == id
  }

  /** The list after `toggleNotebookExpansion(id)`: the target's flag is
      inverted, every other notebook is collapsed, and all are stamped. */
  function ToggledExpansion(nbs: seq<Notebook>, id: string, now: int): (r: seq<Notebook>)
    ensures |r| == |nbs|
    ensures forall i :: 0 <= i < |r| ==>
              r[i] == nbs[i].(isExpanded := r[i].isExpanded, updatedAt := now)
    ensures forall i :: 0 <= i < |r| ==>
              r[i].isExpanded == (nbs[i].id == id && !nbs[i].isExpanded)
  {
    seq(|nbs|, i requires 0 <= i < |nbs| =>
      if nbs[i].id == id then nbs[i].(isExpanded := !nbs[i].isExpanded, updatedAt := now)
      else nbs[i].(isExpanded := false, updatedAt := now))
  }

  /** After a toggle at most one notebook is expanded, provided ids are unique. */
  lemma AtMostOneExpanded(nbs: seq<Notebook>, id: string, now: int)
    requires UniqueIds(nbs)
    ensures var r := ToggledExpansion(nbs, id, now);
            forall i, j :: 0 <= i < |r| && 0 <= j < |r| && r[i].isExpanded && r[j].isExpanded ==> i == j
  {
  }

  /** Toggling the same notebook twice closes every notebook except that it
      restores the target's own flag. */
  lemma ToggleTwice(nbs: seq<Notebook>, id: string, now: int, later: int)
    ensures var r := ToggledExpansion(ToggledExpansion(nbs, id, now), id, later);
            forall i :: 0 <= i < |r| ==> r[i].isExpanded == (nbs[i].id == id && nbs[i].isExpanded)
  {
  }

  /** The list after `reorderNotebooks(list)`: the given order, with each
      notebook's `order` equal to its position. */
  function Reordered(nbs: seq<Notebook>, now: int): (r: seq<Notebook>)
    ensures |r| == |nbs|
    ensures forall i :: 0 <= i < |r| ==> r[i] == nbs[i].(order := i, updatedAt := now)
  {
    seq(|nbs|, i requires 0 <= i < |nbs| => nbs[i].(order := i, updatedAt := now))
  }

  /** The list after `renameNotebook(id, name)`. */
  function RenamedIn(nbs: seq<Notebook>, id: string, name: string, now: int): (r: seq<Notebook>)
    ensures |r| == |nbs|
    ensures forall i :: 0 <= i < |r| ==>
              r[i] == if nbs[i].id == id then nbs[i].(name := name, updatedAt := now) else nbs[i]
  {
    seq(|nbs|, i requires 0 <= i < |nbs| =>
      if nbs[i].id == id then nbs[i].(name := name, updatedAt := now) else nbs[i])
  }

  function Without(nbs: seq<Notebook>, id: string): (r: seq<Notebook>)
    ensures |r| <= |nbs|
    ensures forall n :: n in r <==> n in nbs && n.id != id
  {
    Seqs.Filter((n: Notebook) => n.id != id, nbs)
  }

  /** Removing one id from a list of at least two notebooks with unique ids
      leaves at least one notebook. */
  lemma {:induction false} WithoutKeepsOne(nbs: seq<Notebook>, id: string)
    requires UniqueIds(nbs) && |nbs| > 1
    ensures |Without(nbs, id)| >= 1
  {
    var k := if nbs[0].id == id then 1 else 0;
    assert nbs[k].id != id;
    assert nbs[k] in Without(nbs, id);
  }

  class NotebookProvider {
    var notebooks: seq<Notebook>
    var currentNotebookId: string

    /** The state after the load effect: the stored list and current id, or a
        single expanded 'Default' notebook when nothing was stored. */
    constructor (stored: Option<(seq<Notebook>, string)>, newId: string, now: int)
      ensures stored.Some? ==> notebooks == stored.value.0 && currentNotebookId == stored.value.1
      ensures stored.None? ==> notebooks == [Notebook(newId, "Default", 0, now, now, true)]
      ensures stored.None? ==> currentNotebookId == newId
    {
      match stored {
        case Some((nbs, cur)) =>
          notebooks := nbs;
          currentNotebookId := cur;
        case None =>
          notebooks := [Notebook(newId, "Default", 0, now, now, true)];
          currentNotebookId := newId;
      }
    }

    method CreateNotebook(name: string, newId: string, now: int) returns (id: string)
      modifies this
      ensures notebooks == old(notebooks) + [Notebook(newId, name, |old(notebooks)|, now, now, true)]
      ensures currentNotebookId == newId && id == newId
      ensures UniqueIds(old(notebooks)) && !HasId(old(notebooks), newId) ==> UniqueIds(notebooks)
    {
      notebooks := notebooks + [Notebook(newId, name, |notebooks|, now, now, true)];
      currentNotebookId := newId;
      id := newId;
    }

    /** `deleteNotebook(id)`: nothing happens while at most one notebook
        exists; otherwise the notebook goes, and if it was current the first
        remaining notebook becomes current. */
    method DeleteNotebook(id: string)
      modifies this
      ensures |old(notebooks)| <= 1 ==> notebooks == old(notebooks) && currentNotebookId == old(currentNotebookId)
      ensures |old(notebooks)| > 1 ==> notebooks == Without(old(notebooks), id)
      ensures |old(notebooks)| > 1 && old(currentNotebookId) == id && |notebooks| > 0 ==>
                currentNotebookId == notebooks[0].id
      ensures !(|old(notebooks)| > 1 && old(currentNotebookId) == id && |notebooks| > 0) ==>
                currentNotebookId == old(currentNotebookId)
      ensures |old(notebooks)| >= 1 && UniqueIds(old(notebooks)) ==> |notebooks| >= 1
    {
      if |notebooks| <= 1 {
        return;
      }
      var before := notebooks;
      notebooks := Without(before, id);
      if UniqueIds(before) {
        WithoutKeepsOne(before, id);
      }
      if currentNotebookId == id {
        var remaining := Without(before, id);
        if |remaining| > 0 {
          currentNotebookId := remaining[0].id;
        }
      }
    }

    method RenameNotebook(id: string, name: string, now: int)
      modifies this
      ensures notebooks == RenamedIn(old(notebooks), id, name, now)
      ensures currentNotebookId == old(currentNotebookId)
    {
      notebooks := RenamedIn(notebooks, id, name, now);
    }

    method SwitchNotebook(id: string)
      modifies this
      ensures notebooks == old(notebooks) && currentNotebookId == id
    {
      currentNotebookId := id;
    }

    method ToggleNotebookExpansion(id: string, now: int)
      modifies this
      ensures notebooks == ToggledExpansion(old(notebooks), id, now)
      ensures currentNotebookId == old(currentNotebookId)
    {
      notebooks := ToggledExpansion(notebooks, id, now);
    }

    method ReorderNotebooks(reordered: seq<Notebook>, now: int)
      modifies this
      ensures notebooks == Reordered(reordered, now)
      ensures currentNotebookId == old(currentNotebookId)
    {
      notebooks := Reordered(reordered, now);
    }

    /** `currentNotebook`: the first notebook with the current id. */
    function CurrentNotebook(): (r: Option<Notebook>)
      reads this
      ensures r.Some? ==> r.value in notebooks && r.value.id == currentNotebookId
      ensures r.None? ==> !HasId(notebooks, currentNotebookId)
    {
      var cur := currentNotebookId;
      var k := Seqs.FindIndex((n: Notebook) => n.id == cur, notebooks);
      if k >= 0 then Some(notebooks[k]) else None
    }
  }
}
