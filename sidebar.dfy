// The sidebar of components/sidebar.tsx: which page is open (read from the
// pathname), the search box over journal entries and spaces, and the
// naming of notebooks created from it. The search modal, menus,
// navigation and the click-outside handler are not modelled.

module Sidebar {
  import opened Opt
  import opened Strings
  import opened Types
  import Spaces
  import Journal
  import Notebooks

  datatype PageType = JournalPage | SpacePage | OtherPage

  /** The page type: a journal page for paths under '/journal/', a space
      page for paths under '/space/', and none otherwise. */
  function CurrentPageType(pathname: string): (r: PageType)
    ensures r == JournalPage <==> StartsWith(pathname, "/journal/")
    ensures r == SpacePage <==> StartsWith(pathname, "/space/") && !StartsWith(pathname, "/journal/")
  {
    if StartsWith(pathname, "/journal/") then JournalPage
    else if StartsWith(pathname, "/space/") then SpacePage
    else OtherPage
  }

  predicate IsPathDelimiter(c: char)
  {
    c == '/' || c == '?' || c == '#'
  }

  /** The text of `s` up to its first '/', '?' or '#' (`split(/[/?#]/)[0]`). */
  function FirstSegment(s: string): (r: string)
    ensures StartsWith(s, r)
    ensures forall i :: 0 <= i < |r| ==> !IsPathDelimiter(r[i])
    ensures |r| == |s| || IsPathDelimiter(s[|r|])
  {
    if |s| == 0 || IsPathDelimiter(s[0]) then []
    else
      var t := FirstSegment(s[1..]);
      assert s[1..][..|t|] == s[1..|t| + 1];
      [s[0]] + t
  }

  /** The page id: for a journal or space page, the text after the prefix up
      to the first '/', '?' or '#'; '' otherwise. Splitting on the prefix and
      taking the second piece, as the component does, cuts that text at the
      next occurrence of the prefix, which itself starts with '/', so the
      first segment is the same. */
  function CurrentPageId(pathname: string): (r: string)
    ensures CurrentPageType(pathname) == OtherPage ==> r == []
    ensures CurrentPageType(pathname) == JournalPage ==> r == FirstSegment(pathname[|"/journal/"|..])
    ensures CurrentPageType(pathname) == SpacePage ==> r == FirstSegment(pathname[|"/space/"|..])
    ensures forall i :: 0 <= i < |r| ==> !IsPathDelimiter(r[i])
  {
    match CurrentPageType(pathname)
    case JournalPage => FirstSegment(pathname[9..])
    case SpacePage => FirstSegment(pathname[7..])
    case OtherPage => []
  }

  /** The id of a page reached through '/journal/<id>' or '/space/<id>' is
      read back from its path, whatever query or fragment follows. */
  lemma PageIdRoundTrip(id: string, tail: string)
    requires forall i :: 0 <= i < |id| ==> !IsPathDelimiter(id[i])
    requires tail == [] || IsPathDelimiter(tail[0])
    ensures CurrentPageType("/journal/" + id + tail) == JournalPage
    ensures CurrentPageId("/journal/" + id + tail) == id
    ensures CurrentPageType("/space/" + id + tail) == SpacePage
    ensures CurrentPageId("/space/" + id + tail) == id
  {
    var j := "/journal/" + id + tail;
    var s := "/space/" + id + tail;
    assert j[..9] == "/journal/";
    assert s[..7] == "/space/";
    assert !StartsWith(s, "/journal/") by {
      if |s| >= 9 { assert s[1] == 's'; }
    }
    assert j[9..] == id + tail;
    assert s[7..] == id + tail;
    FirstSegmentOf(id, tail);
  }

  lemma {:induction false} FirstSegmentOf(id: string, tail: string)
    requires forall i :: 0 <= i < |id| ==> !IsPathDelimiter(id[i])
    requires tail == [] || IsPathDelimiter(tail[0])
    ensures FirstSegment(id + tail) == id
  {
    if |id| > 0 {
      assert (id + tail)[1..] == id[1..] + tail;
      FirstSegmentOf(id[1..], tail);
    } else {
      assert id + tail == tail;
    }
  }

  /** Lower-casing a trimmed query leaves it trimmed: lower-casing maps
      white space to white space and nothing else to white space. */
  lemma LowerOfTrimmed(q: string)
    ensures Trim(Lower(Trim(q))) == Lower(Trim(q))
  {
    var t := Trim(q);
    var l := Lower(t);
    if |t| > 0 {
      assert !IsUpperAscii(t[0]) ==> l[0] == t[0];
      assert !IsUpperAscii(t[|t| - 1]) ==> l[|l| - 1] == t[|t| - 1];
    }
    TrimNoSurroundingSpace(l);
  }

  /** What the sidebar's journal search finds for a non-blank query: every
      journal entry that contains the trimmed, lower-cased query in its
      title or in some block, and nothing else. */
  lemma JournalSearchHits(query: string, entries: seq<JournalEntry>)
    requires !IsBlank(query)
    ensures var lower := Lower(Trim(query));
            var js := Journal.SearchEntries(entries, Trim(query));
            (forall k :: 0 <= k < |entries| && Journal.EntryMatches(entries[k], lower) ==>
               Journal.EntryHitOf(entries[k], lower) in js)
            && (forall i :: 0 <= i < |js| ==> Journal.IsHitIn(js[i], entries, lower))
  {
    var lower := Lower(Trim(query));
    LowerOfTrimmed(query);
    assert lower != [] by {
      assert |lower| == |Trim(query)|;
    }
    assert Journal.SearchEntries(entries, Trim(query)) == Journal.EntryHits(entries, lower);
  }

  /** The search results, both lists: journal hits and space hits. */
  datatype SearchResults = SearchResults(journals: seq<Journal.EntryHit>, spaces: seq<Spaces.SpaceHit>)

  class SidebarState {
    var searchResults: SearchResults
    var showSearchResults: bool
    var showNewMenu: bool

    constructor ()
      ensures searchResults == SearchResults([], []) && !showSearchResults && !showNewMenu
    {
      searchResults := SearchResults([], []);
      showSearchResults := false;
      showNewMenu := false;
    }

    /** The search effect: a blank query hides the results (and keeps the
        old ones); otherwise both searches run on the trimmed query (see
        `JournalSearchHits` for what the journal search finds). */
    method SearchEffect(query: string, entries: seq<JournalEntry>, spaces: seq<Spaces.Space>)
      modifies this
      ensures IsBlank(query) ==> !showSearchResults && searchResults == old(searchResults)
      ensures !IsBlank(query) ==> showSearchResults
      ensures !IsBlank(query) ==>
                searchResults == SearchResults(Journal.SearchEntries(entries, Trim(query)), Spaces.SearchSpaces(spaces, Trim(query)))
      ensures showNewMenu == old(showNewMenu)
    {
      if |Trim(query)| > 0 {
        var q := Trim(query);
        searchResults := SearchResults(Journal.SearchEntries(entries, q), Spaces.SearchSpaces(spaces, q));
        showSearchResults := true;
      } else {
        showSearchResults := false;
      }
    }

    /** `handleCreateNotebook`: the new notebook is called 'Notebook <n+1>'
        for n notebooks. */
    method CreateNotebook(store: Notebooks.NotebookProvider, newId: string, now: int)
      modifies this, store
      ensures !showNewMenu
      ensures store.notebooks ==
                old(store.notebooks) + [Notebook(newId, "Notebook " + NatToString(|old(store.notebooks)| + 1),
                                                 |old(store.notebooks)|, now, now, true)]
      ensures store.currentNotebookId == newId
      ensures searchResults == old(searchResults) && showSearchResults == old(showSearchResults)
    {
      showNewMenu := false;
      var name := "Notebook " + NatToString(|store.notebooks| + 1);
      var _ := store.CreateNotebook(name, newId, now);
    }
  }
}
