// The journal entry store of hooks/useJournal.ts: a list of entries, newest
// first, with the free-plan limit of three entries per notebook. The
// premium flag, ids, clock readings and the localised default title
// ("Journal - <date>") are parameters; localStorage persistence and the
// limit dialog are not modelled.

module Journal {
  import opened Opt
  import opened Strings
  import opened Types
  import Seqs

  /** Entries a free plan may hold per notebook. */
  const FreeEntriesPerNotebook: nat := 3

  /** `title.trim() || defaultTitle`. */
  function TitleOrDefault(title: string, defaultTitle: string): (r: string)
    ensures IsBlank(title) ==> r == defaultTitle
    ensures !IsBlank(title) ==> r == Trim(title) && r != []
  {
    var t := Trim(title);
    if t == [] then defaultTitle else t
  }

  function EntriesIn(entries: seq<JournalEntry>, notebookId: string): (r: seq<JournalEntry>)
    ensures forall e :: e in r <==> e in entries && e.notebookId == Some(notebookId)
  {
    Seqs.Filter((e: JournalEntry) => e.notebookId == Some(notebookId), entries)
  }

  /** Whether `createEntry` refuses: a free user adding to a notebook (a
      non-empty notebook id) that already holds three or more entries. */
  predicate AtLimit(entries: seq<JournalEntry>, notebookId: Option<string>, premium: bool)
  {
    !premium && notebookId.Some? && notebookId.value != ""
    && |EntriesIn(entries, notebookId.value)| >= FreeEntriesPerNotebook
  }

  /** Entries without a notebook, and all entries of a premium user, are
      never refused. */
  lemma NoLimitWithoutNotebook(entries: seq<JournalEntry>, premium: bool)
    ensures !AtLimit(entries, None, premium)
    ensures !AtLimit(entries, Some(""), premium)
    ensures forall nb :: !AtLimit(entries, nb, true)
  {
  }

  datatype EntryMatch = ContentMatch(text: string) | TitleMatch(text: string)

  datatype EntryHit = EntryHit(entry: JournalEntry, matched: EntryMatch)

  predicate BlockMatches(b: Block, lower: string)
  {
    Contains(Lower(b.content), lower)
  }

  predicate EntryMatches(e: JournalEntry, lower: string)
  {
    Contains(Lower(e.title), lower) || exists i | 0 <= i < |e.blocks| :: BlockMatches(e.blocks[i], lower)
  }

  /** The hit for a matching entry: its first matching block, else its title. */
  function EntryHitOf(e: JournalEntry, lower: string): (h: EntryHit)
    requires EntryMatches(e, lower)
    ensures h.entry == e
  {
    var k := Seqs.FindIndex((b: Block) => BlockMatches(b, lower), e.blocks);
    if k >= 0 then EntryHit(e, ContentMatch(e.blocks[k].content)) else EntryHit(e, TitleMatch(e.title))
  }

  /** An entry's hit quotes its first matching block when some block
      matches, and otherwise its title, which then matches. */
  lemma HitIsFirstMatch(e: JournalEntry, lower: string)
    requires EntryMatches(e, lower)
    ensures var h := EntryHitOf(e, lower);
            h.matched.ContentMatch? <==> exists i | 0 <= i < |e.blocks| :: BlockMatches(e.blocks[i], lower)
    ensures var h := EntryHitOf(e, lower);
            h.matched.ContentMatch? ==>
              exists i | 0 <= i < |e.blocks| ::
                BlockMatches(e.blocks[i], lower) && h.matched.text == e.blocks[i].content
                && forall j :: 0 <= j < i ==> !BlockMatches(e.blocks[j], lower)
    ensures var h := EntryHitOf(e, lower);
            h.matched.TitleMatch? ==> h.matched.text == e.title && Contains(Lower(e.title), lower)
  {
    var k := Seqs.FindIndex((b: Block) => BlockMatches(b, lower), e.blocks);
    if k >= 0 {
      assert BlockMatches(e.blocks[k], lower);
    }
  }

  /** `h` is the hit of some entry of `entries` that matches `lower`. */
  predicate IsHitIn(h: EntryHit, entries: seq<JournalEntry>, lower: string)
  {
    exists k | 0 <= k < |entries| :: EntryMatches(entries[k], lower) && h == EntryHitOf(entries[k], lower)
  }

  /** The test of `searchEntries`'s `filter`, as a value for `Seqs.Filter`. */
  function Matcher(lower: string): (JournalEntry -> bool)
  {
    (e: JournalEntry) => EntryMatches(e, lower)
  }

  /** `hits` are the hits of the entries `m`, one each and in order. */
  predicate HitsOf(hits: seq<EntryHit>, m: seq<JournalEntry>, lower: string)
  {
    |hits| == |m| && forall i :: 0 <= i < |hits| ==> EntryMatches(m[i], lower) && hits[i] == EntryHitOf(m[i], lower)
  }

  /** The hits of matching entries, with one more matching entry in front. */
  lemma HitsOfCons(e: JournalEntry, m: seq<JournalEntry>, hits: seq<EntryHit>, lower: string)
    requires EntryMatches(e, lower) && HitsOf(hits, m, lower)
    ensures HitsOf([EntryHitOf(e, lower)] + hits, [e] + m, lower)
  {
    var r, m' := [EntryHitOf(e, lower)] + hits, [e] + m;
    forall i | 0 <= i < |r|
      ensures EntryMatches(m'[i], lower) && r[i] == EntryHitOf(m'[i], lower)
    {
      if i > 0 {
        assert r[i] == hits[i - 1] && m'[i] == m[i - 1];
      }
    }
  }

  /** `searchEntries(query)`: nothing for a blank query; otherwise one hit per
      entry whose title or some block contains the lower-cased, trimmed
      query, and no other hit. */
  function SearchEntries(entries: seq<JournalEntry>, query: string): (r: seq<EntryHit>)
    ensures Trim(Lower(query)) == [] ==> r == []
    ensures var lower := Trim(Lower(query));
            lower != [] ==> HitsOf(r, Seqs.Filter(Matcher(lower), entries), lower)
    ensures |r| <= |entries|
    ensures var lower := Trim(Lower(query));
            lower != [] ==>
              forall k :: 0 <= k < |entries| && EntryMatches(entries[k], lower) ==> EntryHitOf(entries[k], lower) in r
    ensures forall i :: 0 <= i < |r| ==> IsHitIn(r[i], entries, Trim(Lower(query)))
  {
    var lower := Trim(Lower(query));
    if lower == [] then [] else EntryHitsInOrder(entries, lower); EntryHits(entries, lower)
  }

  /** The hits of the entries matching an already normalised query, in
      list order. */
  function EntryHits(entries: seq<JournalEntry>, lower: string): (r: seq<EntryHit>)
    ensures |r| <= |entries|
    ensures forall k :: 0 <= k < |entries| && EntryMatches(entries[k], lower) ==> EntryHitOf(entries[k], lower) in r
    ensures forall i :: 0 <= i < |r| ==> IsHitIn(r[i], entries, lower)
  {
    if |entries| == 0 then []
    else
      var rest := EntryHits(entries[1..], lower);
      assert forall k :: 1 <= k < |entries| ==> entries[k] == entries[1..][k - 1];
      HitInTail(entries, lower, rest);
      if EntryMatches(entries[0], lower) then
        assert IsHitIn(EntryHitOf(entries[0], lower), entries, lower);
        [EntryHitOf(entries[0], lower)] + rest
      else rest
  }

  /** The hits are those of the matching entries, one each and in order. */
  lemma {:induction false} EntryHitsInOrder(entries: seq<JournalEntry>, lower: string)
    ensures HitsOf(EntryHits(entries, lower), Seqs.Filter(Matcher(lower), entries), lower)
  {
    if |entries| > 0 {
      EntryHitsInOrder(entries[1..], lower);
      if EntryMatches(entries[0], lower) {
        HitsOfCons(entries[0], Seqs.Filter(Matcher(lower), entries[1..]), EntryHits(entries[1..], lower), lower);
      }
    }
  }

  /** A hit among the entries after the first is a hit among all of them. */
  lemma HitInTail(entries: seq<JournalEntry>, lower: string, hits: seq<EntryHit>)
    requires |entries| > 0
    requires forall i :: 0 <= i < |hits| ==> IsHitIn(hits[i], entries[1..], lower)
    ensures forall i :: 0 <= i < |hits| ==> IsHitIn(hits[i], entries, lower)
  {
    forall i | 0 <= i < |hits|
      ensures IsHitIn(hits[i], entries, lower)
    {
      var tail := entries[1..];
      assert IsHitIn(hits[i], tail, lower);
      var k :| 0 <= k < |tail| && EntryMatches(tail[k], lower) && hits[i] == EntryHitOf(tail[k], lower);
      assert tail[k] == entries[k + 1];
    }
  }

  /** Lower-casing keeps exactly the white space it was given. */
  lemma {:induction false} LowerKeepsBlank(q: string)
    ensures AllWhitespace(Lower(q)) <==> AllWhitespace(q)
  {
    forall i | 0 <= i < |q|
      ensures IsJsWhitespace(Lower(q)[i]) == IsJsWhitespace(q[i])
    {
      assert !IsUpperAscii(q[i]) || !IsJsWhitespace(q[i]);
    }
  }

  /** A query that is blank, in any case, finds nothing. */
  lemma SearchBlankQuery(entries: seq<JournalEntry>, query: string)
    requires IsBlank(query)
    ensures SearchEntries(entries, query) == []
  {
    TrimEmptyIff(query);
    LowerKeepsBlank(query);
    TrimEmptyIff(Lower(query));
  }

  /** The entry after `updateEntry(id, updates)`: a given title is trimmed
      (blank becomes the default title), given blocks replace the old ones,
      and the entry is stamped. */
  function Updated(e: JournalEntry, title: Option<string>, blocks: Option<seq<Block>>,
                   now: int, defaultTitle: string): (r: JournalEntry)
    ensures r.id == e.id && r.createdAt == e.createdAt && r.notebookId == e.notebookId
    ensures r.updatedAt == now
    ensures r.title == if title.Some? then TitleOrDefault(title.value, defaultTitle) else e.title
    ensures r.blocks == if blocks.Some? then blocks.value else e.blocks
  {
    var t := if title.Some? then TitleOrDefault(title.value, defaultTitle) else e.title;
    var bs := if blocks.Some? then blocks.value else e.blocks;
    e.(title := t, blocks := bs, updatedAt := now)
  }

  class JournalStore {
    var entries: seq<JournalEntry>

    constructor (loaded: seq<JournalEntry>)
      ensures entries == loaded
    {
      entries := loaded;
    }

    /** `createEntry(title, notebook_id)`: `None` (and no change) at the
        free-plan limit; otherwise a new empty entry goes first. */
    method CreateEntry(title: string, notebookId: Option<string>, premium: bool,
                       newId: string, now: int, defaultTitle: string)
      returns (r: Option<JournalEntry>)
      modifies this
      ensures AtLimit(old(entries), notebookId, premium) ==> r.None? && entries == old(entries)
      ensures !AtLimit(old(entries), notebookId, premium) ==>
                r == Some(JournalEntry(newId, TitleOrDefault(title, defaultTitle), [], now, now, notebookId))
                && entries == [r.value] + old(entries)
    {
      if !premium && notebookId.Some? && notebookId.value != "" {
        var inNotebook := EntriesIn(entries, notebookId.value);
        if |inNotebook| >= FreeEntriesPerNotebook {
          return None;
        }
      }
      var e := JournalEntry(newId, TitleOrDefault(title, defaultTitle), [], now, now, notebookId);
      entries := [e] + entries;
      r := Some(e);
    }

    method UpdateEntry(id: string, title: Option<string>, blocks: Option<seq<Block>>,
                       now: int, defaultTitle: string)
      modifies this
      ensures |entries| == |old(entries)|
      ensures forall i :: 0 <= i < |entries| ==>
                entries[i] == if old(entries)[i].id == id then Updated(old(entries)[i], title, blocks, now, defaultTitle)
                              else old(entries)[i]
    {
      var es := entries;
      entries := seq(|es|, i requires 0 <= i < |es| =>
        if es[i].id == id then Updated(es[i], title, blocks, now, defaultTitle) else es[i]);
    }

    method DeleteEntry(id: string)
      modifies this
      ensures entries == Seqs.Filter((e: JournalEntry) => e.id != id, old(entries))
      ensures forall e :: e in entries <==> e in old(entries) && e.id != id
    {
      entries := Seqs.Filter((e: JournalEntry) => e.id != id, entries);
    }

    /** `getEntry(id)`: the first entry with that id. */
    function GetEntry(id: string): (r: Option<JournalEntry>)
      reads this
      ensures r.Some? ==> r.value.id == id
      ensures r.Some? ==> exists k | 0 <= k < |entries| ::
                entries[k] == r.value && forall j :: 0 <= j < k ==> entries[j].id != id
      ensures r.None? <==> forall k :: 0 <= k < |entries| ==> entries[k].id != id
    {
      var k := Seqs.FindIndex((e: JournalEntry) => e.id == id, entries);
      if k >= 0 then Some(entries[k]) else None
    }
  }
}
