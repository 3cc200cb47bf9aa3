// The two "add to journal" buttons of a chat answer
// (components/features/spaces/add-to-journal-button.tsx and the older
// components/spaces/add-to-journal-button.tsx). Both turn the question and
// the answer into three journal blocks and append them to the first entry
// created today, or create a new entry for them. Calendar days are an
// input: `dayOf` maps a creation time to its local day, `today` is the
// current one.

module AddToJournal {
  import opened Opt
  import opened Strings
  import opened Types
  import Seqs
  import Journal

  const QuestionPrefix := "**Question:** "
  const NewEntryTitle := "Untitled"
  const LegacyTitlePrefix := "Journal - "
  const JournalRoute := "/journal/"
  /** How long the "added" mark stays before its timer clears it. */
  const AddedResetMs := 2000

  /** The conversation strip: a quote with the question, a text block with
      the answer, and an empty divider, none focused. */
  function ConversationBlocks(ids: (string, string, string), question: string, answer: string): (r: seq<Block>)
    ensures |r| == 3 && forall i :: 0 <= i < 3 ==> !r[i].isFocused
    ensures r[0].kind == Quote && r[0].content == QuestionPrefix + question
    ensures r[1].kind == Text && r[1].content == answer
    ensures r[2].kind == Divider && r[2].content == ""
    ensures r[0].id == ids.0 && r[1].id == ids.1 && r[2].id == ids.2
  {
    [Block(ids.0, Quote, QuestionPrefix + question, false),
     Block(ids.1, Text, answer, false),
     Block(ids.2, Divider, "", false)]
  }

  /** The older button's block ids: `String(t0)`, `String(t1 + 1)` and
      `String(t2 + 2)` for the three clock readings `t0`, `t1`, `t2` taken
      while the strip is built. Two ids agree only when their numbers do,
      so readings that never go backwards give three distinct ids. */
  function LegacyIds(t0: nat, t1: nat, t2: nat): (r: (string, string, string))
    ensures r.0 == r.1 <==> t0 == t1 + 1
    ensures r.1 == r.2 <==> t1 == t2 + 1
    ensures r.0 == r.2 <==> t0 == t2 + 2
    ensures t0 <= t1 <= t2 ==> r.0 != r.1 && r.1 != r.2 && r.0 != r.2
  {
    SameDigits(t0, t1 + 1);
    SameDigits(t1 + 1, t2 + 2);
    SameDigits(t0, t2 + 2);
    (NatToString(t0), NatToString(t1 + 1), NatToString(t2 + 2))
  }

  /** Two numbers print alike exactly when they are equal. */
  lemma SameDigits(m: nat, n: nat)
    ensures NatToString(m) == NatToString(n) <==> m == n
  {
    if m != n {
      NatToStringInjective(m, n);
    }
  }

  /** The new entry keeps the title "Untitled" as it is. */
  lemma UntitledIsKept(defaultTitle: string)
    ensures Journal.TitleOrDefault(NewEntryTitle, defaultTitle) == NewEntryTitle
  {
    var s := NewEntryTitle;
    assert s[0] == 'U' && s[|s| - 1] == 'd';
    TrimNoSurroundingSpace(s);
  }

  /** The index of the first entry created today, -1 when there is none. */
  function TodayEntryIndex(entries: seq<JournalEntry>, dayOf: int -> int, today: int): (r: int)
    ensures -1 <= r < |entries|
    ensures r >= 0 ==> dayOf(entries[r].createdAt) == today
                       && forall j :: 0 <= j < r ==> dayOf(entries[j].createdAt) != today
    ensures r == -1 ==> forall j :: 0 <= j < |entries| ==> dayOf(entries[j].createdAt) != today
  {
    Seqs.FindIndex((e: JournalEntry) => dayOf(e.createdAt) == today, entries)
  }

  /** An entry whose id is `id` gets `blocks`; the others are kept. */
  predicate UpdatedWith(before: seq<JournalEntry>, after: seq<JournalEntry>, id: string,
                        blocks: seq<Block>, now: int, defaultTitle: string)
  {
    |after| == |before|
    && forall i :: 0 <= i < |after| ==>
         after[i] == if before[i].id == id then Journal.Updated(before[i], None, Some(blocks), now, defaultTitle)
                     else before[i]
  }

  class AddToJournalButton {
    const journal: Journal.JournalStore
    var isAdding: bool
    var isAdded: bool
    /** The routes pushed to the router, oldest first. */
    var navigations: seq<string>

    constructor(j: Journal.JournalStore)
      ensures journal == j && !isAdding && !isAdded && navigations == []
    {
      journal := j;
      isAdding := false;
      isAdded := false;
      navigations := [];
    }

    /** The common part of both handlers: the blocks go after today's
        entry's blocks, or into a new entry titled `title`. `createEntry`
        is called without a notebook, so the plan limit never refuses it
        and the strip is always added. */
    method AddStrip(conversation: seq<Block>, title: string, dayOf: int -> int, today: int,
                    premium: bool, newId: string, createdAt: int, updatedAt: int, defaultTitle: string)
      modifies journal, this`isAdding, this`isAdded, this`navigations
      ensures !isAdding && isAdded
      ensures var k := TodayEntryIndex(old(journal.entries), dayOf, today);
              k >= 0 ==>
                var target := old(journal.entries)[k];
                UpdatedWith(old(journal.entries), journal.entries, target.id, target.blocks + conversation, updatedAt, defaultTitle)
                && navigations == old(navigations) + [JournalRoute + target.id]
      ensures var k := TodayEntryIndex(old(journal.entries), dayOf, today);
              k < 0 ==>
                var created := JournalEntry(newId, Journal.TitleOrDefault(title, defaultTitle), [], createdAt, createdAt, None);
                UpdatedWith([created] + old(journal.entries), journal.entries, newId, conversation, updatedAt, defaultTitle)
                && navigations == old(navigations) + [JournalRoute + newId]
    {
      isAdding := true;
      var k := TodayEntryIndex(journal.entries, dayOf, today);
      if k >= 0 {
        var target := journal.entries[k];
        journal.UpdateEntry(target.id, None, Some(target.blocks + conversation), updatedAt, defaultTitle);
        navigations := navigations + [JournalRoute + target.id];
      } else {
        Journal.NoLimitWithoutNotebook(journal.entries, premium);
        var created := journal.CreateEntry(title, None, premium, newId, createdAt, defaultTitle);
        journal.UpdateEntry(created.value.id, None, Some(conversation), updatedAt, defaultTitle);
        navigations := navigations + [JournalRoute + created.value.id];
      }
      isAdded := true;
      isAdding := false;
    }

    /** The timer set after a successful add fires `AddedResetMs`
        milliseconds later and clears the "added" mark; nothing else
        changes. */
    method ResetAdded()
      modifies this`isAdded
      ensures !isAdded
    {
      isAdded := false;
    }

    /** `handleAddToJournal` of the current button: ids from the id
        generator, and a new entry is titled "Untitled". `createEntry` and
        `updateEntry` each read the clock: `createdAt` and `updatedAt`. */
    method HandleAddToJournal(question: string, answer: string, ids: (string, string, string),
                              dayOf: int -> int, today: int, premium: bool, newId: string,
                              createdAt: int, updatedAt: int, defaultTitle: string)
      modifies journal, this`isAdding, this`isAdded, this`navigations
      ensures !isAdding && isAdded
      ensures var k := TodayEntryIndex(old(journal.entries), dayOf, today);
              var strip := ConversationBlocks(ids, question, answer);
              if k >= 0 then
                var target := old(journal.entries)[k];
                UpdatedWith(old(journal.entries), journal.entries, target.id, target.blocks + strip, updatedAt, defaultTitle)
              else
                var created := JournalEntry(newId, Journal.TitleOrDefault(NewEntryTitle, defaultTitle), [], createdAt, createdAt, None);
                UpdatedWith([created] + old(journal.entries), journal.entries, newId, strip, updatedAt, defaultTitle)
    {
      AddStrip(ConversationBlocks(ids, question, answer), NewEntryTitle, dayOf, today, premium, newId,
               createdAt, updatedAt, defaultTitle);
    }

    /** `handleAddToJournal` of the older button: the block ids come from
        the clock readings `t0`, `t1`, `t2`, `createEntry` and `updateEntry`
        read the clock again (`createdAt`, `updatedAt`), and a new entry is
        titled "Journal - " and the local date. */
    method HandleAddToJournalLegacy(question: string, answer: string, t0: nat, t1: nat, t2: nat,
                                    localDate: string, dayOf: int -> int, today: int, premium: bool,
                                    newId: string, createdAt: int, updatedAt: int, defaultTitle: string)
      modifies journal, this`isAdding, this`isAdded, this`navigations
      ensures !isAdding && isAdded
      ensures var k := TodayEntryIndex(old(journal.entries), dayOf, today);
              var strip := ConversationBlocks(LegacyIds(t0, t1, t2), question, answer);
              if k >= 0 then
                var target := old(journal.entries)[k];
                UpdatedWith(old(journal.entries), journal.entries, target.id, target.blocks + strip, updatedAt, defaultTitle)
              else
                var created := JournalEntry(newId, Journal.TitleOrDefault(LegacyTitlePrefix + localDate, defaultTitle), [],
                                            createdAt, createdAt, None);
                UpdatedWith([created] + old(journal.entries), journal.entries, newId, strip, updatedAt, defaultTitle)
    {
      AddStrip(ConversationBlocks(LegacyIds(t0, t1, t2), question, answer), LegacyTitlePrefix + localDate,
               dayOf, today, premium, newId, createdAt, updatedAt, defaultTitle);
    }
  }
}
