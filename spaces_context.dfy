// The chat-space store of contexts/SpacesContext.tsx: a list of spaces
// (each a conversation with its own messages) and the id of the current
// space. Ids and clock readings are parameters; localStorage persistence,
// JSON parsing, export and the timer-driven auto-naming are not modelled.

module Spaces {
  import opened Opt
  import opened Strings
  import Seqs

  datatype Role = User | Assistant

  datatype ChatMessage = ChatMessage(id: string, role: Role, content: string, timestamp: int)

  /** The optional `metadata` record of a space. */
  datatype Meta = Meta(
    manuallyRenamed: bool,
    pinned: Option<bool>,
    lastAutoNameUpdate: Option<int>,
    isGeneratingName: Option<bool>)

  datatype Space = Space(
    id: string,
    name: string,
    messages: seq<ChatMessage>,
    archived: bool,
    createdAt: int,
    updatedAt: int,
    notebookId: Option<string>,
    metadata: Option<Meta>)

  // ---------------------------------------------------------------------
  // Per-space updates

  /** `space.metadata?.pinned`, read as a truth value. */
  predicate IsPinned(s: Space)
  {
    s.metadata.Some? && s.metadata.value.pinned == Some(true)
  }

  /** `space.metadata?.manuallyRenamed`, read as a truth value. */
  predicate IsManuallyRenamed(s: Space)
  {
    s.metadata.Some? && s.metadata.value.manuallyRenamed
  }

  /** `s.metadata || { manuallyRenamed: false }`. */
  function MetaOrDefault(s: Space): Meta
  {
    s.metadata.GetOr(Meta(false, None, None, None))
  }

  /** A new space as `createSpace` builds it. */
  function NewSpace(id: string, name: string, notebookId: Option<string>, now: int): (r: Space)
    ensures r.id == id && r.name == name && r.notebookId == notebookId
    ensures r.messages == [] && !r.archived && r.createdAt == now && r.updatedAt == now
    ensures !IsManuallyRenamed(r) && !IsPinned(r)
  {
    Space(id, name, [], false, now, now, notebookId, Some(Meta(false, None, None, Some(false))))
  }

  /** The space after `renameSpace`: new name and time, the rename flag set to
      `manual` and name generation off; pins and messages are kept. */
  function Renamed(s: Space, name: string, manual: bool, now: int): (r: Space)
    ensures r.id == s.id && r.name == name && r.updatedAt == now
    ensures r.messages == s.messages && r.archived == s.archived && r.notebookId == s.notebookId
    ensures IsManuallyRenamed(r) == manual
    ensures r.metadata.Some? && r.metadata.value.isGeneratingName == Some(false)
    ensures IsPinned(r) == IsPinned(s)
  {
    var m := match s.metadata
      case Some(m) => Meta(manual, m.pinned, m.lastAutoNameUpdate, Some(false))
      case None => Meta(manual, None, None, Some(false));
    s.(name := name, updatedAt := now, metadata := Some(m))
  }

  /** The space after `togglePinSpace`: the pin flag inverted, the rest kept. */
  function PinToggled(s: Space): (r: Space)
    ensures IsPinned(r) == !IsPinned(s)
    ensures r.(metadata := s.metadata) == s
    ensures IsManuallyRenamed(r) == IsManuallyRenamed(s)
  {
    s.(metadata := Some(MetaOrDefault(s).(pinned := Some(!IsPinned(s)))))
  }

  /** Toggling the pin twice restores whether the space is pinned; a space
      whose pin flag was already recorded comes back unchanged. */
  lemma PinToggledTwice(s: Space)
    ensures IsPinned(PinToggled(PinToggled(s))) == IsPinned(s)
    ensures s.metadata.Some? && s.metadata.value.pinned.Some? ==> PinToggled(PinToggled(s)) == s
  {
    if s.metadata.Some? && s.metadata.value.pinned.Some? {
      var m := s.metadata.value;
      assert PinToggled(s).metadata == Some(m.(pinned := Some(!m.pinned.value)));
      assert PinToggled(PinToggled(s)).metadata == Some(m.(pinned := Some(m.pinned.value)));
    }
  }

  function CountUser(ms: seq<ChatMessage>): nat
  {
    if |ms| == 0 then 0 else (if ms[|ms| - 1].role == User then 1 else 0) + CountUser(ms[..|ms| - 1])
  }

  /** The current space after `addMessage`: the message appended with its id
      and time stamp, `updatedAt` set to that time stamp, and name generation
      switched on for the space's first user message unless it was renamed
      by hand. */
  function WithMessage(s: Space, role: Role, content: string, msgId: string, now: int): (r: Space)
    ensures r.messages == s.messages + [ChatMessage(msgId, role, content, now)]
    ensures r.updatedAt == now
    ensures r.(messages := s.messages, updatedAt := s.updatedAt, metadata := s.metadata) == s
    ensures r.metadata != s.metadata ==>
              role == User && CountUser(s.messages) == 0 && !IsManuallyRenamed(s)
    ensures role == User && CountUser(s.messages) == 0 && !IsManuallyRenamed(s) ==>
              r.metadata.Some? && r.metadata.value.isGeneratingName == Some(true)
              && IsPinned(r) == IsPinned(s)
  {
    var ms := s.messages + [ChatMessage(msgId, role, content, now)];
    assert ms[..|ms| - 1] == s.messages;
    var u := s.(messages := ms, updatedAt := now);
    if role == User && CountUser(ms) == 1 && !IsManuallyRenamed(u) then
      u.(metadata := Some(MetaOrDefault(u).(isGeneratingName := Some(true))))
    else u
  }

  // ---------------------------------------------------------------------
  // Choosing the next current space

  /** Index of the first space satisfying the fallback test, -1 if none. */
  function FirstOther(spaces: seq<Space>, id: string, skipArchived: bool): (k: int)
    ensures -1 <= k < |spaces|
    ensures k >= 0 ==> spaces[k].id != id && !(skipArchived && spaces[k].archived)
    ensures forall j :: 0 <= j < |spaces| && (k == -1 || j < k) ==>
              spaces[j].id == id || (skipArchived && spaces[j].archived)
  {
    Seqs.FindIndex((s: Space) => s.id != id && !(skipArchived && s.archived), spaces)
  }

  /** The current id after `deleteSpace(id)`: when the deleted space was
      current and was not the only one, the first other space becomes
      current; otherwise the current id stays. */
  function CurrentAfterDelete(spaces: seq<Space>, current: string, id: string): (r: string)
    ensures r != current ==> current == id && |spaces| > 1
    ensures r != current ==> exists k | 0 <= k < |spaces| :: spaces[k].id == r && r != id
    ensures current == id && |spaces| > 1 && (exists k | 0 <= k < |spaces| :: spaces[k].id != id) ==> r != id
  {
    if current == id && |spaces| > 1 then
      var k := FirstOther(spaces, id, false);
      if k >= 0 then spaces[k].id else current
    else current
  }

  /** The current id after `archiveSpace(id)`: when the archived space was
      current, the first other space that is not archived becomes current,
      if there is one. */
  function CurrentAfterArchive(spaces: seq<Space>, current: string, id: string): (r: string)
    ensures r != current ==> current == id
    ensures r != current ==> exists k | 0 <= k < |spaces| :: spaces[k].id == r && r != id && !spaces[k].archived
    ensures current == id && (exists k | 0 <= k < |spaces| :: spaces[k].id != id && !spaces[k].archived) ==> r != id
  {
    if current == id then
      var k := FirstOther(spaces, id, true);
      if k >= 0 then spaces[k].id else current
    else current
  }

  // ---------------------------------------------------------------------
  // Search

  datatype SpaceMatch = MessageMatch(text: string, timestamp: int) | NameMatch(text: string)

  datatype SpaceHit = SpaceHit(id: string, name: string, matched: SpaceMatch)

  predicate MessageMatches(m: ChatMessage, lower: string)
  {
    Contains(Lower(m.content), lower)
  }

  predicate SpaceMatches(s: Space, lower: string)
  {
    Contains(Lower(s.name), lower) || exists i | 0 <= i < |s.messages| :: MessageMatches(s.messages[i], lower)
  }

  /** The hit for a matching space: its first matching message, else its name. */
  function HitOf(s: Space, lower: string): (h: SpaceHit)
    requires SpaceMatches(s, lower)
    ensures h.id == s.id && h.name == s.name
  {
    var k := Seqs.FindIndex((m: ChatMessage) => MessageMatches(m, lower), s.messages);
    if k >= 0 then SpaceHit(s.id, s.name, MessageMatch(s.messages[k].content, s.messages[k].timestamp))
    else SpaceHit(s.id, s.name, NameMatch(s.name))
  }

  /** A space's hit quotes its first matching message, with that message's
      time stamp, when some message matches, and otherwise its name, which
      then matches. */
  lemma HitIsFirstMatch(s: Space, lower: string)
    requires SpaceMatches(s, lower)
    ensures var h := HitOf(s, lower);
            h.matched.MessageMatch? <==> exists i | 0 <= i < |s.messages| :: MessageMatches(s.messages[i], lower)
    ensures var h := HitOf(s, lower);
            h.matched.MessageMatch? ==>
              exists i | 0 <= i < |s.messages| ::
                MessageMatches(s.messages[i], lower) && h.matched.text == s.messages[i].content
                && h.matched.timestamp == s.messages[i].timestamp
                && forall j :: 0 <= j < i ==> !MessageMatches(s.messages[j], lower)
    ensures var h := HitOf(s, lower);
            h.matched.NameMatch? ==> h.matched.text == s.name && Contains(Lower(s.name), lower)
  {
    var k := Seqs.FindIndex((m: ChatMessage) => MessageMatches(m, lower), s.messages);
    if k >= 0 {
      assert MessageMatches(s.messages[k], lower);
    }
  }

  /** `h` is the hit of some space of `spaces` that matches `lower`. */
  predicate IsHitIn(h: SpaceHit, spaces: seq<Space>, lower: string)
  {
    exists k | 0 <= k < |spaces| :: SpaceMatches(spaces[k], lower) && h == HitOf(spaces[k], lower)
  }

  /** The test of `searchSpaces`'s `forEach`, as a value for `Seqs.Filter`. */
  function Matcher(lower: string): (Space -> bool)
  {
    (s: Space) => SpaceMatches(s, lower)
  }

  /** `hits` are the hits of the spaces `m`, one each and in order. */
  predicate HitsOf(hits: seq<SpaceHit>, m: seq<Space>, lower: string)
  {
    |hits| == |m| && forall i :: 0 <= i < |hits| ==> SpaceMatches(m[i], lower) && hits[i] == HitOf(m[i], lower)
  }

  /** The hits of matching spaces, with one more matching space in front. */
  lemma HitsOfCons(sp: Space, m: seq<Space>, hits: seq<SpaceHit>, lower: string)
    requires SpaceMatches(sp, lower) && HitsOf(hits, m, lower)
    ensures HitsOf([HitOf(sp, lower)] + hits, [sp] + m, lower)
  {
    var r, m' := [HitOf(sp, lower)] + hits, [sp] + m;
    forall i | 0 <= i < |r|
      ensures SpaceMatches(m'[i], lower) && r[i] == HitOf(m'[i], lower)
    {
      if i > 0 {
        assert r[i] == hits[i - 1] && m'[i] == m[i - 1];
      }
    }
  }

  /** `searchSpaces(query)`: one hit per space whose name or some message
      contains the lower-cased query, in list order, and no other hit. */
  function SearchSpaces(spaces: seq<Space>, query: string): (r: seq<SpaceHit>)
    ensures HitsOf(r, Seqs.Filter(Matcher(Lower(query)), spaces), Lower(query))
    ensures |r| <= |spaces|
    ensures forall i :: 0 <= i < |r| ==> IsHitIn(r[i], spaces, Lower(query))
    ensures forall k :: 0 <= k < |spaces| && SpaceMatches(spaces[k], Lower(query)) ==>
              HitOf(spaces[k], Lower(query)) in r
  {
    SpaceHitsInOrder(spaces, Lower(query));
    SpaceHits(spaces, Lower(query))
  }

  /** The hits of the spaces matching an already lower-cased query, in list
      order. */
  function SpaceHits(spaces: seq<Space>, lower: string): (r: seq<SpaceHit>)
    ensures |r| <= |spaces|
    ensures forall i :: 0 <= i < |r| ==> IsHitIn(r[i], spaces, lower)
    ensures forall k :: 0 <= k < |spaces| && SpaceMatches(spaces[k], lower) ==> HitOf(spaces[k], lower) in r
  {
    if |spaces| == 0 then []
    else
      var rest := SpaceHits(spaces[1..], lower);
      assert forall k :: 1 <= k < |spaces| ==> spaces[k] == spaces[1..][k - 1];
      HitInTail(spaces, lower, rest);
      if SpaceMatches(spaces[0], lower) then
        assert IsHitIn(HitOf(spaces[0], lower), spaces, lower);
        [HitOf(spaces[0], lower)] + rest
      else rest
  }

  /** The hits are those of the matching spaces, one each and in order. */
  lemma {:induction false} SpaceHitsInOrder(spaces: seq<Space>, lower: string)
    ensures HitsOf(SpaceHits(spaces, lower), Seqs.Filter(Matcher(lower), spaces), lower)
  {
    if |spaces| > 0 {
      SpaceHitsInOrder(spaces[1..], lower);
      if SpaceMatches(spaces[0], lower) {
        HitsOfCons(spaces[0], Seqs.Filter(Matcher(lower), spaces[1..]), SpaceHits(spaces[1..], lower), lower);
      }
    }
  }

  /** A hit among the spaces after the first is a hit among all of them. */
  lemma HitInTail(spaces: seq<Space>, lower: string, hits: seq<SpaceHit>)
    requires |spaces| > 0
    requires forall i :: 0 <= i < |hits| ==> IsHitIn(hits[i], spaces[1..], lower)
    ensures forall i :: 0 <= i < |hits| ==> IsHitIn(hits[i], spaces, lower)
  {
    forall i | 0 <= i < |hits|
      ensures IsHitIn(hits[i], spaces, lower)
    {
      var tail := spaces[1..];
      assert IsHitIn(hits[i], tail, lower);
      var k :| 0 <= k < |tail| && SpaceMatches(tail[k], lower) && hits[i] == HitOf(tail[k], lower);
      assert tail[k] == spaces[k + 1];
    }
  }

  /** With an empty query every space is a hit. */
  lemma SearchEmptyQuery(spaces: seq<Space>)
    ensures |SearchSpaces(spaces, "")| == |spaces|
  {
    assert Lower("") == "";
    EmptyQueryHitsAll(spaces);
  }

  lemma {:induction false} EmptyQueryHitsAll(spaces: seq<Space>)
    ensures |SpaceHits(spaces, "")| == |spaces|
  {
    if |spaces| > 0 {
      EmptyContained(Lower(spaces[0].name));
      EmptyQueryHitsAll(spaces[1..]);
    }
  }

  // ---------------------------------------------------------------------
  // The store

  class SpacesProvider {
    var spaces: seq<Space>
    var currentSpaceId: string

    /** The state after the load effect: the stored spaces, each given the
        default metadata when it had none, or a single manually named
        'General' space when nothing was stored. */
    constructor (stored: Option<(seq<Space>, string)>, newId: string, now: int)
      ensures stored.Some? ==> |spaces| == |stored.value.0| && currentSpaceId == stored.value.1
      ensures stored.Some? ==> forall i :: 0 <= i < |spaces| ==>
                spaces[i] == stored.value.0[i].(metadata := Some(stored.value.0[i].metadata.GetOr(Meta(false, None, None, Some(false)))))
      ensures stored.None? ==> spaces == [Space(newId, "General", [], false, now, now, None, Some(Meta(true, None, None, Some(false))))]
      ensures stored.None? ==> currentSpaceId == newId
    {
      match stored {
        case Some((ss, cur)) =>
          spaces := seq(|ss|, i requires 0 <= i < |ss| =>
            ss[i].(metadata := Some(ss[i].metadata.GetOr(Meta(false, None, None, Some(false))))));
          currentSpaceId := cur;
        case None =>
          spaces := [Space(newId, "General", [], false, now, now, None, Some(Meta(true, None, None, Some(false))))];
          currentSpaceId := newId;
      }
    }

    method CreateSpace(name: string, notebookId: Option<string>, newId: string, now: int) returns (id: string)
      modifies this
      ensures spaces == old(spaces) + [NewSpace(newId, name, notebookId, now)]
      ensures currentSpaceId == newId && id == newId
    {
      spaces := spaces + [NewSpace(newId, name, notebookId, now)];
      currentSpaceId := newId;
      id := newId;
    }

    method DeleteSpace(id: string)
      modifies this
      ensures spaces == Seqs.Filter((s: Space) => s.id != id, old(spaces))
      ensures currentSpaceId == CurrentAfterDelete(old(spaces), old(currentSpaceId), id)
    {
      var before := spaces;
      spaces := Seqs.Filter((s: Space) => s.id != id, spaces);
      if currentSpaceId == id && |before| > 1 {
        var k := FirstOther(before, id, false);
        if k >= 0 {
          currentSpaceId := before[k].id;
        }
      }
    }

    method ArchiveSpace(id: string, now: int)
      modifies this
      ensures |spaces| == |old(spaces)|
      ensures forall i :: 0 <= i < |spaces| ==>
                spaces[i] == if old(spaces)[i].id == id then old(spaces)[i].(archived := true, updatedAt := now) else old(spaces)[i]
      ensures currentSpaceId == CurrentAfterArchive(old(spaces), old(currentSpaceId), id)
    {
      var before := spaces;
      spaces := seq(|before|, i requires 0 <= i < |before| =>
        if before[i].id == id then before[i].(archived := true, updatedAt := now) else before[i]);
      if currentSpaceId == id {
        var k := FirstOther(before, id, true);
        if k >= 0 {
          currentSpaceId := before[k].id;
        }
      }
    }

    /** `renameSpace(id, name, isManualRename = true)`. */
    method RenameSpace(id: string, name: string, isManualRename: bool, now: int)
      modifies this
      ensures |spaces| == |old(spaces)| && currentSpaceId == old(currentSpaceId)
      ensures forall i :: 0 <= i < |spaces| ==>
                spaces[i] == if old(spaces)[i].id == id then Renamed(old(spaces)[i], name, isManualRename, now) else old(spaces)[i]
    {
      var ss := spaces;
      spaces := seq(|ss|, i requires 0 <= i < |ss| =>
        if ss[i].id == id then Renamed(ss[i], name, isManualRename, now) else ss[i]);
    }

    method TogglePinSpace(id: string)
      modifies this
      ensures |spaces| == |old(spaces)| && currentSpaceId == old(currentSpaceId)
      ensures forall i :: 0 <= i < |spaces| ==>
                spaces[i] == if old(spaces)[i].id == id then PinToggled(old(spaces)[i]) else old(spaces)[i]
    {
      var ss := spaces;
      spaces := seq(|ss|, i requires 0 <= i < |ss| =>
        if ss[i].id == id then PinToggled(ss[i]) else ss[i]);
    }

    method SwitchSpace(id: string)
      modifies this
      ensures spaces == old(spaces) && currentSpaceId == id
    {
      currentSpaceId := id;
    }

    /** `addMessage({role, content})` with the fresh message id and the
        current time as parameters. */
    method AddMessage(role: Role, content: string, msgId: string, now: int)
      modifies this
      ensures |spaces| == |old(spaces)| && currentSpaceId == old(currentSpaceId)
      ensures forall i :: 0 <= i < |spaces| ==>
                spaces[i] == if old(spaces)[i].id == currentSpaceId then WithMessage(old(spaces)[i], role, content, msgId, now) else old(spaces)[i]
    {
      var ss := spaces;
      var cur := currentSpaceId;
      spaces := seq(|ss|, i requires 0 <= i < |ss| =>
        if ss[i].id == cur then WithMessage(ss[i], role, content, msgId, now) else ss[i]);
    }

    /** `currentSpace`: the first space with the current id. */
    function CurrentSpace(): (r: Option<Space>)
      reads this
      ensures r.Some? ==> r.value in spaces && r.value.id == currentSpaceId
      ensures r.None? ==> forall i :: 0 <= i < |spaces| ==> spaces[i].id != currentSpaceId
    {
      var cur := currentSpaceId;
      var k := Seqs.FindIndex((s: Space) => s.id == cur, spaces);
      if k >= 0 then Some(spaces[k]) else None
    }
  }
}
