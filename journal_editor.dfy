// The block editor of components/features/journal/editor/editor.tsx: a list
// of blocks, the id of the block the slash menu acts on, and whether that
// menu is shown. Key events carry the key, the Shift state and whether the
// caret is at the start or at the end of the block's text; new block ids
// (`Date.now().toString()`) are parameters. Menu positioning, pasting,
// the title field and 'Ask in spaces' are not modelled.

module Editor {
  import opened Opt
  import opened Types
  import Seqs

  function NewTextBlock(id: string): Block
  {
    Block(id, Text, "", true)
  }

  function IndexOfBlock(blocks: seq<Block>, id: string): (k: int)
    ensures -1 <= k < |blocks|
    ensures k >= 0 ==> blocks[k].id == id && forall j :: 0 <= j < k ==> blocks[j].id != id
    ensures k == -1 ==> forall j :: 0 <= j < |blocks| ==> blocks[j].id != id
  {
    Seqs.FindIndex((b: Block) => b.id == id, blocks)
  }

  /** The block type a markdown shortcut stands for, when the whole content
      of the block is that shortcut and a space is typed. */
  function ShortcutType(content: string): (r: Option<BlockType>)
    ensures r.Some? <==> content in {"#", "##", "###", "-", "1.", "[]", ">", "---", "```"}
    ensures r == Some(H1) <==> content == "#"
    ensures r == Some(Code) <==> content == "```"
  {
    if content == "#" then Some(H1)
    else if content == "##" then Some(H2)
    else if content == "###" then Some(H3)
    else if content == "-" then Some(BulletList)
    else if content == "1." then Some(NumberedList)
    else if content == "[]" then Some(TodoList)
    else if content == ">" then Some(Quote)
    else if content == "---" then Some(Divider)
    else if content == "```" then Some(Code)
    else None
  }

  /** Every block with id `id` gets `kind` (and, for a shortcut, empty
      content); the others are unchanged. */
  function Retyped(blocks: seq<Block>, id: string, kind: BlockType, clear: bool): (r: seq<Block>)
    ensures |r| == |blocks|
    ensures forall i :: 0 <= i < |r| && blocks[i].id != id ==> r[i] == blocks[i]
    ensures forall i :: 0 <= i < |r| && blocks[i].id == id ==>
              r[i].kind == kind && r[i].id == id && r[i].isFocused == blocks[i].isFocused
              && r[i].content == (if clear then "" else blocks[i].content)
  {
    seq(|blocks|, i requires 0 <= i < |blocks| =>
      if blocks[i].id == id then blocks[i].(kind := kind, content := if clear then "" else blocks[i].content)
      else blocks[i])
  }

  /** Enter: the current block loses focus and a new empty, focused Text
      block follows it directly. */
  function SplitAfter(blocks: seq<Block>, i: nat, newId: string): (r: seq<Block>)
    requires i < |blocks|
    ensures |r| == |blocks| + 1
    ensures r[i] == blocks[i].(isFocused := false)
    ensures r[i + 1] == NewTextBlock(newId)
    ensures forall j :: 0 <= j < i ==> r[j] == blocks[j]
    ensures forall j :: i + 1 < j < |r| ==> r[j] == blocks[j - 1]
  {
    blocks[..i] + [blocks[i].(isFocused := false), NewTextBlock(newId)] + blocks[i + 1..]
  }

  /** Backspace on an empty block: it is removed and the block before it
      (or the first block) is focused. */
  function RemoveAndFocusPrevious(blocks: seq<Block>, i: nat): (r: seq<Block>)
    requires i < |blocks| && |blocks| > 1
    ensures |r| == |blocks| - 1
    ensures var f := if i > 0 then i - 1 else 0;
            r[f] == Seqs.RemoveAt(blocks, i)[f].(isFocused := true)
            && forall j :: 0 <= j < |r| && j != f ==> r[j] == Seqs.RemoveAt(blocks, i)[j]
  {
    var updated := Seqs.RemoveAt(blocks, i);
    var f := if i > 0 then i - 1 else 0;
    updated[f := updated[f].(isFocused := true)]
  }

  /** Every block with its focus cleared, as the `forEach` that sets
      `isFocused = false` on each block of the copied list. */
  method UnfocusAll(blocks: seq<Block>) returns (r: seq<Block>)
    ensures |r| == |blocks|
    ensures forall j :: 0 <= j < |r| ==> r[j] == blocks[j].(isFocused := false)
  {
    r := blocks;
    var i := 0;
    while i < |r|
      invariant 0 <= i <= |r| == |blocks|
      invariant forall j :: 0 <= j < i ==> r[j] == blocks[j].(isFocused := false)
      invariant forall j :: i <= j < |r| ==> r[j] == blocks[j]
    {
      r := r[i := r[i].(isFocused := false)];
      i := i + 1;
    }
  }

  /** ArrowUp/ArrowDown: only the block at `target` is focused afterwards. */
  function FocusOnly(blocks: seq<Block>, target: nat): (r: seq<Block>)
    requires target < |blocks|
    ensures |r| == |blocks|
    ensures forall j :: 0 <= j < |r| ==> r[j] == blocks[j].(isFocused := j == target)
  {
    seq(|blocks|, j requires 0 <= j < |blocks| => blocks[j].(isFocused := j == target))
  }

  /** handleBlockFocus: exactly the blocks with that id are focused. */
  function FocusId(blocks: seq<Block>, id: string): (r: seq<Block>)
    ensures |r| == |blocks|
    ensures forall j :: 0 <= j < |r| ==> r[j] == blocks[j].(isFocused := r[j].isFocused)
    ensures forall j :: 0 <= j < |r| ==> (r[j].isFocused <==> blocks[j].id == id)
  {
    seq(|blocks|, j requires 0 <= j < |blocks| => blocks[j].(isFocused := blocks[j].id == id))
  }

  /** The blocks that survive handleDeleteBlock's filter. */
  function Kept(blocks: seq<Block>, id: string): (r: seq<Block>)
    ensures |r| <= |blocks|
    ensures forall b :: b in r <==> b in blocks && b.id != id
  {
    Seqs.Filter((b: Block) => b.id != id, blocks)
  }

  /** handleDeleteBlock: the blocks with that id are removed; an emptied
      list gets a fresh empty focused Text block, otherwise the block that
      stood just before the first removed one (or the first block) is
      focused. */
  function DeleteBlock(blocks: seq<Block>, id: string, newId: string): (r: seq<Block>)
    ensures |r| >= 1
    ensures |Kept(blocks, id)| == 0 ==> r == [NewTextBlock(newId)]
    ensures |Kept(blocks, id)| > 0 ==> |r| == |Kept(blocks, id)|
    ensures |Kept(blocks, id)| > 0 ==>
              var f := if IndexOfBlock(blocks, id) > 0 then IndexOfBlock(blocks, id) - 1 else 0;
              f < |r| && r[f] == Kept(blocks, id)[f].(isFocused := true)
              && (forall j :: 0 <= j < |r| && j != f ==> r[j] == Kept(blocks, id)[j])
              && (IndexOfBlock(blocks, id) > 0 ==> r[f] == blocks[IndexOfBlock(blocks, id) - 1].(isFocused := true))
  {
    var updated := Kept(blocks, id);
    if |updated| == 0 then [NewTextBlock(newId)]
    else
      var index := IndexOfBlock(blocks, id);
      var f := if index > 0 then index - 1 else 0;
      KeptBeforeFirst(blocks, id, index);
      updated[f := updated[f].(isFocused := true)]
  }

  /** The blocks before the first one with a given id survive the filter,
      so the focus index used by handleDeleteBlock is in range. */
  lemma {:induction false} KeptBeforeFirst(blocks: seq<Block>, id: string, index: int)
    requires index == IndexOfBlock(blocks, id)
    requires |Kept(blocks, id)| > 0
    ensures (if index > 0 then index - 1 else 0) < |Kept(blocks, id)|
    ensures index > 0 ==> Kept(blocks, id)[index - 1] == blocks[index - 1]
  {
    if index > 0 {
      FilterPrefix(blocks, id, index);
    }
  }

  lemma {:induction false} FilterPrefix(blocks: seq<Block>, id: string, n: nat)
    requires n <= |blocks|
    requires forall j :: 0 <= j < n ==> blocks[j].id != id
    ensures |Kept(blocks, id)| >= n
    ensures forall j :: 0 <= j < n ==> Kept(blocks, id)[j] == blocks[j]
  {
    if n > 0 {
      var tail := blocks[1..];
      forall j | 0 <= j < n - 1
        ensures tail[j].id != id
      {
        assert tail[j] == blocks[j + 1];
      }
      FilterPrefix(tail, id, n - 1);
      assert Kept(blocks, id) == [blocks[0]] + Kept(tail, id);
    }
  }

  /** handleDuplicateBlock: a focused copy with a new id directly after the
      original; every other block loses focus. */
  function Duplicated(blocks: seq<Block>, index: nat, newId: string): (r: seq<Block>)
    requires index < |blocks|
    ensures |r| == |blocks| + 1
    ensures r[index + 1] == blocks[index].(id := newId, isFocused := true)
    ensures forall j :: 0 <= j <= index ==> r[j] == blocks[j].(isFocused := false)
    ensures forall j :: index + 1 < j < |r| ==> r[j] == blocks[j - 1].(isFocused := false)
  {
    var unfocused := seq(|blocks|, j requires 0 <= j < |blocks| => blocks[j].(isFocused := false));
    Seqs.InsertAt(unfocused, index + 1, blocks[index].(id := newId, isFocused := true))
  }

  /** A key event: the key name, whether Shift was held, and whether the
      caret sits at offset 0 and at the end of the block's text. */
  datatype KeyEvent = KeyEvent(key: string, shift: bool, atStart: bool, atEnd: bool)

  /** The key names the editor reacts to. */
  const SlashKey := "/"
  const EscapeKey := "Escape"
  const EnterKey := "Enter"
  const BackspaceKey := "Backspace"
  const ArrowUpKey := "ArrowUp"
  const ArrowDownKey := "ArrowDown"
  const SpaceKey := " "

  /** Whether `handleKeyDown` does anything for this key on this block:
      every other key (Shift+Enter, Backspace in a non-empty or only block,
      Escape with the menu closed, letters) leaves the editor as it was. */
  predicate Reacts(e: KeyEvent, block: Block, count: nat, menuOpen: bool)
  {
    e.key == SlashKey || (e.key == EscapeKey && menuOpen) || (e.key == EnterKey && !e.shift)
    || (e.key == BackspaceKey && block.content == "" && count > 1)
    || (e.key == ArrowUpKey && !e.shift) || (e.key == ArrowDownKey && !e.shift) || e.key == SpaceKey
  }

  class BlockEditor {
    var blocks: seq<Block>
    var currentBlockId: string
    var showSlashMenu: bool

    /** With no initial blocks the editor holds one empty, focused Text
        block; the current block is the first one. */
    constructor (initialBlocks: Option<seq<Block>>, newId: string)
      ensures initialBlocks.None? ==> blocks == [NewTextBlock(newId)]
      ensures initialBlocks.Some? ==> blocks == initialBlocks.value
      ensures currentBlockId == if |blocks| > 0 then blocks[0].id else ""
      ensures !showSlashMenu
    {
      blocks := if initialBlocks.Some? then initialBlocks.value else [NewTextBlock(newId)];
      currentBlockId := if initialBlocks.Some? && |initialBlocks.value| == 0 then ""
                        else if initialBlocks.Some? then initialBlocks.value[0].id
                        else newId;
      showSlashMenu := false;
    }

    method HandleKeyDown(e: KeyEvent, blockId: string, newId: string)
      modifies this
      ensures IndexOfBlock(old(blocks), blockId) == -1 ==>
                blocks == old(blocks) && currentBlockId == old(currentBlockId) && showSlashMenu == old(showSlashMenu)
      ensures var i := IndexOfBlock(old(blocks), blockId);
              i >= 0 && e.key == SlashKey ==>
                blocks == old(blocks) && currentBlockId == blockId && showSlashMenu
      ensures var i := IndexOfBlock(old(blocks), blockId);
              i >= 0 && e.key == EscapeKey && old(showSlashMenu) ==>
                blocks == old(blocks) && currentBlockId == old(currentBlockId) && !showSlashMenu
      ensures var i := IndexOfBlock(old(blocks), blockId);
              i >= 0 && e.key == EnterKey && !e.shift ==>
                blocks == SplitAfter(old(blocks), i, newId) && currentBlockId == newId && showSlashMenu == old(showSlashMenu)
      ensures var i := IndexOfBlock(old(blocks), blockId);
              i >= 0 && e.key == BackspaceKey && old(blocks)[i].content == "" && |old(blocks)| > 1 ==>
                blocks == RemoveAndFocusPrevious(old(blocks), i)
                && currentBlockId == old(blocks)[if i > 0 then i - 1 else 1].id
                && showSlashMenu == old(showSlashMenu)
      ensures var i := IndexOfBlock(old(blocks), blockId);
              i >= 0 && e.key == ArrowUpKey && !e.shift ==>
                (if e.atStart && i > 0 then blocks == FocusOnly(old(blocks), i - 1) && currentBlockId == old(blocks)[i - 1].id
                 else blocks == old(blocks) && currentBlockId == old(currentBlockId))
                && showSlashMenu == old(showSlashMenu)
      ensures var i := IndexOfBlock(old(blocks), blockId);
              i >= 0 && e.key == ArrowDownKey && !e.shift ==>
                (if e.atEnd && i < |old(blocks)| - 1 then blocks == FocusOnly(old(blocks), i + 1) && currentBlockId == old(blocks)[i + 1].id
                 else blocks == old(blocks) && currentBlockId == old(currentBlockId))
                && showSlashMenu == old(showSlashMenu)
      ensures var i := IndexOfBlock(old(blocks), blockId);
              i >= 0 && e.key == SpaceKey && ShortcutType(old(blocks)[i].content).Some? ==>
                blocks == Retyped(old(blocks), blockId, ShortcutType(old(blocks)[i].content).value, true)
                && currentBlockId == old(currentBlockId) && showSlashMenu == old(showSlashMenu)
      ensures var i := IndexOfBlock(old(blocks), blockId);
              i >= 0 && e.key == SpaceKey && ShortcutType(old(blocks)[i].content).None? ==>
                blocks == old(blocks) && currentBlockId == old(currentBlockId) && showSlashMenu == old(showSlashMenu)
      ensures var i := IndexOfBlock(old(blocks), blockId);
              i >= 0 && !Reacts(e, old(blocks)[i], |old(blocks)|, old(showSlashMenu)) ==>
                blocks == old(blocks) && currentBlockId == old(currentBlockId) && showSlashMenu == old(showSlashMenu)
    {
      var i := IndexOfBlock(blocks, blockId);
      if i == -1 {
        return;
      }
      var block := blocks[i];
      if e.key == SlashKey {
        currentBlockId := blockId;
        showSlashMenu := true;
      } else if e.key == EscapeKey && showSlashMenu {
        showSlashMenu := false;
      } else if e.key == EnterKey && !e.shift {
        blocks := SplitAfter(blocks, i, newId);
        currentBlockId := newId;
      } else if e.key == BackspaceKey && block.content == "" && |blocks| > 1 {
        blocks := RemoveAndFocusPrevious(blocks, i);
        currentBlockId := blocks[if i > 0 then i - 1 else 0].id;
      } else if e.key == ArrowUpKey && !e.shift {
        if e.atStart && i > 0 {
          MoveFocus(i - 1);
        }
      } else if e.key == ArrowDownKey && !e.shift {
        if e.atEnd && i < |blocks| - 1 {
          MoveFocus(i + 1);
        }
      } else if e.key == SpaceKey {
        var t := ShortcutType(block.content);
        if t.Some? {
          blocks := Retyped(blocks, blockId, t.value, true);
        }
      }
    }

    /** Focus moves to block `target`: every block is unfocused, then that
        one is focused and becomes the current block. */
    method MoveFocus(target: nat)
      requires target < |blocks|
      modifies this
      ensures blocks == FocusOnly(old(blocks), target)
      ensures currentBlockId == blocks[target].id && showSlashMenu == old(showSlashMenu)
    {
      var updated := UnfocusAll(blocks);
      updated := updated[target := updated[target].(isFocused := true)];
      assert updated == FocusOnly(blocks, target);
      blocks := updated;
      currentBlockId := blocks[target].id;
    }

    method HandleBlockChange(id: string, content: string)
      modifies this
      ensures |blocks| == |old(blocks)|
      ensures forall j :: 0 <= j < |blocks| ==>
                blocks[j] == if old(blocks)[j].id == id then old(blocks)[j].(content := content) else old(blocks)[j]
      ensures currentBlockId == old(currentBlockId) && showSlashMenu == old(showSlashMenu)
    {
      var bs := blocks;
      blocks := seq(|bs|, j requires 0 <= j < |bs| => if bs[j].id == id then bs[j].(content := content) else bs[j]);
    }

    method HandleBlockFocus(id: string)
      modifies this
      ensures blocks == FocusId(old(blocks), id)
      ensures currentBlockId == id && showSlashMenu == old(showSlashMenu)
    {
      blocks := FocusId(blocks, id);
      currentBlockId := id;
    }

    method HandleDeleteBlock(id: string, newId: string)
      modifies this
      ensures blocks == DeleteBlock(old(blocks), id, newId)
      ensures currentBlockId == old(currentBlockId) && showSlashMenu == old(showSlashMenu)
    {
      blocks := DeleteBlock(blocks, id, newId);
    }

    method HandleDuplicateBlock(id: string, newId: string)
      modifies this
      ensures IndexOfBlock(old(blocks), id) == -1 ==> blocks == old(blocks)
      ensures var k := IndexOfBlock(old(blocks), id);
              k >= 0 ==> blocks == Duplicated(old(blocks), k, newId)
      ensures currentBlockId == old(currentBlockId) && showSlashMenu == old(showSlashMenu)
    {
      var index := IndexOfBlock(blocks, id);
      if index == -1 {
        return;
      }
      var updated := UnfocusAll(blocks);
      updated := Seqs.InsertAt(updated, index + 1, blocks[index].(id := newId, isFocused := true));
      assert updated == Duplicated(blocks, index, newId);
      blocks := updated;
    }

    method HandleCommandSelect(kind: BlockType)
      modifies this
      ensures !showSlashMenu
      ensures blocks == Retyped(old(blocks), old(currentBlockId), kind, false)
      ensures currentBlockId == old(currentBlockId)
    {
      showSlashMenu := false;
      blocks := Retyped(blocks, currentBlockId, kind, false);
    }
  }
}
