// The shared record types of lib/types.ts. Time stamps are integers of
// milliseconds (the journal's ISO date strings are represented by the
// instant they denote); the free-form `metadata` records of blocks and
// notebooks are not modelled.

module Types {
  import opened Opt

  datatype BlockType =
    | Text | H1 | H2 | H3 | BulletList | NumberedList | TodoList | ToggleList
    | Quote | Divider | Code | Image | Table | Page | Link | Mention | Date | Embed

  /** A journal block; a missing `isFocused` reads as false. */
  datatype Block = Block(id: string, kind: BlockType, content: string, isFocused: bool)

  /** A notebook; a missing `isExpanded` reads as false. */
  datatype Notebook = Notebook(
    id: string,
    name: string,
    order: int,
    createdAt: int,
    updatedAt: int,
    isExpanded: bool)

  datatype JournalEntry = JournalEntry(
    id: string,
    title: string,
    blocks: seq<Block>,
    createdAt: int,
    updatedAt: int,
    notebookId: Option<string>)

  datatype StudyFramework = MemoryPalace | FeynmanTechnique | SpacedRepetition | ExtremeMode

  /** The enum's string value. */
  function FrameworkValue(f: StudyFramework): string
  {
    match f
    case MemoryPalace => "memory-palace"
    case FeynmanTechnique => "feynman-technique"
    case SpacedRepetition => "spaced-repetition"
    case ExtremeMode => "extreme-mode"
  }
}
