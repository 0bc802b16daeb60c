/** The repair order ("task") record and its parts. Optional fields are the
    ones the creation paths may leave `undefined`. */
module Orders {
  import opened Common

  /** Priority of an order. A string outside the four listed values can reach
      a record through the casts `x as Priority || Priority.Medium`, so it is
      kept as `UnlistedPriority`; its raw string is never one of the four
      listed names (`ParsePriority` is what builds it). */
  datatype Priority = Low | Medium | High | Urgent | UnlistedPriority(raw: string)

  /** The workflow state of an order: its board column. As for priorities, a
      stored value outside the four columns is carried as `UnlistedColumn`,
      whose raw string is never a listed name (`ParseColumn` builds it). */
  datatype Column = Entry | Approval | Execution | Done | UnlistedColumn(raw: string)

  datatype Sender = Tech | Client | System

  /** A checklist entry; `caption` is the source's `label` (a Dafny keyword). */
  datatype ChecklistItem = ChecklistItem(id: string, caption: string, checked: bool)

  datatype ChatMessage = ChatMessage(id: string, sender: Sender, message: string, timestamp: int)

  datatype Subtask = Subtask(id: string, title: string, completed: bool)

  /** An order. Money is held in integer cents; times are epoch milliseconds. */
  datatype Task = Task(
    id: string,
    osNumber: string,
    title: string,
    description: string,
    clientName: string,
    clientPhone: string,
    clientCpf: Option<string>,
    clientAddress: Option<string>,
    equipment: string,
    serialNumber: Option<string>,
    priority: Priority,
    columnId: Column,
    subtasks: seq<Subtask>,
    checklist: seq<ChecklistItem>,
    chatHistory: seq<ChatMessage>,
    signature: Option<string>,
    techSignature: Option<string>,
    isApproved: bool,
    createdAt: int,
    tags: seq<string>,
    serviceCost: int,
    partsCost: int,
    technicalObservation: string,
    photos: seq<string>,
    budgetExpiryDate: Option<int>)

  /** The string a priority is stored as. */
  function PriorityName(p: Priority): string {
    match p
    case Low => "Low"
    case Medium => "Medium"
    case High => "High"
    case Urgent => "Urgent"
    case UnlistedPriority(raw) => raw
  }

  /** Reading a stored priority string back: the cast keeps any string. */
  function ParsePriority(s: string): (p: Priority)
    ensures PriorityName(p) == s
  {
    if s == "Low" then Low
    else if s == "Medium" then Medium
    else if s == "High" then High
    else if s == "Urgent" then Urgent
    else UnlistedPriority(s)
  }

  /** The string a column is stored as. */
  function ColumnName(c: Column): string {
    match c
    case Entry => "entry"
    case Approval => "approval"
    case Execution => "execution"
    case Done => "done"
    case UnlistedColumn(raw) => raw
  }

  /** Reading a stored column string back: the cast keeps any string. */
  function ParseColumn(s: string): (c: Column)
    ensures ColumnName(c) == s
  {
    if s == "entry" then Entry
    else if s == "approval" then Approval
    else if s == "execution" then Execution
    else if s == "done" then Done
    else UnlistedColumn(s)
  }

  /** A priority that survives being stored and read back: its name is
      non-empty (an empty one reads back as Medium) and reads back as itself. */
  predicate StorablePriority(p: Priority) {
    PriorityName(p) != "" && ParsePriority(PriorityName(p)) == p
  }

  predicate StorableColumn(c: Column) {
    ColumnName(c) != "" && ParseColumn(ColumnName(c)) == c
  }

  /** A storable value is determined by its name: two storable priorities
      (or columns) with the same stored string are the same value. */
  lemma StorableByName(p: Priority, q: Priority, c: Column, d: Column)
    ensures StorablePriority(p) && StorablePriority(q) && PriorityName(p) == PriorityName(q) ==> p == q
    ensures StorableColumn(c) && StorableColumn(d) && ColumnName(c) == ColumnName(d) ==> c == d
  {
  }

  /** Every listed priority and column is storable; an unlisted one is
      storable exactly when its raw string is non-empty and not a listed name. */
  lemma StorableNames(p: Priority, c: Column)
    ensures !p.UnlistedPriority? ==> StorablePriority(p)
    ensures !c.UnlistedColumn? ==> StorableColumn(c)
    ensures p.UnlistedPriority? ==>
      (StorablePriority(p) <==> p.raw != "" && p.raw !in {"Low", "Medium", "High", "Urgent"})
    ensures c.UnlistedColumn? ==>
      (StorableColumn(c) <==> c.raw != "" && c.raw !in {"entry", "approval", "execution", "done"})
  {
  }
}
