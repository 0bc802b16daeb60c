/** The persistence boundary of the task service: the row shape of the
    remote `tasks` table (snake_case columns), the two total mappings between
    rows and orders, the legacy-tag filter, and the insert payload. */
module Wire {
  import opened Common
  import opened Text
  import opened Orders
  import opened Constants

  /** A field the mapping only accepts when it is an array; anything else
      (absent, null, a string, an object) is `NotArray`. */
  datatype ArrayField<+T> = NotArray | IsArray(items: seq<T>)

  /** A date column as the mapping sees it: absent (or null, or an empty
      string) or a number of epoch milliseconds. Date strings are not modelled. */
  datatype DateField = NoDate | Millis(ms: int)

  /** A numeric column after `Number(...)`: a number, or NaN for absent and
      non-numeric values. */
  datatype NumberField = NotANumber | Num(value: int)

  /** A row of the remote table. Field names follow the table's columns. */
  datatype Row = Row(
    id: Option<string>,
    os_number: Option<string>,
    title: Option<string>,
    description: Option<string>,
    client_name: Option<string>,
    client_phone: Option<string>,
    client_cpf: Option<string>,
    client_address: Option<string>,
    equipment: Option<string>,
    serial_number: Option<string>,
    priority: Option<string>,
    column_id: Option<string>,
    subtasks: ArrayField<Subtask>,
    checklist: ArrayField<ChecklistItem>,
    chat_history: ArrayField<ChatMessage>,
    signature: Option<string>,
    tech_signature: Option<string>,
    is_approved: Option<bool>,
    created_at: DateField,
    tags: ArrayField<string>,
    service_cost: NumberField,
    parts_cost: NumberField,
    technical_observation: Option<string>,
    photos: ArrayField<string>,
    budget_expiry_date: DateField)

  /** JavaScript truthiness of a string-valued field: present and non-empty. */
  predicate Truthy(f: Option<string>) {
    f.Some? && f.value != ""
  }

  /** `f || fallback` for a string field. */
  function OrElse(f: Option<string>, fallback: string): (r: string)
    ensures Truthy(f) ==> r == f.value
    ensures !Truthy(f) ==> r == fallback
  {
    if Truthy(f) then f.value else fallback
  }

  /** `f || undefined` for a string field: an empty string becomes absent. */
  function OrUndefined(f: Option<string>): (r: Option<string>)
    ensures r.Some? <==> Truthy(f)
    ensures r.Some? ==> r == f
  {
    if Truthy(f) then f else None
  }

  /** `Array.isArray(f) ? f : []`. */
  function ArrayOrEmpty<T>(f: ArrayField<T>): (r: seq<T>)
    ensures f.IsArray? ==> r == f.items
    ensures f.NotArray? ==> r == []
  {
    match f
    case IsArray(items) => items
    case NotArray => []
  }

  /** `Number(f) || 0`: NaN and zero both give zero. */
  function NumberOrZero(f: NumberField): (r: int)
    ensures f.Num? ==> r == f.value
    ensures f.NotANumber? ==> r == 0
  {
    match f
    case Num(v) => v
    case NotANumber => 0
  }

  /** `parseDate`: an absent or zero date is the current time; a number is kept. */
  function ParseDate(d: DateField, now: int): (r: int)
    ensures d.Millis? && d.ms != 0 ==> r == d.ms
    ensures d.NoDate? || d.ms == 0 ==> r == now
  {
    match d
    case Millis(ms) => if ms != 0 then ms else now
    case NoDate => now
  }

  /** The default validity the read path applies to rows without an expiry
      date. The source hard-codes 10 days here rather than reading the
      configuration; the two agree. */
  const DefaultValidityMs: int := 10 * MsPerDay

  /** `mapTaskFromDB`: every field gets a value whatever the row holds. A
      row without a creation date makes the code read the clock twice: first
      for the default expiry (`expiryNow`), then for the creation time
      (`createdNow`). The two reads may differ. */
  function FromWire(row: Row, expiryNow: int, createdNow: int): (t: Task)
    ensures t.id == row.id.GetOr("")
    // `x || fallback`: present strings are kept, missing or empty ones take the default
    ensures t.osNumber != "" && t.title != ""
    ensures t.osNumber == OrElse(row.os_number, "S/N") && t.title == OrElse(row.title, "Sem Título")
    ensures t.description == OrElse(row.description, "") && t.clientName == OrElse(row.client_name, "")
    ensures t.clientPhone == OrElse(row.client_phone, "") && t.equipment == OrElse(row.equipment, "")
    ensures t.technicalObservation == OrElse(row.technical_observation, "")
    ensures t.clientCpf == Some(OrElse(row.client_cpf, ""))
    ensures t.clientAddress == Some(OrElse(row.client_address, ""))
    ensures t.serialNumber == Some(OrElse(row.serial_number, ""))
    // the enums keep the stored string, or default; either way the value is
    // the one that string reads back as, never an unlisted listed name
    ensures StorablePriority(t.priority) && StorableColumn(t.columnId)
    ensures Truthy(row.priority) ==> PriorityName(t.priority) == row.priority.value
    ensures !Truthy(row.priority) ==> t.priority == Medium
    ensures Truthy(row.column_id) ==> ColumnName(t.columnId) == row.column_id.value
    ensures !Truthy(row.column_id) ==> t.columnId == Entry
    // `x || undefined`: an empty signature becomes absent
    ensures t.signature == OrUndefined(row.signature) && t.techSignature == OrUndefined(row.tech_signature)
    ensures t.signature != Some("") && t.techSignature != Some("")
    ensures t.isApproved == row.is_approved.GetOr(false)
    // arrays are kept, anything else becomes empty
    ensures t.tags == ArrayOrEmpty(row.tags) && t.subtasks == ArrayOrEmpty(row.subtasks)
    ensures t.checklist == ArrayOrEmpty(row.checklist) && t.chatHistory == ArrayOrEmpty(row.chat_history)
    ensures t.photos == ArrayOrEmpty(row.photos)
    // costs: a number is kept, NaN becomes zero
    ensures t.serviceCost == NumberOrZero(row.service_cost) && t.partsCost == NumberOrZero(row.parts_cost)
    // dates
    ensures t.budgetExpiryDate.Some?
    ensures row.budget_expiry_date.Millis? && row.budget_expiry_date.ms != 0 ==>
      t.budgetExpiryDate.value == row.budget_expiry_date.ms
    ensures row.created_at.Millis? && row.created_at.ms != 0 ==> t.createdAt == row.created_at.ms
    ensures !(row.created_at.Millis? && row.created_at.ms != 0) ==> t.createdAt == createdNow
    ensures !(row.budget_expiry_date.Millis? && row.budget_expiry_date.ms != 0) ==>
      t.budgetExpiryDate.value == t.createdAt + 10 * MsPerDay + (if row.created_at.Millis? && row.created_at.ms != 0 then 0 else expiryNow - createdNow)
    ensures !(row.budget_expiry_date.Millis? && row.budget_expiry_date.ms != 0) && expiryNow <= createdNow ==>
      t.budgetExpiryDate.value <= t.createdAt + 10 * MsPerDay
  {
    var expiry :=
      if row.budget_expiry_date.Millis? && row.budget_expiry_date.ms != 0
      then row.budget_expiry_date.ms
      else ParseDate(row.created_at, expiryNow) + DefaultValidityMs;
    var createdAt := ParseDate(row.created_at, createdNow);
    Task(
      id := row.id.GetOr(""),
      osNumber := OrElse(row.os_number, "S/N"),
      title := OrElse(row.title, "Sem Título"),
      description := OrElse(row.description, ""),
      clientName := OrElse(row.client_name, ""),
      clientPhone := OrElse(row.client_phone, ""),
      clientCpf := Some(OrElse(row.client_cpf, "")),
      clientAddress := Some(OrElse(row.client_address, "")),
      equipment := OrElse(row.equipment, ""),
      serialNumber := Some(OrElse(row.serial_number, "")),
      priority := if Truthy(row.priority) then ParsePriority(row.priority.value) else Medium,
      columnId := if Truthy(row.column_id) then ParseColumn(row.column_id.value) else Entry,
      subtasks := ArrayOrEmpty(row.subtasks),
      checklist := ArrayOrEmpty(row.checklist),
      chatHistory := ArrayOrEmpty(row.chat_history),
      signature := OrUndefined(row.signature),
      techSignature := OrUndefined(row.tech_signature),
      isApproved := row.is_approved.GetOr(false),
      createdAt := createdAt,
      tags := ArrayOrEmpty(row.tags),
      serviceCost := NumberOrZero(row.service_cost),
      partsCost := NumberOrZero(row.parts_cost),
      technicalObservation := OrElse(row.technical_observation, ""),
      photos := ArrayOrEmpty(row.photos),
      budgetExpiryDate := Some(expiry))
  }

  /** Tags written by older versions of the app to smuggle fields. */
  predicate IsLegacyTag(tag: string) {
    StartsWith(tag, "TECH_SIG:") || StartsWith(tag, "EXPIRY:")
    || StartsWith(tag, "CLIENT_CPF:") || StartsWith(tag, "CLIENT_ADDR:")
  }

  predicate KeepTag(tag: string) {
    !IsLegacyTag(tag)
  }

  /** The tags the write path stores: exactly the non-legacy ones, in their
      original order. */
  function CleanTags(tags: seq<string>): (r: seq<string>)
    ensures forall t :: t in r <==> t in tags && !IsLegacyTag(t)
    ensures forall t :: multiset(r)[t] == if IsLegacyTag(t) then 0 else multiset(tags)[t]
    ensures IsSubsequence(r, tags)
    ensures |r| <= |tags|
  {
    Filter(tags, KeepTag)
  }

  /** Cleaning twice is cleaning once, and cleaning changes nothing exactly
      when there is no legacy tag. */
  lemma CleanTagsIdempotent(tags: seq<string>)
    ensures CleanTags(CleanTags(tags)) == CleanTags(tags)
    ensures CleanTags(tags) == tags <==> forall i :: 0 <= i < |tags| ==> !IsLegacyTag(tags[i])
  {
    FilterIdempotent(tags, KeepTag);
    FilterUnchangedIff(tags, KeepTag);
  }

  /** Cleaning a concatenation cleans each part. */
  lemma CleanTagsAppend(a: seq<string>, b: seq<string>)
    ensures CleanTags(a + b) == CleanTags(a) + CleanTags(b)
  {
    FilterAppend(a, b, KeepTag);
  }

  function DateOf(d: Option<int>): DateField {
    match d
    case Some(ms) => Millis(ms)
    case None => NoDate
  }

  /** `mapTaskToDB`: the row written for an order. It never carries an id and
      never carries a legacy tag. */
  function ToWire(t: Task): (row: Row)
    ensures row.id.None?
    ensures row.tags.IsArray? && row.tags.items == CleanTags(t.tags)
    ensures forall i :: 0 <= i < |row.tags.items| ==> !IsLegacyTag(row.tags.items[i])
  {
    var r := Row(
      id := None,
      os_number := Some(t.osNumber),
      title := Some(t.title),
      description := Some(t.description),
      client_name := Some(t.clientName),
      client_phone := Some(t.clientPhone),
      client_cpf := t.clientCpf,
      client_address := t.clientAddress,
      equipment := Some(t.equipment),
      serial_number := t.serialNumber,
      priority := Some(PriorityName(t.priority)),
      column_id := Some(ColumnName(t.columnId)),
      subtasks := IsArray(t.subtasks),
      checklist := IsArray(t.checklist),
      chat_history := IsArray(t.chatHistory),
      signature := t.signature,
      tech_signature := t.techSignature,
      is_approved := Some(t.isApproved),
      created_at := Millis(t.createdAt),
      tags := IsArray(CleanTags(t.tags)),
      service_cost := Num(t.serviceCost),
      parts_cost := Num(t.partsCost),
      technical_observation := Some(t.technicalObservation),
      photos := IsArray(t.photos),
      budget_expiry_date := DateOf(t.budgetExpiryDate));
    assert forall i :: 0 <= i < |r.tags.items| ==> r.tags.items[i] in CleanTags(t.tags);
    r
  }

  /** The row `createTask` inserts. Whatever id the order has, the row sent
      has none: the id-stripping step only ever deletes a field the mapping
      never wrote. */
  function CreatePayload(t: Task): (row: Row)
    ensures row.id.None?
    ensures row == ToWire(t)
  {
    var row := ToWire(t);
    if t.id == "" || |t.id| < 10 then row.(id := None) else row
  }

  /** The row the store hands back for an order it keeps under `id`. */
  function Stored(t: Task): Row {
    ToWire(t).(id := Some(t.id))
  }

  /** The orders that come back unchanged from a store-and-read cycle. */
  predicate RoundTrips(t: Task) {
    && t.osNumber != "" && t.title != ""
    && t.clientCpf.Some? && t.clientAddress.Some? && t.serialNumber.Some?
    && t.signature != Some("") && t.techSignature != Some("")
    && t.createdAt != 0
    && t.budgetExpiryDate.Some? && t.budgetExpiryDate.value != 0
    && StorablePriority(t.priority) && StorableColumn(t.columnId)
    && forall i :: 0 <= i < |t.tags| ==> !IsLegacyTag(t.tags[i])
  }

  /** A row's stored enum strings fix the order's priority and column: the
      read path cannot turn "entry" into an unlisted column. */
  lemma FromWireEnums(row: Row, expiryNow: int, createdNow: int)
    ensures var t := FromWire(row, expiryNow, createdNow);
      (Truthy(row.priority) ==> t.priority == ParsePriority(row.priority.value))
      && (Truthy(row.column_id) ==> t.columnId == ParseColumn(row.column_id.value))
      && (row.column_id == Some("entry") ==> t.columnId == Entry)
  {
    var t := FromWire(row, expiryNow, createdNow);
    if Truthy(row.priority) {
      var p := ParsePriority(row.priority.value);
      assert StorablePriority(p);
      StorableByName(t.priority, p, Entry, Entry);
    }
    if Truthy(row.column_id) {
      var c := ParseColumn(row.column_id.value);
      assert StorableColumn(c);
      StorableByName(Low, Low, t.columnId, c);
    }
  }

  /** Reading back a stored order gives the order itself when it meets
      `RoundTrips`. */
  lemma RoundTrip(t: Task, expiryNow: int, createdNow: int)
    requires RoundTrips(t)
    ensures FromWire(Stored(t), expiryNow, createdNow) == t
  {
    CleanTagsIdempotent(t.tags);
  }

  /** Conversely, for orders created after the epoch and read at positive
      times, an order that comes back unchanged meets `RoundTrips`: each
      condition names a default or filter that would otherwise alter it. */
  lemma RoundTripOnlyIf(t: Task, expiryNow: int, createdNow: int)
    requires expiryNow > 0 && createdNow > 0 && t.createdAt >= 0
    requires FromWire(Stored(t), expiryNow, createdNow) == t
    ensures RoundTrips(t)
  {
    var r := FromWire(Stored(t), expiryNow, createdNow);
    assert r.tags == CleanTags(t.tags);
    CleanTagsIdempotent(t.tags);
    assert r.budgetExpiryDate.value != 0;
  }
}
