/** The board's coordinator: the order collection it owns, the optimistic
    move/delete/update protocol and the blocking create, the search filter and
    the per-column views, the notification list and the debug log buffer.
    Each handler is one atomic step; the remote call's result, the clock and
    the random draws are parameters. */
module App {
  import opened Common
  import opened Text
  import opened Orders
  import opened Constants
  import opened Wire

  datatype ToastKind = InfoToast | SuccessToast | WarningToast | ErrorToast

  datatype Toast = Toast(id: string, title: string, message: string, kind: ToastKind)

  /** The coordinator's state. `clientTask` is the order shown in the client
      portal while a client is signed in; `selected`/`modalOpen` are the
      order detail view. */
  datatype Board = Board(
    tasks: seq<Task>,
    toasts: seq<Toast>,
    dragged: Option<string>,
    selected: Option<Task>,
    modalOpen: bool,
    clientTask: Option<Task>)

  // ---------------------------------------------------------------- toasts

  /** `showToast`: one notification appended after the existing ones. */
  function ShowToast(toasts: seq<Toast>, id: string, title: string, message: string, kind: ToastKind): (r: seq<Toast>)
    ensures |r| == |toasts| + 1 && r[..|toasts|] == toasts
    ensures r[|toasts|].id == id && r[|toasts|].kind == kind
  {
    toasts + [Toast(id, title, message, kind)]
  }

  function ToastIdIsNot(id: string): Toast -> bool {
    (x: Toast) => x.id != id
  }

  /** `removeToast`: drops every notification with that id, keeps the rest in order. */
  function RemoveToast(toasts: seq<Toast>, id: string): (r: seq<Toast>)
    ensures forall x :: x in r <==> x in toasts && x.id != id
    ensures forall x :: multiset(r)[x] == if x.id != id then multiset(toasts)[x] else 0
    ensures IsSubsequence(r, toasts)
  {
    Filter(toasts, ToastIdIsNot(id))
  }

  /** Dismissing a freshly shown notification restores the list. */
  lemma ShowThenRemove(toasts: seq<Toast>, id: string, title: string, message: string, kind: ToastKind)
    requires forall i :: 0 <= i < |toasts| ==> toasts[i].id != id
    ensures RemoveToast(ShowToast(toasts, id, title, message, kind), id) == toasts
  {
    FilterAppend(toasts, [Toast(id, title, message, kind)], ToastIdIsNot(id));
    FilterKeepsAll(toasts, ToastIdIsNot(id));
  }

  // ------------------------------------------------------------- debug log

  const LogCapacity: nat := 50

  /** `addToLogBuffer`: append the line, then drop the oldest one if the
      buffer went over capacity. */
  function PushLog(buf: seq<string>, line: string): (r: seq<string>)
    ensures |buf| <= LogCapacity ==> |r| <= LogCapacity
    ensures |r| >= 1 && r[|r| - 1] == line
    ensures |buf| < LogCapacity ==> r == buf + [line]
    ensures |buf| == LogCapacity ==> r == buf[1..] + [line]
  {
    var b := buf + [line];
    if |b| > LogCapacity then b[1..] else b
  }

  function PushLogs(buf: seq<string>, lines: seq<string>): seq<string>
    decreases |lines|
  {
    if lines == [] then buf
    else PushLog(PushLogs(buf, lines[..|lines| - 1]), lines[|lines| - 1])
  }

  /** The last `n` elements of `s` (all of them when there are fewer). */
  function LastN<T>(s: seq<T>, n: nat): (r: seq<T>)
    ensures |r| <= n
  {
    if |s| <= n then s else s[|s| - n..]
  }

  /** Whatever is logged, the buffer holds exactly the 50 most recent lines
      (or all lines, while fewer were logged): the oldest goes first. */
  lemma {:induction false} LogKeepsNewest(buf: seq<string>, lines: seq<string>)
    requires |buf| <= LogCapacity
    ensures PushLogs(buf, lines) == LastN(buf + lines, LogCapacity)
    decreases |lines|
  {
    if lines == [] {
      assert buf + lines == buf;
    } else {
      var init := lines[..|lines| - 1];
      var x := lines[|lines| - 1];
      LogKeepsNewest(buf, init);
      var s := buf + init;
      assert buf + lines == s + [x];
      if |s| >= LogCapacity {
        assert (LastN(s, LogCapacity) + [x])[1..] == (s + [x])[|s + [x]| - LogCapacity..];
      }
    }
  }

  // ------------------------------------------------------ search and views

  /** A task matches a query when its lower-cased title, order number, client
      name or equipment contains the lower-cased query. */
  predicate Matches(t: Task, query: string) {
    var q := Lower(query);
    Contains(Lower(t.title), q) || Contains(Lower(t.osNumber), q)
    || Contains(Lower(t.clientName), q) || Contains(Lower(t.equipment), q)
  }

  function MatchesQuery(query: string): Task -> bool {
    (t: Task) => Matches(t, query)
  }

  /** `filteredTasks`: an empty query shows everything; otherwise exactly the
      matching tasks, in board order. */
  function FilteredTasks(tasks: seq<Task>, query: string): (r: seq<Task>)
    ensures query == "" ==> r == tasks
    ensures query != "" ==> forall t :: t in r <==> t in tasks && Matches(t, query)
    ensures query != "" ==> forall t :: multiset(r)[t] == if Matches(t, query) then multiset(tasks)[t] else 0
    ensures IsSubsequence(r, tasks)
  {
    if query == "" then
      SubsequenceReflexive(tasks);
      tasks
    else
      Filter(tasks, MatchesQuery(query))
  }

  /** The search ignores the case of the query: a query and its lower case
      show the same orders. */
  lemma QueryCaseInsensitive(tasks: seq<Task>, query: string)
    ensures FilteredTasks(tasks, Lower(query)) == FilteredTasks(tasks, query)
  {
    LowerIdempotent(query);
    FilterCongruent(tasks, MatchesQuery(Lower(query)), MatchesQuery(query));
  }

  /** Accented capitals fold too: a query in small letters finds the title
      written in capitals. */
  lemma AccentedQueryMatches(t: Task)
    requires t.title == "INSTALA\U{00C7}\U{00C3}O"
    ensures Matches(t, "\U{00E7}\U{00E3}o")
  {
    var hay := Lower(t.title);
    var q := Lower("\U{00E7}\U{00E3}o");
    assert q == "\U{00E7}\U{00E3}o";
    assert hay == "instala\U{00E7}\U{00E3}o";
    assert OccursAt(hay, q, 7);
    ContainsAt(hay, q);
  }

  function InColumn(c: Column): Task -> bool {
    (t: Task) => t.columnId == c
  }

  function IsUnlisted(t: Task): bool {
    t.columnId.UnlistedColumn?
  }

  /** The tasks one board column shows: those whose column is `c`, in order. */
  function ColumnView(tasks: seq<Task>, c: Column): (r: seq<Task>)
    ensures forall t :: t in r <==> t in tasks && t.columnId == c
    ensures forall t :: multiset(r)[t] == if t.columnId == c then multiset(tasks)[t] else 0
    ensures IsSubsequence(r, tasks)
  {
    Filter(tasks, InColumn(c))
  }

  /** Every order is in exactly one of the four columns or in none of them. */
  lemma OneColumn(t: Task)
    ensures (if InColumn(Entry)(t) then 1 else 0) + (if InColumn(Approval)(t) then 1 else 0)
      + (if InColumn(Execution)(t) then 1 else 0) + (if InColumn(Done)(t) then 1 else 0)
      + (if IsUnlisted(t) then 1 else 0) == 1
  {
  }

  /** The four column views split the tasks: each task with a listed column
      is shown in exactly its column, and the views' sizes add up to all
      tasks except those whose stored column is outside the four. */
  lemma {:induction false} ColumnViewsPartition(tasks: seq<Task>)
    ensures |ColumnView(tasks, Entry)| + |ColumnView(tasks, Approval)|
      + |ColumnView(tasks, Execution)| + |ColumnView(tasks, Done)|
      + |Filter(tasks, IsUnlisted)| == |tasks|
    decreases |tasks|
  {
    if tasks != [] {
      ColumnViewsPartition(tasks[1..]);
      FilterLength(tasks, InColumn(Entry));
      FilterLength(tasks, InColumn(Approval));
      FilterLength(tasks, InColumn(Execution));
      FilterLength(tasks, InColumn(Done));
      FilterLength(tasks, IsUnlisted);
      OneColumn(tasks[0]);
    }
  }

  // ------------------------------------------------------------------ move

  predicate HasId(tasks: seq<Task>, id: string) {
    exists i :: 0 <= i < |tasks| && tasks[i].id == id
  }

  /** The local part of a drop: every entry with the dragged id moves to the
      target column and nothing else changes. */
  function MoveLocal(tasks: seq<Task>, id: string, target: Column): (r: seq<Task>)
    ensures |r| == |tasks|
    ensures forall i :: 0 <= i < |tasks| && tasks[i].id != id ==> r[i] == tasks[i]
    ensures forall i :: 0 <= i < |tasks| && tasks[i].id == id ==>
      r[i].columnId == target && r[i].(columnId := tasks[i].columnId) == tasks[i]
  {
    seq(|tasks|, i requires 0 <= i < |tasks| =>
      if tasks[i].id == id then tasks[i].(columnId := target) else tasks[i])
  }

  /** `handleDragStart`: remembers the dragged id and nothing else. */
  function DragStart(b: Board, id: string): (r: Board)
    ensures r.dragged == Some(id)
    ensures r.(dragged := b.dragged) == b
  {
    b.(dragged := Some(id))
  }

  /** `handleDrop`. Without a dragged id nothing happens. Otherwise the move is
      applied locally; if a task with that id exists its update is sent, and a
      failure restores the pre-drop collection exactly and adds one error
      notification. The dragged id is cleared afterwards. The drop target is
      not checked against any workflow rule; it is always one of the four
      board columns. */
  function Drop(b: Board, target: Column, outcome: Remote<()>, toastId: string): (r: Board)
    requires !target.UnlistedColumn?
    ensures b.dragged.None? || b.dragged == Some("") ==> r == b
    ensures b.dragged.Some? && b.dragged.value != "" ==> r.dragged.None?
    ensures b.dragged.Some? && b.dragged.value != "" && HasId(b.tasks, b.dragged.value) && outcome.Err? ==>
      r.tasks == b.tasks
      && r.toasts == ShowToast(b.toasts, toastId, "Erro ao Mover", outcome.message, ErrorToast)
    ensures b.dragged.Some? && b.dragged.value != "" && (outcome.Ok? || !HasId(b.tasks, b.dragged.value)) ==>
      r.tasks == MoveLocal(b.tasks, b.dragged.value, target) && r.toasts == b.toasts
    ensures r.selected == b.selected && r.modalOpen == b.modalOpen && r.clientTask == b.clientTask
  {
    if b.dragged.None? || b.dragged.value == "" then b
    else
      var id := b.dragged.value;
      if HasId(b.tasks, id) && outcome.Err? then
        b.(toasts := ShowToast(b.toasts, toastId, "Erro ao Mover", outcome.message, ErrorToast), dragged := None)
      else
        b.(tasks := MoveLocal(b.tasks, id, target), dragged := None)
  }

  /** When the dragged id is absent from the board, a drop changes no task. */
  lemma DropUnknownIdKeepsTasks(b: Board, target: Column, outcome: Remote<()>, toastId: string)
    requires b.dragged.Some? && !HasId(b.tasks, b.dragged.value)
    requires !target.UnlistedColumn?
    ensures Drop(b, target, outcome, toastId).tasks == b.tasks
  {
    var r := MoveLocal(b.tasks, b.dragged.value, target);
    assert forall i :: 0 <= i < |b.tasks| ==> b.tasks[i].id != b.dragged.value;
    assert r == b.tasks;
  }

  /** Dragging a card and dropping it moves exactly that order: a successful
      or unsent update leaves the local move, a failed one restores the
      collection, and either way nothing stays dragged. */
  lemma DragThenDrop(b: Board, id: string, target: Column, outcome: Remote<()>, toastId: string)
    requires id != "" && !target.UnlistedColumn?
    ensures var r := Drop(DragStart(b, id), target, outcome, toastId);
      r.dragged.None?
      && (HasId(b.tasks, id) && outcome.Err? ==> r.tasks == b.tasks)
      && (outcome.Ok? ==> r.tasks == MoveLocal(b.tasks, id, target))
      && (forall i :: 0 <= i < |b.tasks| && b.tasks[i].id != id ==> r.tasks[i] == b.tasks[i])
  {
    var r := Drop(DragStart(b, id), target, outcome, toastId);
    if !HasId(b.tasks, id) {
      DropUnknownIdKeepsTasks(DragStart(b, id), target, outcome, toastId);
    }
  }

  // ---------------------------------------------------------------- delete

  function IdIsNot(id: string): Task -> bool {
    (t: Task) => t.id != id
  }

  /** Removes every entry with the id; the rest keep their order. */
  function RemoveById(tasks: seq<Task>, id: string): (r: seq<Task>)
    ensures forall t :: t in r <==> t in tasks && t.id != id
    ensures forall t :: multiset(r)[t] == if t.id != id then multiset(tasks)[t] else 0
    ensures IsSubsequence(r, tasks)
  {
    Filter(tasks, IdIsNot(id))
  }

  /** `deleteTask`. An empty id does nothing. Otherwise the detail view closes,
      the entries with that id leave the board, and a failed remote delete
      puts back the original collection, values included. */
  function Delete(b: Board, id: string, outcome: Remote<()>, toastId: string): (r: Board)
    ensures id == "" ==> r == b
    ensures id != "" ==> !r.modalOpen && r.selected.None?
    ensures id != "" && outcome.Ok? ==>
      r.tasks == RemoveById(b.tasks, id) && r.toasts == ShowToast(b.toasts, toastId, "Excluído", "O.S. removida.", SuccessToast)
    ensures id != "" && outcome.Err? ==>
      r.tasks == b.tasks && r.toasts == ShowToast(b.toasts, toastId, "Erro", outcome.message, ErrorToast)
    ensures r.dragged == b.dragged && r.clientTask == b.clientTask
  {
    if id == "" then b
    else
      var closed := b.(modalOpen := false, selected := None);
      match outcome
      case Ok(_) =>
        closed.(tasks := RemoveById(b.tasks, id),
                toasts := ShowToast(b.toasts, toastId, "Excluído", "O.S. removida.", SuccessToast))
      case Err(msg) =>
        closed.(toasts := ShowToast(b.toasts, toastId, "Erro", msg, ErrorToast))
  }

  /** After a successful delete no entry with that id is left, and deleting
      it again removes nothing more. */
  lemma DeleteRemovesAll(b: Board, id: string, toastId: string, toastId': string)
    requires id != ""
    ensures forall t :: t in Delete(b, id, Ok(()), toastId).tasks ==> t.id != id
    ensures Delete(Delete(b, id, Ok(()), toastId), id, Ok(()), toastId').tasks == Delete(b, id, Ok(()), toastId).tasks
  {
    FilterIdempotent(b.tasks, IdIsNot(id));
  }

  // ---------------------------------------------------------------- update

  /** Replace-by-id: every entry with `x`'s id becomes `x`. */
  function Replace(tasks: seq<Task>, x: Task): (r: seq<Task>)
    ensures |r| == |tasks|
    ensures forall i :: 0 <= i < |tasks| && tasks[i].id == x.id ==> r[i] == x
    ensures forall i :: 0 <= i < |tasks| && tasks[i].id != x.id ==> r[i] == tasks[i]
  {
    seq(|tasks|, i requires 0 <= i < |tasks| => if tasks[i].id == x.id then x else tasks[i])
  }

  /** `updateTask`. The edit is applied locally at once (and to the client
      portal's order when it is the same one). On success the entries with the
      canonical record's id are replaced by it; on failure nothing is reverted
      and one error notification is added. */
  function Update(b: Board, updated: Task, outcome: Remote<Task>, toastId: string): (r: Board)
    ensures outcome.Ok? ==> r.tasks == Replace(Replace(b.tasks, updated), outcome.value) && r.toasts == b.toasts
    ensures outcome.Err? ==>
      r.tasks == Replace(b.tasks, updated)
      && r.toasts == ShowToast(b.toasts, toastId, "Erro ao Salvar", outcome.message, ErrorToast)
    ensures b.clientTask.Some? && b.clientTask.value.id == updated.id ==> r.clientTask == Some(updated)
    ensures !(b.clientTask.Some? && b.clientTask.value.id == updated.id) ==> r.clientTask == b.clientTask
    ensures r.dragged == b.dragged && r.selected == b.selected && r.modalOpen == b.modalOpen
  {
    var clientTask :=
      if b.clientTask.Some? && b.clientTask.value.id == updated.id then Some(updated) else b.clientTask;
    var local := Replace(b.tasks, updated);
    match outcome
    case Ok(saved) => b.(clientTask := clientTask, tasks := Replace(local, saved))
    case Err(msg) =>
      b.(clientTask := clientTask, tasks := local,
         toasts := ShowToast(b.toasts, toastId, "Erro ao Salvar", msg, ErrorToast))
  }

  /** Replacing by id twice in a row with the same record is replacing once. */
  lemma ReplaceIdempotent(tasks: seq<Task>, x: Task)
    ensures Replace(Replace(tasks, x), x) == Replace(tasks, x)
  {
  }

  /** Saving the same edit twice, with the store answering with the same
      canonical record both times, leaves the same collection as saving once. */
  lemma UpdateTwice(b: Board, updated: Task, saved: Task, toastId: string, toastId': string)
    ensures Update(Update(b, updated, Ok(saved), toastId), updated, Ok(saved), toastId').tasks
         == Update(b, updated, Ok(saved), toastId).tasks
  {
    var once := Replace(Replace(b.tasks, updated), saved);
    var twice := Replace(Replace(once, updated), saved);
    assert |twice| == |once|;
    forall i | 0 <= i < |once|
      ensures twice[i] == once[i]
    {
      if saved.id == updated.id {
        assert once[i].id == updated.id ==> twice[i] == saved;
      }
    }
  }

  /** The editor's save: the update is started but not awaited, and the
      success notice "Salvo" is shown at once. When the store then rejects
      the edit, the error notice follows it, so both are on screen. */
  function EditorSave(b: Board, edited: Task, outcome: Remote<Task>, savedId: string, errorId: string): (r: Board)
    ensures r.tasks == Update(b, edited, outcome, errorId).tasks
    ensures |r.toasts| > |b.toasts| && r.toasts[..|b.toasts|] == b.toasts
    ensures r.toasts[|b.toasts|] == Toast(savedId, "Salvo", "Alterações salvas com sucesso.", SuccessToast)
    ensures outcome.Ok? ==> |r.toasts| == |b.toasts| + 1
    ensures outcome.Err? ==>
      |r.toasts| == |b.toasts| + 2
      && r.toasts[|b.toasts| + 1] == Toast(errorId, "Erro ao Salvar", outcome.message, ErrorToast)
  {
    var shown := b.(toasts := ShowToast(b.toasts, savedId, "Salvo", "Alterações salvas com sucesso.", SuccessToast));
    Update(shown, edited, outcome, errorId)
  }

  /** A rejected save leaves the editor's success notice and the error notice
      side by side: the user is told both that the edit was saved and that
      it was not. */
  lemma FailedSaveShowsBoth(b: Board, edited: Task, msg: string, savedId: string, errorId: string)
    ensures var r := EditorSave(b, edited, Err(msg), savedId, errorId);
      (exists i :: 0 <= i < |r.toasts| && r.toasts[i].title == "Salvo" && r.toasts[i].kind == SuccessToast)
      && (exists j :: 0 <= j < |r.toasts| && r.toasts[j].title == "Erro ao Salvar" && r.toasts[j].kind == ErrorToast)
  {
    var r := EditorSave(b, edited, Err(msg), savedId, errorId);
    assert r.toasts[|b.toasts|].title == "Salvo";
    assert r.toasts[|b.toasts| + 1].title == "Erro ao Salvar";
  }

  /** A failing save still applies the edit locally, and a second failing
      save of the same edit leaves the same collection. */
  lemma FailedUpdateKeepsEdit(b: Board, updated: Task, msg: string, toastId: string, toastId': string)
    ensures forall i :: 0 <= i < |b.tasks| && b.tasks[i].id == updated.id ==>
      Update(b, updated, Err(msg), toastId).tasks[i] == updated
    ensures Update(Update(b, updated, Err(msg), toastId), updated, Err(msg), toastId').tasks
         == Update(b, updated, Err(msg), toastId).tasks
  {
    ReplaceIdempotent(b.tasks, updated);
  }

  // ---------------------------------------------------------------- create

  /** `toString().slice(-4)`: the last four characters, or all of them. */
  function Last4(s: string): (r: string)
    ensures |s| >= 4 ==> r == s[|s| - 4..]
    ensures |s| < 4 ==> r == s
  {
    if |s| >= 4 then s[|s| - 4..] else s
  }

  /** The order number of a new order: `OS-`, the last four digits of the
      creation time, then the random draw zero-padded to three digits. */
  function OsNumber(now: nat, draw: nat): (os: string)
    requires draw < 999
    ensures 7 <= |os| <= 10
    ensures os[..3] == "OS-"
  {
    var stamp := Last4(Decimal(now));
    var pad := PadStart(Decimal(draw), 3, '0');
    PaddedDraw(draw);
    assert 1 <= |stamp| <= 4 && |pad| == 3;
    "OS-" + stamp + pad
  }

  /** The random part: three digits reading as the draw. */
  lemma PaddedDraw(draw: nat)
    requires draw < 999
    ensures var pad := PadStart(Decimal(draw), 3, '0');
      |pad| == 3 && AllDigits(pad) && ValueOf(pad) == draw
  {
    DecimalLength(draw, 3);
    PadZeros(Decimal(draw), 3);
  }

  /** The time part: digits only; from 1000 ms on, four digits reading as the
      time modulo 10000. */
  lemma TimeStamp(now: nat)
    ensures AllDigits(Last4(Decimal(now)))
    ensures now >= 1000 ==>
      |Last4(Decimal(now))| == 4 && ValueOf(Last4(Decimal(now))) == now % 10000
  {
    if now >= 1000 {
      DecimalLength(now, 3);
      SuffixValue(Decimal(now), 4);
    }
  }

  /** An order number is `OS-` followed by digits only; for any creation time
      from 1000 ms on there are exactly seven, the first four reading as the
      time modulo 10000 and the last three as the random draw. */
  lemma OsNumberDigits(now: nat, draw: nat)
    requires draw < 999
    ensures OsNumber(now, draw)[..3] == "OS-" && AllDigits(OsNumber(now, draw)[3..])
    ensures now >= 1000 ==>
      var os := OsNumber(now, draw);
      |os| == 10 && ValueOf(os[3..7]) == now % 10000 && ValueOf(os[7..]) == draw
  {
    var stamp := Last4(Decimal(now));
    var pad := PadStart(Decimal(draw), 3, '0');
    PaddedDraw(draw);
    TimeStamp(now);
    ThreeParts("OS-", stamp, pad);
    AllDigitsConcat(stamp, pad);
    var os := OsNumber(now, draw);
    assert os == "OS-" + stamp + pad;
    assert os[3..] == stamp + pad;
    if now >= 1000 {
      assert os[3..7] == stamp;
      assert os[7..] == pad;
    }
  }

  /** The stub `handleCreateNewOS` sends to the store. */
  function NewStub(column: Column, now: nat, draw: nat): (t: Task)
    requires draw < 999
    ensures t.id == "" && t.columnId == column
    ensures t.osNumber == OsNumber(now, draw)
    ensures t.checklist == InitialChecklist()
    ensures t.serviceCost == 0 && t.partsCost == 0 && !t.isApproved
    ensures t.createdAt == now
    ensures t.budgetExpiryDate == Some(now + AppConfig().budgetValidityDays * MsPerDay)
    ensures t.chatHistory == [] && t.photos == [] && t.subtasks == [] && t.tags == []
  {
    Task(
      id := "",
      osNumber := OsNumber(now, draw),
      title := "Nova Ordem de Serviço",
      description := "",
      clientName := "Novo Cliente",
      clientPhone := "",
      clientCpf := None,
      clientAddress := None,
      equipment := "",
      serialNumber := Some(""),
      priority := Medium,
      columnId := column,
      subtasks := [],
      checklist := InitialChecklist(),
      chatHistory := [],
      signature := None,
      techSignature := None,
      isApproved := false,
      createdAt := now,
      tags := [],
      serviceCost := 0,
      partsCost := 0,
      technicalObservation := "",
      photos := [],
      budgetExpiryDate := Some(now + AppConfig().budgetValidityDays * MsPerDay))
  }

  /** The row inserted for a new order carries no id and the requested column. */
  lemma NewStubPayload(column: Column, now: nat, draw: nat)
    requires draw < 999
    ensures CreatePayload(NewStub(column, now, draw)).id.None?
    ensures CreatePayload(NewStub(column, now, draw)).column_id == Some(ColumnName(column))
    ensures CreatePayload(NewStub(column, now, draw)).budget_expiry_date == Millis(now + 864000000)
  {
  }

  /** `handleCreateNewOS`. Nothing changes locally until the store answers; on
      success its canonical record is appended at the end and opened for
      editing, on failure only an error notification is added. */
  function Create(b: Board, outcome: Remote<Task>, toastId: string): (r: Board)
    ensures outcome.Ok? ==>
      r.tasks == b.tasks + [outcome.value] && r.selected == Some(outcome.value) && r.modalOpen
      && r.toasts == ShowToast(b.toasts, toastId, "O.S. Criada",
                               "Ordem de serviço " + outcome.value.osNumber + " iniciada.", SuccessToast)
    ensures outcome.Err? ==>
      r.tasks == b.tasks && r.selected == b.selected && r.modalOpen == b.modalOpen
      && r.toasts == ShowToast(b.toasts, toastId, "Erro", outcome.message, ErrorToast)
    ensures |r.toasts| == |b.toasts| + 1
    ensures r.dragged == b.dragged && r.clientTask == b.clientTask
  {
    match outcome
    case Ok(created) =>
      b.(tasks := b.tasks + [created], selected := Some(created), modalOpen := true,
         toasts := ShowToast(b.toasts, toastId, "O.S. Criada",
                             "Ordem de serviço " + created.osNumber + " iniciada.", SuccessToast))
    case Err(msg) =>
      b.(toasts := ShowToast(b.toasts, toastId, "Erro", msg, ErrorToast))
  }
}
