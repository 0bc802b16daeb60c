/** The board's fixed data: configuration values, the four columns in display
    order, the checklist every new order starts from, and the initial board. */
module Constants {
  import opened Orders
  import opened Text

  /** Milliseconds in a day, as the source writes it: 24 * 60 * 60 * 1000. */
  const MsPerDay: nat := 24 * 60 * 60 * 1000

  datatype Config = Config(diagnosticFeeCents: nat, budgetValidityDays: nat)

  /** The shop's configuration: a diagnostic fee of 70.00 and budgets valid for 10 days. */
  function AppConfig(): (c: Config)
    ensures c.diagnosticFeeCents == 7000
    ensures c.budgetValidityDays == 10
    ensures c.budgetValidityDays * MsPerDay == 864000000
  {
    Config(7000, 10)
  }

  datatype ColumnInfo = ColumnInfo(id: Column, title: string, color: string)

  /** The board columns, left to right. Every listed column appears exactly
      once and nothing else does. */
  function Columns(): (r: seq<ColumnInfo>)
    ensures |r| == 4
    ensures r[0].id == Entry && r[1].id == Approval && r[2].id == Execution && r[3].id == Done
    ensures forall i, j :: 0 <= i < j < |r| ==> r[i].id != r[j].id
    ensures forall c: Column :: (exists i :: 0 <= i < |r| && r[i].id == c) <==> !c.UnlistedColumn?
  {
    [ ColumnInfo(Entry, "Entrada / Triagem", "bg-slate-500"),
      ColumnInfo(Approval, "Aguardando Aprovação", "bg-yellow-500"),
      ColumnInfo(Execution, "Em Execução", "bg-blue-500"),
      ColumnInfo(Done, "Finalizado / Entregue", "bg-emerald-500") ]
  }

  /** The six checklist items a new order starts with: ids `cl-1` to `cl-6`,
      pairwise distinct, none checked. */
  function InitialChecklist(): (r: seq<ChecklistItem>)
    ensures |r| == 6
    ensures forall i :: 0 <= i < |r| ==> r[i].id == "cl-" + [DigitChar(i + 1)] && !r[i].checked
    ensures forall i, j :: 0 <= i < j < |r| ==> r[i].id != r[j].id
  {
    [ ChecklistItem("cl-1", "Liga/Desliga", false),
      ChecklistItem("cl-2", "Tela/Monitor ok", false),
      ChecklistItem("cl-3", "Carregador incluso", false),
      ChecklistItem("cl-4", "Parafusos ok", false),
      ChecklistItem("cl-5", "Teclado/Touchpad", false),
      ChecklistItem("cl-6", "Carcaça íntegra (sem trincas)", false) ]
  }

  /** The board starts with no orders; they are loaded from the remote store. */
  function InitialTasks(): (r: seq<Task>)
    ensures |r| == 0
  {
    []
  }
}
