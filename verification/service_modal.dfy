/** The order detail view's editing rules: the two workflow actions (finish
    service, guarded; send to approval, not guarded), the status select, the
    currency inputs, the checklist, the chat and the photo slots. The form is
    a working copy of the order; an action that saves hands the new order to
    the board's update handler. */
module ServiceModal {
  import opened Common
  import opened Text
  import opened Orders

  datatype Tab = InfoTab | TechnicalTab | FinancialTab | ChatTab

  /** The view's state: the working copy, the open tab, the chat input box,
      whether the technician signature pad is shown, and whether the view is open. */
  datatype Modal = Modal(form: Task, tab: Tab, chatInput: string, signingTech: bool, open: bool)

  /** What an action leaves behind, and the order it saved, if any. */
  datatype Step = Step(modal: Modal, saved: Option<Task>)

  // --------------------------------------------------------- workflow actions

  const MinReportLength: nat := 10
  const MaxPhotos: nat := 4

  predicate HasReport(t: Task) {
    |t.technicalObservation| >= MinReportLength
  }

  predicate HasTechSignature(t: Task) {
    t.techSignature.Some? && t.techSignature.value != ""
  }

  /** The guard of the finish action. No phone number is consulted. */
  predicate ReadyToFinish(t: Task) {
    HasReport(t) && HasTechSignature(t)
  }

  /** The chat entry the finish action records. */
  function ServiceDoneMessage(now: nat): ChatMessage {
    ChatMessage("sys-" + Decimal(now), System, "\U{1F6E0}\U{FE0F} Serviço concluído.", now)
  }

  /** `handleFinishService`. A report shorter than ten characters is rejected
      first and sends the user to the technical tab; then a missing technician
      signature is rejected and also opens the signature pad. Otherwise the
      order is saved in Done with exactly one system message appended to its
      chat, and the view closes. */
  function FinishService(m: Modal, now: nat): (s: Step)
    ensures s.saved.Some? <==> ReadyToFinish(m.form)
    ensures !HasReport(m.form) ==> s.modal == m.(tab := TechnicalTab)
    ensures HasReport(m.form) && !HasTechSignature(m.form) ==>
      s.modal == m.(tab := TechnicalTab, signingTech := true)
    ensures s.saved.Some? ==>
      var t := s.saved.value;
      var before := m.form.chatHistory;
      && t.columnId == Done
      && |t.chatHistory| == |before| + 1 && t.chatHistory[..|before|] == before
      && t.chatHistory[|before|].sender == System
      && t.(columnId := m.form.columnId, chatHistory := before) == m.form
      && !s.modal.open && s.modal.form == m.form
  {
    if !HasReport(m.form) then
      Step(m.(tab := TechnicalTab), None)
    else if !HasTechSignature(m.form) then
      Step(m.(tab := TechnicalTab, signingTech := true), None)
    else
      var done := m.form.(columnId := Done,
                          chatHistory := m.form.chatHistory + [ServiceDoneMessage(now)]);
      Step(m.(open := false), Some(done))
  }

  /** The finish guard does not look at the client's phone number. */
  lemma FinishIgnoresPhone(m: Modal, phone: string, now: nat)
    ensures FinishService(m.(form := m.form.(clientPhone := phone)), now).saved.Some?
        <==> FinishService(m, now).saved.Some?
  {
  }

  /** `handleSendToApproval`: saves the order in Approval and closes the view,
      whatever the form holds. */
  function SendToApproval(m: Modal): (s: Step)
    ensures s.saved.Some?
    ensures s.saved.value.columnId == Approval
    ensures s.saved.value.(columnId := m.form.columnId) == m.form
    ensures !s.modal.open
  {
    Step(m.(open := false), Some(m.form.(columnId := Approval)))
  }

  /** `handleSave`: saves the form as it is and closes the view. */
  function Save(m: Modal): (s: Step)
    ensures s.saved == Some(m.form) && !s.modal.open
  {
    Step(m.(open := false), Some(m.form))
  }

  /** The Status select writes the column directly, with no guard. It offers
      only the four listed columns. */
  function SetColumn(form: Task, c: Column): (r: Task)
    requires !c.UnlistedColumn?
    ensures r.columnId == c && r.(columnId := form.columnId) == form
  {
    form.(columnId := c)
  }

  /** The generic edit path reaches Done even for an order the finish action
      would refuse. */
  lemma StatusOverrideBypassesGuard(m: Modal)
    requires !ReadyToFinish(m.form)
    ensures Save(m.(form := SetColumn(m.form, Done))).saved.value.columnId == Done
    ensures FinishService(m, 0).saved.None?
  {
  }

  datatype Action = SendToApprovalAction | FinishAction | SaveAction | DeleteAction | PrintAction

  /** The footer buttons shown for an order in column `c`: send-to-approval
      only in Entry, finish only in Execution. */
  function OfferedActions(c: Column): (r: set<Action>)
    ensures SendToApprovalAction in r <==> c == Entry
    ensures FinishAction in r <==> c == Execution
    ensures SaveAction in r && DeleteAction in r && PrintAction in r
  {
    {SaveAction, DeleteAction, PrintAction}
    + (if c == Entry then {SendToApprovalAction} else {})
    + (if c == Execution then {FinishAction} else {})
  }

  // ------------------------------------------------------------------ money

  /** `handleCurrencyChange`: the digits typed, read as a number of cents. */
  function CurrencyCents(raw: string): (cents: nat)
    ensures KeepDigits(raw) == [] ==> cents == 0
  {
    ValueOf(KeepDigits(raw))
  }

  datatype CostField = PartsCost | ServiceCost

  function SetCost(form: Task, field: CostField, raw: string): (r: Task)
    ensures field == PartsCost ==> r.partsCost == CurrencyCents(raw) && r.(partsCost := form.partsCost) == form
    ensures field == ServiceCost ==> r.serviceCost == CurrencyCents(raw) && r.(serviceCost := form.serviceCost) == form
  {
    match field
    case PartsCost => form.(partsCost := CurrencyCents(raw))
    case ServiceCost => form.(serviceCost := CurrencyCents(raw))
  }

  /** Typing one more digit shifts the amount one place left and adds the digit,
      as a cash-register entry does; any other character is ignored. */
  lemma CurrencyTyping(raw: string, c: char)
    ensures IsDigit(c) ==> CurrencyCents(raw + [c]) == 10 * CurrencyCents(raw) + DigitValue(c)
    ensures !IsDigit(c) ==> CurrencyCents(raw + [c]) == CurrencyCents(raw)
  {
    FilterAppend(raw, [c], IsDigit);
    var k := KeepDigits(raw + [c]);
    if IsDigit(c) {
      assert k == KeepDigits(raw) + [c];
      assert k[..|k| - 1] == KeepDigits(raw);
    } else {
      assert k == KeepDigits(raw);
    }
  }

  /** A non-digit anywhere in the input is ignored. */
  lemma CurrencyIgnoresNonDigit(a: string, c: char, b: string)
    requires !IsDigit(c)
    ensures CurrencyCents(a + [c] + b) == CurrencyCents(a + b)
  {
    FilterSkips(a, c, b, IsDigit);
  }

  /** Entering the decimal digits of an amount in cents stores that amount. */
  lemma CurrencyRoundTrip(cents: nat)
    ensures CurrencyCents(Decimal(cents)) == cents
  {
    FilterKeepsAll(Decimal(cents), IsDigit);
  }

  // -------------------------------------------------------------- checklist

  /** `toggleChecklist`: flips `checked` on the items with that id only. */
  function ToggleChecklist(form: Task, id: string): (r: Task)
    ensures |r.checklist| == |form.checklist|
    ensures forall i :: 0 <= i < |form.checklist| && form.checklist[i].id == id ==>
      r.checklist[i].checked == !form.checklist[i].checked
      && r.checklist[i].(checked := form.checklist[i].checked) == form.checklist[i]
    ensures forall i :: 0 <= i < |form.checklist| && form.checklist[i].id != id ==>
      r.checklist[i] == form.checklist[i]
    ensures r.(checklist := form.checklist) == form
  {
    var cl := form.checklist;
    form.(checklist := seq(|cl|, i requires 0 <= i < |cl| =>
      if cl[i].id == id then cl[i].(checked := !cl[i].checked) else cl[i]))
  }

  /** Toggling the same item twice restores the form. */
  lemma ToggleTwice(form: Task, id: string)
    ensures ToggleChecklist(ToggleChecklist(form, id), id) == form
  {
    var r := ToggleChecklist(ToggleChecklist(form, id), id);
    assert r.checklist == form.checklist;
  }

  // ------------------------------------------------------------------- chat

  /** `handleSendChat`: blank input is ignored; otherwise exactly one technician
      message with the typed text is appended and the input box is cleared. */
  function SendChat(m: Modal, now: nat): (r: Modal)
    ensures IsBlank(m.chatInput) ==> r == m
    ensures !IsBlank(m.chatInput) ==>
      var before := m.form.chatHistory;
      var chat := r.form.chatHistory;
      && |chat| == |before| + 1 && chat[..|before|] == before
      && chat[|before|].sender == Tech && chat[|before|].message == m.chatInput
      && r.form.(chatHistory := before) == m.form
      && r.chatInput == ""
  {
    if IsBlank(m.chatInput) then m
    else
      var msg := ChatMessage("msg-" + Decimal(now), Tech, m.chatInput, now);
      m.(form := m.form.(chatHistory := m.form.chatHistory + [msg]), chatInput := "")
  }

  /** The chat only grows at its end: no action rewrites an earlier message. */
  lemma ChatAppendOnly(m: Modal, now: nat, now': nat)
    ensures m.form.chatHistory <= SendChat(m, now).form.chatHistory
    ensures FinishService(m, now').saved.Some? ==>
      m.form.chatHistory <= FinishService(m, now').saved.value.chatHistory
  {
  }

  // ----------------------------------------------------------------- photos

  /** `handlePhotoUpload` (count logic): a chosen file, once compressed, is
      added only while fewer than four photos are attached. */
  function UploadPhoto(form: Task, compressed: Option<string>): (r: Task)
    ensures compressed.Some? && |form.photos| < MaxPhotos ==> r.photos == form.photos + [compressed.value]
    ensures compressed.None? || |form.photos| >= MaxPhotos ==> r == form
    ensures |form.photos| <= MaxPhotos ==> |r.photos| <= MaxPhotos
    ensures r.(photos := form.photos) == form
  {
    if compressed.Some? && |form.photos| < MaxPhotos then
      form.(photos := form.photos + [compressed.value])
    else
      form
  }

  /** `filter((_, i) => i !== index)`: the list without position `index`. */
  function DropIndex(p: seq<string>, index: int): (r: seq<string>)
    ensures 0 <= index < |p| ==> r == p[..index] + p[index + 1..]
    ensures !(0 <= index < |p|) ==> r == p
    decreases |p|
  {
    if p == [] then []
    else if index == 0 then p[1..]
    else [p[0]] + DropIndex(p[1..], index - 1)
  }

  /** `removePhoto`: drops exactly the photo at that position; the others keep
      their order, and an out-of-range position changes nothing. */
  function RemovePhoto(form: Task, index: int): (r: Task)
    ensures 0 <= index < |form.photos| ==>
      |r.photos| == |form.photos| - 1 && r.photos == form.photos[..index] + form.photos[index + 1..]
    ensures !(0 <= index < |form.photos|) ==> r == form
    ensures r.(photos := form.photos) == form
  {
    form.(photos := DropIndex(form.photos, index))
  }

  /** Removing the photo just uploaded undoes the upload. */
  lemma UploadThenRemove(form: Task, photo: string)
    requires |form.photos| < MaxPhotos
    ensures RemovePhoto(UploadPhoto(form, Some(photo)), |form.photos|) == form
  {
    var p := form.photos + [photo];
    assert p[..|form.photos|] + p[|form.photos| + 1..] == form.photos;
  }

  datatype PhotoEdit = Upload(compressed: Option<string>) | Remove(index: int)

  function ApplyPhotoEdits(form: Task, edits: seq<PhotoEdit>): Task
    decreases |edits|
  {
    if edits == [] then form
    else
      var next := match edits[0]
        case Upload(c) => UploadPhoto(form, c)
        case Remove(i) => RemovePhoto(form, i);
      ApplyPhotoEdits(next, edits[1..])
  }

  /** However uploads and removals are interleaved, an order that starts with
      at most four photos never holds more than four, and nothing but its
      photos changes. */
  lemma {:induction false} PhotoLimitHolds(form: Task, edits: seq<PhotoEdit>)
    requires |form.photos| <= MaxPhotos
    ensures |ApplyPhotoEdits(form, edits).photos| <= MaxPhotos
    ensures ApplyPhotoEdits(form, edits).(photos := form.photos) == form
    decreases |edits|
  {
    if edits != [] {
      var next := match edits[0]
        case Upload(c) => UploadPhoto(form, c)
        case Remove(i) => RemovePhoto(form, i);
      PhotoLimitHolds(next, edits[1..]);
    }
  }
}
