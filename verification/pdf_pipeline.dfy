/** The order editor's PDF export as a small event-driven state machine. The
    document capture itself is a foreign library call; only the flags that
    drive it, the delayed capture timer, the outcome notices and the file
    name are modelled. The delay is an abstract `TimerFires` event. */
module PdfPipeline {
  import opened Common

  /** Which document is printed: the entry receipt or the full order. */
  datatype Mode = EntryReceipt | FullOrder

  /** The export flags of the editor. `timerPending` is the delayed capture
      the effect on (generating, ready) has armed and not yet cleared. */
  datatype Pdf = Pdf(mode: Mode, printing: bool, generating: bool, ready: bool, timerPending: bool)

  /** What the capture step finds when the timer fires: the document root
      missing, the library missing, or the save resolving or rejecting. */
  datatype Capture = NoElement | NoLibrary | CaptureSaved | CaptureFailed

  datatype Event =
    | Reopen                  // the editor is shown again or given another order
    | OpenPrint               // the editor's "PDF" button
    | ClosePrint              // "Fechar" in the print view
    | SelectMode(m: Mode)     // one of the two mode buttons in the print view
    | RequestPdf              // "Baixar PDF" (disabled while generating)
    | CancelPdf               // "Cancelar" on the generating overlay
    | ContentReady            // the printed document reports it has loaded
    | TimerFires(capture: Capture)

  /** A step's result: the next flags, the file downloaded (if any) and the
      title of the notice shown (if any). */
  datatype Transition = Transition(next: Pdf, download: Option<string>, notice: Option<string>)

  function Initial(): (s: Pdf)
    ensures !s.printing && !s.generating && !s.ready && !s.timerPending
  {
    Pdf(FullOrder, false, false, false, false)
  }

  /** The name the document is saved under. */
  function Filename(mode: Mode, os: string): (name: string)
    ensures mode.EntryReceipt? ==> name == "Recibo-Entrada-" + os + ".pdf"
    ensures mode.FullOrder? ==> name == "OS-" + os + ".pdf"
  {
    match mode
    case EntryReceipt => "Recibo-Entrada-" + os + ".pdf"
    case FullOrder => "OS-" + os + ".pdf"
  }

  function Prefix(mode: Mode): string {
    if mode.EntryReceipt? then "Recibo-Entrada-" else "OS-"
  }

  /** A file name is the mode's prefix, the order number and the extension;
      the prefixes of the two modes start with different letters. */
  lemma FilenameParts(mode: Mode, os: string)
    ensures Filename(mode, os) == Prefix(mode) + os + ".pdf"
    ensures Filename(mode, os)[0] == (if mode.EntryReceipt? then 'R' else 'O')
    ensures Filename(mode, os)[|Prefix(mode)|..|Filename(mode, os)| - 4] == os
  {
    var n := Filename(mode, os);
    assert n[|Prefix(mode)|..|n| - 4] == os;
  }

  /** Different modes or different order numbers never share a file name. */
  lemma FilenameInjective(m1: Mode, os1: string, m2: Mode, os2: string)
    requires Filename(m1, os1) == Filename(m2, os2)
    ensures m1 == m2 && os1 == os2
  {
    var n := Filename(m1, os1);
    FilenameParts(m1, os1);
    FilenameParts(m2, os2);
    if m1 == m2 {
      assert os1 == n[|Prefix(m1)|..|n| - 4];
    }
  }

  /** The effect on (generating, ready): when either flag changed, the pending
      timer is cleared and re-armed exactly when both now hold; when neither
      changed, the timer is left as it was. */
  function Settle(before: Pdf, after: Pdf): (s: Pdf)
    ensures s == after.(timerPending := s.timerPending)
    ensures (before.generating, before.ready) != (after.generating, after.ready) ==>
      (s.timerPending <==> after.generating && after.ready)
    ensures (before.generating, before.ready) == (after.generating, after.ready) ==>
      s.timerPending == after.timerPending
  {
    if before.generating != after.generating || before.ready != after.ready
    then after.(timerPending := after.generating && after.ready)
    else after
  }

  /** The capture step: every path ends with generating cleared; only a
      completed save downloads the file. */
  function Execute(s: Pdf, os: string, capture: Capture): (t: Transition)
    ensures !t.next.generating && t.notice.Some?
    ensures t.download.Some? <==> capture.CaptureSaved?
    ensures t.download.Some? ==> t.download.value == Filename(s.mode, os)
    ensures t.next == s.(generating := false)
  {
    var stopped := s.(generating := false);
    match capture
    case NoElement => Transition(stopped, None, Some("Erro Interno"))
    case NoLibrary => Transition(stopped, None, Some("Erro de PDF"))
    case CaptureSaved => Transition(stopped, Some(Filename(s.mode, os)), Some("Download Iniciado"))
    case CaptureFailed => Transition(stopped, None, Some("Erro ao Gerar PDF"))
  }

  /** How the editor's "PDF" button treats the ready flag. As written it
      keeps the flag from the previous visit to the print view; the
      corrected rule clears it, since the document is rendered afresh. */
  datatype OpenRule = KeepReady | ResetReady

  /** The flags an event sets before the effect runs. Buttons of the print
      view act only while it is shown; the editor's own button only while it
      is not. No event touches the timer, and only a load report of the
      shown document sets the ready flag. */
  function Raw(s: Pdf, e: Event, rule: OpenRule): (r: Pdf)
    ensures r.timerPending == s.timerPending
    ensures r.ready && !s.ready ==> e.ContentReady? && s.printing
    ensures r.generating && !s.generating ==> e.RequestPdf? && s.printing
    ensures !s.printing && !e.OpenPrint? && !e.Reopen? ==> r == s
    ensures e.OpenPrint? && !s.printing ==> r.printing && r.mode == FullOrder
    ensures e.OpenPrint? && !s.printing ==> (r.ready <==> rule.KeepReady? && s.ready)
  {
    // While generating, the overlay covers the close and mode buttons, so
    // `ClosePrint` and `SelectMode` then do not occur in the code. The model
    // lets them act anyway: a superset of the real behaviours, for which
    // every property below is still proved.
    match e
    case Reopen => s.(mode := FullOrder, ready := false)
    case OpenPrint =>
      if s.printing then s
      else if rule.ResetReady? then s.(mode := FullOrder, printing := true, ready := false)
      else s.(mode := FullOrder, printing := true)
    case ClosePrint => s.(printing := false)
    case SelectMode(m) => if s.printing then s.(mode := m, ready := false) else s
    case RequestPdf => if s.printing && !s.generating then s.(generating := true) else s
    case CancelPdf => if s.printing && s.generating then s.(generating := false) else s
    case ContentReady => if s.printing then s.(ready := true) else s
    case TimerFires(_) => s
  }

  /** One event. A firing timer runs the capture only when it is pending;
      the timer is spent by firing. */
  function Step(s: Pdf, os: string, e: Event, rule: OpenRule): (t: Transition)
    ensures (t.download.Some? || t.notice.Some?) ==> e.TimerFires? && s.timerPending
    ensures e.TimerFires? && s.timerPending ==> !t.next.generating && !t.next.timerPending
    ensures !e.TimerFires? ==> t.next == Settle(s, Raw(s, e, rule))
  {
    match e
    case TimerFires(capture) =>
      if s.timerPending then
        var x := Execute(s.(timerPending := false), os, capture);
        x.(next := Settle(s, x.next))
      else Transition(s, None, None)
    case _ => Transition(Settle(s, Raw(s, e, rule)), None, None)
  }

  /** A pending timer always belongs to a generation whose document is ready. */
  predicate Inv(s: Pdf) {
    s.timerPending ==> s.generating && s.ready
  }

  lemma StepKeepsInv(s: Pdf, os: string, e: Event, rule: OpenRule)
    requires Inv(s)
    ensures Inv(Step(s, os, e, rule).next)
  {
  }

  /** Capture runs only when the timer is pending, hence only while both
      generating and ready hold; every exit path of the capture then stops
      generating, and the file saved is the one named by the current mode. */
  lemma CaptureOnlyWhenArmed(s: Pdf, os: string, c: Capture, rule: OpenRule)
    requires Inv(s)
    ensures Step(s, os, TimerFires(c), rule).notice.Some? ==> s.generating && s.ready
    ensures s.timerPending ==> !Step(s, os, TimerFires(c), rule).next.generating
    ensures s.timerPending && c.CaptureSaved? ==>
      Step(s, os, TimerFires(c), rule).download == Some(Filename(s.mode, os))
    ensures !s.timerPending ==> Step(s, os, TimerFires(c), rule) == Transition(s, None, None)
  {
  }

  /** Cancelling from the generating overlay stops generation and clears the
      pending timer. */
  lemma CancelStops(s: Pdf, os: string, rule: OpenRule)
    requires s.printing && s.generating
    ensures !Step(s, os, CancelPdf, rule).next.generating
    ensures !Step(s, os, CancelPdf, rule).next.timerPending
  {
  }

  /** Switching mode in the print view, or reopening the editor, marks the
      document not ready and so clears any pending capture; reopening also
      returns to the full order. */
  lemma ModeSwitchResetsReady(s: Pdf, os: string, m: Mode, rule: OpenRule)
    requires Inv(s)
    ensures s.printing ==> var n := Step(s, os, SelectMode(m), rule).next;
      n.mode == m && !n.ready && !n.timerPending
    ensures var n := Step(s, os, Reopen, rule).next;
      n.mode == FullOrder && !n.ready && !n.timerPending
  {
  }

  /** Running a sequence of events: the final flags and the files downloaded
      along the way, in order. */
  datatype Trace = Trace(final: Pdf, files: seq<string>)

  function Run(s: Pdf, os: string, events: seq<Event>, rule: OpenRule): Trace
    decreases |events|
  {
    if |events| == 0 then Trace(s, [])
    else
      var t := Step(s, os, events[0], rule);
      var rest := Run(t.next, os, events[1..], rule);
      Trace(rest.final, (if t.download.Some? then [t.download.value] else []) + rest.files)
  }

  /** Running two sequences one after the other is running their
      concatenation: the second starts from where the first ended, and the
      downloads add up. */
  lemma {:induction false} RunAppend(s: Pdf, os: string, a: seq<Event>, b: seq<Event>, rule: OpenRule)
    ensures var first := Run(s, os, a, rule);
      var second := Run(first.final, os, b, rule);
      Run(s, os, a + b, rule) == Trace(second.final, first.files + second.files)
    decreases |a|
  {
    if |a| == 0 {
      assert a + b == b;
    } else {
      assert (a + b)[0] == a[0];
      assert (a + b)[1..] == a[1..] + b;
      RunAppend(Step(s, os, a[0], rule).next, os, a[1..], b, rule);
    }
  }

  lemma {:induction false} RunKeepsInv(s: Pdf, os: string, events: seq<Event>, rule: OpenRule)
    requires Inv(s)
    ensures Inv(Run(s, os, events, rule).final)
    decreases |events|
  {
    if |events| > 0 {
      StepKeepsInv(s, os, events[0], rule);
      RunKeepsInv(Step(s, os, events[0], rule).next, os, events[1..], rule);
    }
  }

  /** No file is saved before the document reports ready: from flags that are
      not ready, a run without a `ContentReady` event downloads nothing. */
  lemma {:induction false} NoCaptureBeforeReady(s: Pdf, os: string, events: seq<Event>, rule: OpenRule)
    requires Inv(s) && !s.ready
    requires forall i :: 0 <= i < |events| ==> !events[i].ContentReady?
    ensures Run(s, os, events, rule).files == []
    ensures !Run(s, os, events, rule).final.ready
    decreases |events|
  {
    if |events| > 0 {
      var t := Step(s, os, events[0], rule);
      assert !t.next.ready && t.download.None?;
      StepKeepsInv(s, os, events[0], rule);
      NoCaptureBeforeReady(t.next, os, events[1..], rule);
    }
  }

  /** With the corrected rule, every visit to the print view starts from a
      document that has not reported ready: after opening it, nothing is
      saved until the document shown reports it has loaded. */
  lemma NoCaptureBeforeReadyAfterOpen(s: Pdf, os: string, events: seq<Event>)
    requires Inv(s) && !s.printing
    requires forall i :: 0 <= i < |events| ==> !events[i].ContentReady?
    ensures Run(s, os, [OpenPrint] + events, ResetReady).files == []
  {
    var t := Step(s, os, OpenPrint, ResetReady);
    assert !t.next.ready && t.download.None?;
    StepKeepsInv(s, os, OpenPrint, ResetReady);
    NoCaptureBeforeReady(t.next, os, events, ResetReady);
    assert ([OpenPrint] + events)[1..] == events;
  }

  /** Opening the view, switching to the entry receipt, letting it load and
      closing the view: nothing is saved and the closed view keeps the ready
      flag, under either rule. */
  lemma LoadThenClose(os: string, rule: OpenRule)
    ensures Run(Initial(), os, [OpenPrint, SelectMode(EntryReceipt), ContentReady, ClosePrint], rule)
      == Trace(Pdf(EntryReceipt, false, false, true, false), [])
  {
    var a := [OpenPrint, SelectMode(EntryReceipt), ContentReady, ClosePrint];
    var closed := Pdf(EntryReceipt, false, false, true, false);
    var s3 := Pdf(EntryReceipt, true, false, true, false);
    var a3 := [ClosePrint];
    assert a3[1..] == [];
    assert Run(s3, os, a3, rule) == Trace(closed, []);
    var s2 := Pdf(EntryReceipt, true, false, false, false);
    var a2 := [ContentReady] + a3;
    assert a2[1..] == a3;
    assert Step(s2, os, a2[0], rule) == Transition(s3, None, None);
    var s1 := Pdf(FullOrder, true, false, false, false);
    var a1 := [SelectMode(EntryReceipt)] + a2;
    assert a1[1..] == a2;
    assert Step(s1, os, a1[0], rule) == Transition(s2, None, None);
    assert a == [OpenPrint] + a1;
    assert a[1..] == a1;
    assert Step(Initial(), os, a[0], rule) == Transition(s1, None, None);
  }

  /** As written, reopening the closed view on the full order and requesting
      the file saves it at once: the flag set by the entry receipt still
      holds. */
  lemma StaleReopen(os: string)
    ensures Run(Pdf(EntryReceipt, false, false, true, false), os,
                [OpenPrint, RequestPdf, TimerFires(CaptureSaved)], KeepReady).files
      == ["OS-" + os + ".pdf"]
  {
    var b := [OpenPrint, RequestPdf, TimerFires(CaptureSaved)];
    var closed := Pdf(EntryReceipt, false, false, true, false);
    var file := "OS-" + os + ".pdf";
    var done := Pdf(FullOrder, true, false, true, false);
    var b2 := [TimerFires(CaptureSaved)];
    var armed := Pdf(FullOrder, true, true, true, true);
    assert b2[1..] == [];
    assert Step(armed, os, b2[0], KeepReady) == Transition(done, Some(file), Some("Download Iniciado"));
    assert Run(armed, os, b2, KeepReady) == Trace(done, [file]);
    var b1 := [RequestPdf] + b2;
    var reopened := Pdf(FullOrder, true, false, true, false);
    assert b1[1..] == b2;
    assert Step(reopened, os, b1[0], KeepReady) == Transition(armed, None, None);
    assert b == [OpenPrint] + b1;
    assert b[1..] == b1;
    assert Step(closed, os, b[0], KeepReady) == Transition(reopened, None, None);
  }

  /** As written, a load report from an earlier visit still counts after the
      view is closed and opened again: the entry receipt loads, the view is
      closed and reopened on the full order, and a request saves the full
      order before it has reported ready. Under the corrected rule the same
      events save nothing. */
  lemma StaleReadyCapture(os: string)
    ensures var events := [OpenPrint, SelectMode(EntryReceipt), ContentReady, ClosePrint,
                           OpenPrint, RequestPdf, TimerFires(CaptureSaved)];
      Run(Initial(), os, events, KeepReady).files == ["OS-" + os + ".pdf"]
      && Run(Initial(), os, events, ResetReady).files == []
  {
    var a := [OpenPrint, SelectMode(EntryReceipt), ContentReady, ClosePrint];
    var b := [OpenPrint, RequestPdf, TimerFires(CaptureSaved)];
    var closed := Pdf(EntryReceipt, false, false, true, false);
    assert a + b == [OpenPrint, SelectMode(EntryReceipt), ContentReady, ClosePrint,
                     OpenPrint, RequestPdf, TimerFires(CaptureSaved)];
    LoadThenClose(os, KeepReady);
    LoadThenClose(os, ResetReady);
    RunAppend(Initial(), os, a, b, KeepReady);
    RunAppend(Initial(), os, a, b, ResetReady);
    StaleReopen(os);
    assert b == [OpenPrint] + b[1..];
    NoCaptureBeforeReadyAfterOpen(closed, os, b[1..]);
  }

  /** Opening the print view, requesting the file and the document loading
      arms the capture; the timer then saves the full order's file. */
  lemma HappyPath(os: string, rule: OpenRule)
    ensures var events := [OpenPrint, RequestPdf, ContentReady, TimerFires(CaptureSaved)];
      Run(Initial(), os, events, rule) ==
        Trace(Pdf(FullOrder, true, false, true, false), ["OS-" + os + ".pdf"])
  {
    var file := "OS-" + os + ".pdf";
    var s4 := Pdf(FullOrder, true, false, true, false);
    var e3 := [TimerFires(CaptureSaved)];
    var s3 := Pdf(FullOrder, true, true, true, true);
    assert e3[1..] == [];
    assert Step(s3, os, e3[0], rule) == Transition(s4, Some(file), Some("Download Iniciado"));
    assert Run(s3, os, e3, rule) == Trace(s4, [file]);
    var e2 := [ContentReady] + e3;
    var s2 := Pdf(FullOrder, true, true, false, false);
    assert e2[1..] == e3;
    assert Step(s2, os, e2[0], rule) == Transition(s3, None, None);
    assert Run(s2, os, e2, rule) == Trace(s4, [file]);
    var e1 := [RequestPdf] + e2;
    var s1 := Pdf(FullOrder, true, false, false, false);
    assert e1[1..] == e2;
    assert Step(s1, os, e1[0], rule) == Transition(s2, None, None);
    assert Run(s1, os, e1, rule) == Trace(s4, [file]);
    var e0 := [OpenPrint] + e1;
    assert e0[1..] == e1;
    assert Step(Initial(), os, e0[0], rule) == Transition(s1, None, None);
  }
}
