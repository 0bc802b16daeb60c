# Repair-order board — a Dafny model of its core rules

The system is a kanban board for an electronics repair shop. Each card is a
repair order ("O.S."): an equipment, a client, a technical report, a
checklist, a chat log, photos, two costs and a budget that expires unless
approved. Orders move through four columns: Entry, Approval, Execution,
Done. The board keeps its collection in memory and mirrors every change to a
remote table.

This project models the rules of that core as pure functions over immutable
datatypes, and proves properties about them:

- `Orders`: the order record and its enums (`orders.dfy`).
- `Constants`: the configuration, the four columns, the initial checklist
  and the initial collection (`constants.dfy`).
- `Wire`: the two total mappings between a table row and an order, the
  legacy-tag filter and the insert payload (`wire.dfy`).
- `Card`: the expiry predicate and the priority badge of a card (`card.dfy`).
- `App`: the coordinator (`app.dfy`). It covers the optimistic move, delete
  and update with their rollback rules, and the blocking create with its
  order-number format. It also covers the search filter, the per-column
  views, the notification list and the 50-line debug buffer.
- `ServiceModal`: the order editor's rules (`service_modal.dfy`). It covers
  the guarded finish action, the unguarded send-to-approval and Status
  select, currency entry in cents, the checklist, the chat and the four
  photo slots.
- `PdfPipeline`: the export flags as an event-driven state machine with its
  delayed capture and file name (`pdf_pipeline.dfy`). The machine takes the
  rule for opening the print view as a parameter: `KeepReady` is the code as
  written, `ResetReady` the correction described under Findings. Every
  property of the machine is proved for both rules, except the two that
  tell them apart.
- `AIGenerator`: the mapping from language-model suggestions to new orders
  (`ai_generator.dfy`).
- `Common` and `Text`: shared helpers (`common.dfy`, `text.dfy`). `Common`
  holds an order-preserving filter and an option type. `Text` holds
  decimal digits, zero padding, lower-casing of Basic Latin and Latin-1
  letters, substring search and blank strings.

Every outside dependency becomes a parameter of the function that uses it:

- the result of a remote call, as `Remote<T>`: `Ok(value)` or
  `Err(message)`;
- the clock (`now`; one parameter per read where the model keeps the reads apart);
- random draws;
- the id a new notification gets;
- the outcome of the PDF capture.

Money is held in integer cents. Times are integer epoch milliseconds.

No action checks the client's phone:

- `ServiceModal.SendToApproval` saves in Approval whatever the form holds.
- `ServiceModal.FinishService` looks only at the report and the
  technician's signature. `ServiceModal.FinishIgnoresPhone` proves that the
  phone plays no part.
- `App.Drop` and `ServiceModal.SetColumn` write the column with no guard at
  all. `ServiceModal.StatusOverrideBypassesGuard` shows the Status select
  reaching Done for an order the finish action refuses.

The definitions of `types.ts` are not part of this model. The stored
spellings of the enums are taken to be "Low"/"Medium"/"High"/"Urgent" and
"entry"/"approval"/"execution"/"done". A stored string outside these passes
through the casts unchanged, so both enums carry an "unlisted" constructor.

## Model

| member | source | states |
|---|---|---|
| Constants.AppConfig | constants.ts:19-22 | the diagnostic fee is 7000 cents and a budget is valid for 10 days (864 000 000 ms) |
| Constants.Columns | constants.ts:24-29 | exactly four columns with distinct ids, in the order Entry, Approval, Execution, Done; a column is listed iff it is one of the four |
| Constants.InitialChecklist | constants.ts:31-38 | six items with ids `cl-1` … `cl-6`, pairwise distinct, all unchecked |
| Constants.InitialTasks | constants.ts:40 | the initial collection is empty |
| Orders.ParsePriority | services/taskService.ts:36 | the cast keeps the stored string: the parsed priority's name is the string read |
| Orders.ParseColumn | services/taskService.ts:37 | the cast keeps the stored string: the parsed column's name is the string read |
| Orders.StorableNames | services/taskService.ts:36-37 | each listed priority and column survives a write and a read; an unlisted value does iff its string is non-empty and not a listed name |
| Wire.FromWire | services/taskService.ts:6-57 | every field of the order is fixed by the row: a present non-empty string, an array, a number and a stored approval flag are kept as they are; otherwise S/N, Sem Título, Medium, Entry and "" for missing strings (cpf, address and serial included), [] for non-arrays, 0 for NaN costs, false for a missing approval, and no signature for an empty one; the enums keep the stored string and are the value that string reads back as, so a stored "entry" is the Entry column; expiry is the stored one when non-zero, else creation time plus ten days, shifted by the gap between the two clock reads when the row has no creation date, so never later than that when the clock does not run backwards |
| Wire.FromWireEnums | services/taskService.ts:36-37 | a stored priority or column string is read as exactly the value it names; "entry" gives the Entry column, never an unlisted one |
| Orders.StorableByName | services/taskService.ts:36-37 | two storable priorities or columns with the same stored string are the same value |
| Wire.CleanTags | services/taskService.ts:62-68 | keeps exactly the tags without a legacy prefix (TECH_SIG:, EXPIRY:, CLIENT_CPF:, CLIENT_ADDR:), each as often as it occurs, in their original order |
| Wire.CleanTagsIdempotent | services/taskService.ts:62-68 | cleaning twice is cleaning once; cleaning changes nothing iff no tag has a legacy prefix |
| Wire.CleanTagsAppend | services/taskService.ts:62-68 | cleaning a concatenation cleans each part separately |
| Wire.ToWire | services/taskService.ts:70-104 | the written row carries no id, and its tags are the cleaned tags, none with a legacy prefix |
| Wire.CreatePayload | services/taskService.ts:138-142 | the insert payload never carries an id: the id-stripping step removes a field the write mapping never sets |
| Wire.RoundTrip | services/taskService.ts:6-105 | reading back a stored order gives the order itself when it meets `RoundTrips`: non-empty number and title, cpf/address/serial present, no empty signature, non-zero dates, storable enums, no legacy tags |
| Wire.RoundTripOnlyIf | services/taskService.ts:6-105 | conversely, for a non-negative creation time read at a positive time, an order that comes back unchanged meets every condition of `RoundTrips` |
| Card.IsExpired | components/TaskCard.tsx:28 | only an unapproved order with a deadline the clock has passed shows as expired, and every one whose deadline is positive does |
| Card.ExpiryCases | components/TaskCard.tsx:28 | an approved order, or one without a deadline or with a zero deadline, is never expired; otherwise it is expired iff now is strictly past the deadline, so not at the deadline itself |
| Card.ExpiryMonotone | components/TaskCard.tsx:28 | once expired, an order stays expired at every later time |
| Card.PriorityBadge | components/TaskCard.tsx:12-18 | a non-empty style exactly for the four listed priorities; none for an unlisted one |
| Card.BadgesDistinct | components/TaskCard.tsx:13-18 | the four listed priorities get four different styles |
| App.ShowToast | App.tsx:65-68 | appends exactly one notification after the existing ones, with the given id and kind |
| App.RemoveToast | App.tsx:70-72 | removes exactly the notifications with that id and keeps the rest, each as often as before, in order |
| App.ShowThenRemove | App.tsx:65-72 | dismissing a freshly shown notification with a new id restores the list |
| App.PushLog | App.tsx:28-30 | appends the line; a full buffer of 50 drops its oldest line first, so the buffer never exceeds 50 |
| App.LogKeepsNewest | App.tsx:19-34 | after any sequence of lines the buffer is exactly the 50 most recent lines (or all of them while fewer were logged) |
| App.FilteredTasks | App.tsx:282-291 | an empty query returns the whole collection; otherwise exactly the orders whose lower-cased title, number, client or equipment contains the lower-cased query, each as often as on the board, as an order-preserving subsequence |
| Text.LowerIdempotent | App.tsx:284 | lower-casing twice is lower-casing once, and a string is its own lower case iff it has no capital letter (A-Z, À-Þ) |
| App.QueryCaseInsensitive | App.tsx:282-291 | a query and its lower case show the same orders |
| App.AccentedQueryMatches | App.tsx:284-286 | the query `ção` finds an order titled `INSTALAÇÃO`: accented capitals fold as well |
| App.ColumnView | App.tsx:428 | a column shows exactly the orders whose column is that one, each as often as on the board, in board order |
| App.ColumnViewsPartition | App.tsx:422-428 | the four column views together with the unlisted-column orders account for every order exactly once |
| App.MoveLocal | App.tsx:189-191 | only the entries with the dragged id change, and only in their column; length and order are kept |
| App.DragStart | App.tsx:174-177 | remembers the dragged id and changes nothing else |
| App.DragThenDrop | App.tsx:174-203 | dragging a card and dropping it leaves nothing dragged; a failed update of an existing order restores the collection, a successful one applies the move; other orders never change |
| App.Drop | App.tsx:184-203 | no dragged id: no-op; a failed update of an existing order restores the pre-drop collection exactly, with one error notification; otherwise the local move stands; the dragged id is cleared in every case; no workflow guard on the target, which is one of the four columns |
| App.DropUnknownIdKeepsTasks | App.tsx:194-197 | a drop whose dragged id matches no order leaves every order unchanged |
| App.RemoveById | App.tsx:210 | removes exactly the entries with that id; the rest keep their order and their number of occurrences |
| App.Delete | App.tsx:205-218 | an empty id is a no-op; otherwise the detail view closes, and a successful delete removes the id with a success notification while a failed one restores the original collection with an error notification |
| App.DeleteRemovesAll | App.tsx:205-218 | after a successful delete no entry has that id, and deleting again removes nothing more |
| App.Replace | App.tsx:224 | replace-by-id: exactly the entries with the record's id become the record; length and all other entries kept |
| App.Update | App.tsx:220-231 | the edit is applied locally (and to the client portal's order with that id); success replaces those entries again by the canonical record; failure reverts nothing and adds one error notification |
| App.EditorSave | App.tsx:450-453 | the editor's save shows the "Salvo" success notice whatever the store answers; a rejection adds "Erro ao Salvar" after it; the collection is as after the update |
| App.FailedSaveShowsBoth | App.tsx:450-453 | a rejected save leaves both a "Salvo" success notice and an "Erro ao Salvar" error notice |
| App.ReplaceIdempotent | App.tsx:224 | replacing by id twice with the same record is replacing once |
| App.UpdateTwice | App.tsx:224-227 | two successful updates with the same edit and the same canonical record leave the collection of one |
| App.FailedUpdateKeepsEdit | App.tsx:224-229 | a failed update keeps the edit in every matching entry, and repeating it changes nothing further |
| App.OsNumber | App.tsx:234-236 | a new order number starts with `OS-` and has between 7 and 10 characters |
| App.OsNumberDigits | App.tsx:234-237 | a new order number is `OS-` then digits only; from 1000 ms on, exactly seven digits: the time modulo 10000, then the draw padded to three |
| App.NewStub | App.tsx:239-261 | the stub has an empty id, the requested column, the initial checklist, zero costs, no approval, creation time now and expiry now + validity days × 86 400 000 |
| App.NewStubPayload | services/taskService.ts:138-142 | the row inserted for a new order has no id, the requested column and an expiry 864 000 000 ms after creation |
| App.Create | App.tsx:263-274 | nothing changes locally before the store answers; success appends the canonical record at the end, opens it and adds the "O.S. Criada" notice naming its order number; failure changes the collection not at all and adds an error notification |
| ServiceModal.FinishService | components/ServiceModal.tsx:227-242 | saves iff report has ≥ 10 characters and a technician signature exists; a short report is checked first and only switches to the technical tab; a missing signature also opens the pad; success saves in Done with the old chat plus exactly one system message and nothing else changed |
| ServiceModal.FinishIgnoresPhone | components/ServiceModal.tsx:229-239 | whether finish succeeds does not depend on the client's phone |
| ServiceModal.SendToApproval | components/ServiceModal.tsx:243 | always saves, in Approval, with every other field as in the form, and closes the view |
| ServiceModal.Save | components/ServiceModal.tsx:225 | saves the form unchanged and closes the view |
| ServiceModal.SetColumn | components/ServiceModal.tsx:313-317 | the Status select sets the column to any of the four listed columns and changes nothing else |
| ServiceModal.StatusOverrideBypassesGuard | components/ServiceModal.tsx:310-318 | an order the finish action refuses can still be saved in Done through the Status select |
| ServiceModal.OfferedActions | components/ServiceModal.tsx:453-459 | send-to-approval is offered iff the order is in Entry, finish iff it is in Execution; save, delete and print always |
| ServiceModal.CurrencyCents | components/ServiceModal.tsx:162-166 | input without digits is zero cents |
| ServiceModal.SetCost | components/ServiceModal.tsx:162-166 | the chosen cost becomes the typed amount in cents; nothing else changes |
| ServiceModal.CurrencyTyping | components/ServiceModal.tsx:163-164 | typing a digit shifts the amount one place left and adds the digit; typing anything else leaves it |
| ServiceModal.CurrencyIgnoresNonDigit | components/ServiceModal.tsx:163 | a non-digit anywhere in the input does not change the amount |
| ServiceModal.CurrencyRoundTrip | components/ServiceModal.tsx:163-164 | entering the decimal digits of an amount in cents stores that amount |
| ServiceModal.ToggleChecklist | components/ServiceModal.tsx:173-175 | flips `checked` on the items with that id only, keeping the length and everything else |
| ServiceModal.ToggleTwice | components/ServiceModal.tsx:173-175 | toggling the same id twice restores the form |
| ServiceModal.SendChat | components/ServiceModal.tsx:176-181 | blank input changes nothing; otherwise exactly one technician message with the typed text is appended and the input is cleared |
| ServiceModal.ChatAppendOnly | components/ServiceModal.tsx:176-181 | sending a message or finishing the service only extends the chat: the old log is a prefix of the new one |
| ServiceModal.UploadPhoto | components/ServiceModal.tsx:210-219 | a compressed photo is appended only while fewer than four are attached; otherwise the form is unchanged |
| ServiceModal.DropIndex | components/ServiceModal.tsx:221 | the list without the element at the position; out of range leaves it unchanged |
| ServiceModal.RemovePhoto | components/ServiceModal.tsx:220-222 | drops exactly the photo at the position, keeping the others in order; nothing else changes |
| ServiceModal.UploadThenRemove | components/ServiceModal.tsx:210-222 | removing the photo just uploaded restores the form |
| ServiceModal.PhotoLimitHolds | components/ServiceModal.tsx:210-222 | under any sequence of uploads and removals an order never holds more than four photos, and only its photos change |
| PdfPipeline.Initial | components/ServiceModal.tsx:26-29 | not printing, not generating, not ready, no timer pending |
| PdfPipeline.FilenameInjective | components/ServiceModal.tsx:75 | two downloads share a file name only for the same mode and order number |
| PdfPipeline.Execute | components/ServiceModal.tsx:55-102 | every exit of the capture (no element, no library, saved, failed) clears generating with a notice; only a completed save downloads, under the current mode's name |
| PdfPipeline.Raw | components/ServiceModal.tsx:104-153 | no button touches the timer; only a load report while the print view is shown sets ready, and only "Baixar PDF" there starts generating; with the view closed, only the editor's "PDF" button (line 454) and reopening act; opening shows the full order and, as written, keeps the ready flag |
| PdfPipeline.Step | components/ServiceModal.tsx:44-51 | downloads and notices happen only when a pending timer fires, which leaves generation stopped and no timer pending |
| PdfPipeline.StepKeepsInv | components/ServiceModal.tsx:44-51 | a pending capture always belongs to a generation whose document is ready |
| PdfPipeline.CaptureOnlyWhenArmed | components/ServiceModal.tsx:44-102 | a capture runs only while generating and ready both hold, every path stops generating, and a firing timer with nothing pending does nothing |
| PdfPipeline.CancelStops | components/ServiceModal.tsx:141 | cancel stops generating and clears the pending capture |
| PdfPipeline.ModeSwitchResetsReady | components/ServiceModal.tsx:34-42 | a mode switch, or reopening the editor, marks the document not ready and clears any pending capture; reopening returns to the full order |
| PdfPipeline.RunKeepsInv | components/ServiceModal.tsx:44-51 | the pending-capture invariant holds after any sequence of events |
| PdfPipeline.NoCaptureBeforeReady | components/ServiceModal.tsx:134-151 | from a document that is not ready, no file is saved until the document reports ready, under either rule for opening the view |
| PdfPipeline.RunAppend | components/ServiceModal.tsx:44-51 | running two event sequences one after the other is running their concatenation; the downloads add up |
| PdfPipeline.HappyPath | components/ServiceModal.tsx:104-153 | open print view, request, document ready, timer fires with a successful save: one download named `OS-<os>.pdf`, generation stopped |
| PdfPipeline.StaleReadyCapture | components/ServiceModal.tsx:454 | as written, a ready flag from an earlier visit to the print view lets a reopened full order be saved before it reports ready; under the corrected rule the same events save nothing |
| PdfPipeline.NoCaptureBeforeReadyAfterOpen | components/ServiceModal.tsx:454 | with the ready flag cleared on opening, nothing is saved after the print view opens until the document shown reports ready |
| AIGenerator.SuggestedPriority | components/AIGenerator.tsx:32 | an absent or empty priority gives Medium; any other string passes through unchecked |
| AIGenerator.FromSuggestion | components/AIGenerator.tsx:24-44 | each order: id `gen-<time>-<index>`, number `AI-<draw>`, the suggestion's title and text, Entry, not approved, zero costs, no photos/chat/subtasks, the initial checklist, tags defaulting to `AI Generated` |
| AIGenerator.Generate | components/AIGenerator.tsx:16-48 | a blank goal makes no call; a failed call yields nothing; a reply yields one order per suggestion, in order |
| AIGenerator.GeneratedIdInjective | components/AIGenerator.tsx:25 | two generated ids are equal only for the same time and the same index |
| AIGenerator.GeneratedBatch | components/AIGenerator.tsx:24-44 | the orders of one batch have pairwise distinct ids whatever the clock reads, every number is `AI-` and a value below 10000, and none can show as expired |

## Left out

- The network client and the bodies of the remote calls. Each call is
  reduced to its outcome, a parameter. This also covers signing in, signing
  out, the session bootstrap and loading the collection.
- The language-model client and the parsing of its replies. The AI-driven
  subtask breakdown in the editor is not modelled either.
- Rendering, layout, tab styling and drag visuals.
- Image compression. An upload is modelled by its compressed result, or by
  none when no file was chosen.
- The PDF capture library and all access to the page. Only the flags, the
  outcome notices and the file name are modelled. The 500 ms delay is the
  abstract event `TimerFires`.
- Parsing of date strings, locale formatting of money and dates, and the
  date input of the editor.
- Interleaving of concurrent async handlers. Each handler is one atomic step
  with a given outcome. This matters twice. First, the photo-count check runs
  before compression is awaited. Second, the capture's `finally` runs after
  the save is awaited.
- The console patching and the formatting of log lines. A log line is an
  opaque string.
- The legal terms and company information constants: static text with no
  behaviour.
- Notifications raised inside the editor (finish rejected, photo added,
  limit reached, PDF notices). The model returns them as values or leaves
  them out; they are not added to the board's list.
- App.FilteredTasks: lower-casing covers the capitals of Basic Latin and
  Latin-1 only. The code uses the full Unicode case mapping, which also
  folds Greek, Cyrillic, Latin Extended and other capitals, and maps some
  characters to more than one.
- ServiceModal.SendChat and ServiceModal.FinishService: the code reads the
  clock twice per new message, once for its id and once for its timestamp.
  The model reads it once, so the digits in the id always equal the
  timestamp, which the code does not promise.
- Wire.FromWire: an absent row id becomes the empty string in the order,
  where the code leaves the field undefined.
- ServiceModal.CurrencyCents: the code stores the amount as a float
  (digits / 100). The model keeps integer cents, so float rounding of very
  long digit strings is not modelled.
- ServiceModal.FinishService: string lengths count characters, where the
  code counts UTF-16 code units. The two differ only for characters outside
  the Basic Multilingual Plane.
- App.Update: the client portal's order is updated whenever it has the
  edited id. The code also tests that the signed-in role is "client". The
  portal order is set together with that role and cleared together with it
  on sign-out, so the two tests agree.
- AIGenerator.Generate: the clock is read twice per suggestion, once for the
  id and once for the creation time. Both reads are parameters.

## Findings

| source | as written | input that shows it | evidently intended | confidence | as-written member | corrected member |
|---|---|---|---|---|---|---|
| components/ServiceModal.tsx:454 | the editor's "PDF" button sets the mode to full and opens the print view, but leaves the ready flag as the last visit left it; only the mode buttons and reopening the editor clear it | open the print view, choose the entry receipt, let it load, close the view, press "PDF" again, press "Baixar PDF": the capture fires for the full order, which has not reported ready | the ready flag describes the document now shown, so opening the view clears it as the mode buttons do | medium; not executed | PdfPipeline.StaleReadyCapture | PdfPipeline.NoCaptureBeforeReadyAfterOpen |
