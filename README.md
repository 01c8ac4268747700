# TWAIN acquisition form of NAPS2, modelled in Dafny

NAPS2 drives TWAIN scanners from `FTwainGui`, a WinForms form. The form does three things:

- When it is first activated, it registers itself as a process-wide message filter, disables
  itself and asks the TWAIN source to acquire.
- It hands every window message to the source for classification: `Not`, `CloseRequest`,
  `CloseOk`, `DeviceEvent` or `TransferReady`.
- It reacts to the classified message. It ends the scan (`EndingScan`: unregister, re-enable,
  activate), closes the source, closes itself, and on a transfer it turns every returned
  bitmap handle into a scanned image tagged black-and-white or 24-bit colour.

The model has three modules:

- `TwainTypes` (`twain_types.dfy`) holds the values the form exchanges with its collaborators:
  the TWAIN command, how `Acquire` ended, a DIB handle with the bit count that
  `DibUtils.BitmapFromDib` reports for it, the scanned image, and the calls the form makes
  outside itself. It also holds the conversion of handles into images.
- `TwainSession` (`twain_session.dfy`) has a value `FormState` with the form's fields. It adds
  two ghost parts: how many times the application's message-filter list holds the form, and
  the ordered history of calls to the window system, the source and the logger. Each handler
  is a pure transition on this state. The module proves the handlers' properties and their
  behaviour over any sequence of events (`Run`).
- `TwainGui` (`ftwain_gui.dfy`) has the class `FTwainGui`. Its fields are updated in place by
  the methods `EndingScan`, `OnActivated` and `PreFilterMessage`, and the transfer loop appends
  to `bitmaps` one handle at a time. Each method is proved to perform exactly the
  corresponding `TwainSession` transition and to keep the invariant `Valid()`. A few client
  methods run the form through whole scans.

Points of the code's behaviour that the model keeps:

- A transfer has no per-image recovery. `FTwainGui.cs:91-99` has no try/catch, so a handle
  that fails to decode is not skipped; that failure is outside the model (see "Left out").
- An `Acquire` that returns false ends the scan and closes the form without logging anything.
  Only the exception path logs.
- The session state is the two booleans `activated` and `msgfilter`, not an enumerated
  protocol state.
- `CloseOk` ends the scan and closes the source but does not close the form. `CloseRequest`
  closes the form as well.
- On the exception path the code does not reach `EndingScan()` or `Close()`, because the
  logger it calls is never assigned (see "Findings"). `TwainSession.OnActivatedAsWritten`
  models that; the handler the rest of the model uses is the corrected one.

## Model

| member | source | states |
|---|---|---|
| `TwainTypes.ToImage` | NAPS2/WinForms/FTwainGui.cs:93-97 | the image for a handle keeps the handle and the scan's MaxQuality; it is BlackWhite exactly when the bit count is 1, and C24Bit exactly otherwise |
| `TwainTypes.Converted` | NAPS2/WinForms/FTwainGui.cs:91-99 | a batch gives exactly one image per handle, and the i-th image is the conversion of the i-th handle (order kept) |
| `TwainTypes.ConvertedSnoc` | NAPS2/WinForms/FTwainGui.cs:91-99 | each loop iteration appends the next handle's image after those already produced |
| `TwainTypes.ConvertedPair` | NAPS2/WinForms/FTwainGui.cs:91-99 | a two-handle transfer yields the first handle's image, then the second's |
| `TwainSession.Initial` | NAPS2/WinForms/FTwainGui.cs:38-49 | a new form is not activated, not registered (the filter list does not hold it), enabled, with an empty image list and no calls made, and it satisfies the invariant |
| `TwainSession.EndingScan` | NAPS2/WinForms/FTwainGui.cs:108-117 | afterwards the filter is off; if it was off nothing changes; if it was on, one removal and one Activate() are made in that order, the form is enabled, and one occurrence leaves the filter list |
| `TwainSession.EndingScanIdempotent` | NAPS2/WinForms/FTwainGui.cs:108-117 | ending the scan twice is the same as ending it once |
| `TwainSession.EndingScanKeepsInv` | NAPS2/WinForms/FTwainGui.cs:110-116 | EndingScan keeps enabled == !msgfilter and the filter-list count in step with msgfilter |
| `TwainSession.StartAcquire` | NAPS2/WinForms/FTwainGui.cs:121-132 | the guard is set; the filter is registered and the form disabled only if it was not registered before; then Acquire is called |
| `TwainSession.OnActivated` | NAPS2/WinForms/FTwainGui.cs:119-143 | once activated, nothing changes; the first call leaves the filter installed iff Acquire accepted; after a refusal or an exception the form is enabled; the images are untouched; the calls are registration (if needed), Acquire, then LogError (exception only), RemoveFilter, Activate and Close when Acquire did not accept |
| `TwainSession.OnActivatedKeepsInv` | NAPS2/WinForms/FTwainGui.cs:124-143 | activation keeps the invariant: enabled == !msgfilter, the filter list holds the form exactly while msgfilter, nothing registered before activation |
| `TwainSession.ActivatedOnce` | NAPS2/WinForms/FTwainGui.cs:121-123 | a second Activated notification changes nothing, whatever Acquire would do |
| `TwainSession.OnActivatedAsWritten` | NAPS2/WinForms/FTwainGui.cs:119-143 | as written: an already activated form is left unchanged; for a refused or accepted Acquire it agrees with OnActivated; when Acquire throws, the null logger throws in turn, so the state is the one right after the registration and the Acquire call: on a fresh form the filter stays registered, the form disabled, and only those two calls are made |
| `TwainSession.NullLoggerLeaksFilter` | NAPS2/WinForms/FTwainGui.cs:36-36 | on a fresh form whose Acquire throws, the as-written handler leaves the form in the filter list, disabled and never closed, while the corrected handler unregisters it, re-enables it and closes it |
| `TwainSession.PreFilter` | NAPS2/WinForms/FTwainGui.cs:61-106 | Not and DeviceEvent change nothing; every other command leaves the filter off and, if it was on, the form enabled and one occurrence gone from the filter list; only TransferReady adds images, exactly the converted handles after the existing ones; calls in order: TransferPictures before the removal and CloseSrc, Close last; CloseRequest and TransferReady close the form, CloseOk does not |
| `TwainSession.PreFilterKeepsInv` | NAPS2/WinForms/FTwainGui.cs:67-103 | message handling keeps the invariant |
| `TwainSession.StepFacts` | NAPS2/WinForms/FTwainGui.cs:61-143 | one event keeps the invariant and adds exactly that event's transferred images |
| `TwainSession.RunKeepsInv` | NAPS2/WinForms/FTwainGui.cs:108-129 | every sequence of Activated notifications and messages keeps the invariant |
| `TwainSession.RunHarvest` | NAPS2/WinForms/FTwainGui.cs:86-102 | over any sequence of events the image list only grows, by the transferred images in order |
| `TwainSession.ActivationNet` | NAPS2/WinForms/FTwainGui.cs:124-143 | in the calls of the first Activated notification, registrations minus removals is one for the AddMessageFilter when not yet registered, less one for the RemoveMessageFilter when Acquire does not accept |
| `TwainSession.PreFilterNet` | NAPS2/WinForms/FTwainGui.cs:67-103 | in the calls of message handling, registrations minus removals is -1 exactly when the filter is installed and the command ends the scan, and 0 otherwise |
| `TwainSession.StepNet` | NAPS2/WinForms/FTwainGui.cs:61-143 | under the invariant, one event changes registrations minus removals in the call history exactly as it changes the number of times the filter list holds the form |
| `TwainSession.RunNet` | NAPS2/WinForms/FTwainGui.cs:108-129 | along any sequence of events, registrations minus removals in the call history stay equal to the number of times the filter list holds the form |
| `TwainSession.SessionBalanced` | NAPS2/WinForms/FTwainGui.cs:110-128 | from a fresh form, after any events: the form has called AddMessageFilter once more than RemoveMessageFilter while msgfilter and equally often otherwise, the filter list holds it exactly that many times, the form is enabled exactly when not filtering, and the images are exactly those of all transfers |
| `TwainSession.StaysUninstalled` | NAPS2/WinForms/FTwainGui.cs:121-129 | once activated with the scan ended, no later event registers the filter again or changes the filter list |
| `TwainGui.FTwainGui.constructor` | NAPS2/WinForms/FTwainGui.cs:44-49 | the new form's state is the initial state, with the settings' MaxQuality, and satisfies Valid() |
| `TwainGui.FTwainGui.EndingScan` | NAPS2/WinForms/FTwainGui.cs:108-117 | performs exactly TwainSession.EndingScan; the filter is off afterwards; nothing changes if it was off; keeps Valid() |
| `TwainGui.FTwainGui.OnActivated` | NAPS2/WinForms/FTwainGui.cs:119-143 | performs exactly TwainSession.OnActivated; later calls leave the object unchanged; after a refused or throwing Acquire the filter is off and the form enabled; images untouched; keeps Valid() |
| `TwainGui.FTwainGui.AppendScanned` | NAPS2/WinForms/FTwainGui.cs:91-99 | the foreach loop appends one image per handle, in order, after the existing images, and changes nothing else |
| `TwainGui.FTwainGui.PreFilterMessage` | NAPS2/WinForms/FTwainGui.cs:61-106 | returns false exactly for Not; performs exactly TwainSession.PreFilter; Not and DeviceEvent leave the object unchanged; other commands leave the filter off; the images grow only on TransferReady, by the converted handles; keeps Valid() |
| `TwainGui.TransferScenario` | NAPS2/WinForms/FTwainGui.cs:86-102 | activation, a two-handle transfer and CloseOk give exactly the two images in order, tagged by bit count, with the filter off and the form enabled |
| `TwainGui.FailedAcquireScenario` | NAPS2/WinForms/FTwainGui.cs:130-143 | when Acquire returns false or throws: no images, the filter off and gone from the filter list, the form enabled and closed |
| `TwainGui.CloseRequestScenario` | NAPS2/WinForms/FTwainGui.cs:69-75 | a CloseRequest during acquisition is consumed, closes the form and produces no images; a later Activated notification does not register the filter again |

## Left out

- The window system is not modelled. `Application.AddMessageFilter` and
  `RemoveMessageFilter`, `Form.Activate`, `Form.Close` and `InitializeComponent` are entries in
  the ghost call history. The filter list is modelled only as a count of the form's
  occurrences. Closing does not dispose the form, and `Activate()` re-raising `Activated` is
  not replayed; the guard makes such a call a no-op, which `OnActivated` states.
- The TWAIN layer (`Twain.PassMessage`, `Acquire`, `TransferPictures`, `CloseSrc`) and
  `DibUtils.BitmapFromDib` are native code over memory handles. Their results are inputs:
  the classified command, how `Acquire` ended, and the handles with their bit counts. The
  `Message` struct is not modelled.
- Exceptions thrown by `TransferPictures`, `CloseSrc` or `BitmapFromDib` are not modelled.
  The code has no handler for them. The exception path of `Acquire` is modelled.
- A null `tw` (the `TwainIface` setter never called) is not modelled. The trivial `Bitmaps`
  getter and `TwainIface` setter are not modelled, and neither is the disposal of the
  temporary `Bitmap`.
- `TwainGui.FTwainGui.OnActivated` and `TwainGui.FailedAcquireScenario` use the corrected
  exception path: they log, end the scan and close the form. The code as written throws
  from the unassigned logger before ending the scan; that behaviour is
  `TwainSession.OnActivatedAsWritten`, and its consequence is `TwainSession.NullLoggerLeaksFilter`.
- `Run` accepts a window message in any state, including when the filter is not registered.
  WinForms only hands messages to a registered filter, so such events never happen in the
  program. `TwainGui.TransferScenario`'s `CloseOk` after the transfer is one of them. The
  lemmas over `Run` hold for these extra sequences too, so they are stronger than needed,
  not weaker.
- NLog is only the `LogError` call entry. Its message text is not modelled.
- `NAPS2.Core/WinForms/FOcrLanguageDownload.cs` is not part of this model. It is list-view and
  layout UI, file I/O with GZip decompression, and a floating-point size label.
- `NAPS2.Core/Operation/OperationBase.cs` is not part of this model. It only invokes .NET
  events if anyone subscribed.
- `NAPS2.Core/Update/ILatestVersionSource.cs` is not part of this model. It is an
  asynchronous interface with no body.

## Findings

| source | as written | input that shows it | evidently intended | confidence | as-written member | corrected member |
|---|---|---|---|---|---|---|
| NAPS2/WinForms/FTwainGui.cs:36-36, 138-143 | `logger` is declared readonly but never assigned, so the catch block's logging call throws a NullReferenceException before `EndingScan()` and `Close()` run | a fresh form whose `Acquire` throws | log the error, then unregister the filter, re-enable the form and close it | not executed | `TwainSession.OnActivatedAsWritten`, `TwainSession.NullLoggerLeaksFilter` | `TwainSession.OnActivated` |
