/** The acquisition form's state and its handlers as pure transitions on that state.
    FTwainGui's methods are proved to perform exactly these transitions; the properties of
    the handlers (balanced filter registration, idempotent activation, pass-through of
    unrelated messages, images appended only on transfer) are proved here. */
module TwainSession {
  import opened TwainTypes

  /** The fields of one FTwainGui form, the number of times the application's message-filter
      list holds the form, and the ordered history of the calls the form has made. */
  datatype FormState = FormState(
    activated: bool,           // the re-entrancy guard of the Activated handler
    msgfilter: bool,           // the form's own record of being registered as a filter
    enabled: bool,             // Form.Enabled
    bitmaps: seq<ScannedImage>,
    filters: nat,              // occurrences of the form in the application's filter list
    calls: seq<Call>)

  /** A freshly constructed form: enabled, not activated, no filter, no images, no calls yet. */
  function Initial(): (s: FormState)
    ensures !s.activated && !s.msgfilter && s.enabled && s.filters == 0
    ensures s.bitmaps == [] && s.calls == []
    ensures Inv(s)
  {
    FormState(false, false, true, [], 0, [])
  }

  /** The invariant the form keeps: interaction is disabled exactly while the filter is
      installed; the application's filter list holds the form once while `msgfilter` says
      so and not at all otherwise (every registration has been matched by exactly one
      removal); and nothing is registered before the first activation. */
  predicate Inv(s: FormState) {
    && s.enabled == !s.msgfilter
    && s.filters == (if s.msgfilter then 1 else 0)
    && (s.msgfilter ==> s.activated)
  }

  /** Adds one call to the history and changes nothing else. */
  function Record(s: FormState, c: Call): (t: FormState)
    ensures t.calls == s.calls + [c]
    ensures t.activated == s.activated && t.msgfilter == s.msgfilter && t.enabled == s.enabled
    ensures t.bitmaps == s.bitmaps && t.filters == s.filters
  {
    s.(calls := s.calls + [c])
  }

  /** The calls EndingScan makes: a removal and an Activate() exactly when the filter is installed. */
  function EndingScanCalls(installed: bool): seq<Call> {
    if installed then [RemoveFilter, ActivateForm] else []
  }

  /** EndingScan: unregisters the filter if (and only if) it is registered, re-enables the
      form and brings it to the front. The filter is off afterwards; the removal takes one
      occurrence of the form out of the application's filter list. */
  function EndingScan(s: FormState): (t: FormState)
    ensures !t.msgfilter
    ensures !s.msgfilter ==> t == s
    ensures s.msgfilter ==> t.enabled && t.filters == (if s.filters == 0 then 0 else s.filters - 1)
    ensures t.calls == s.calls + EndingScanCalls(s.msgfilter)
    ensures t.activated == s.activated && t.bitmaps == s.bitmaps
  {
    if s.msgfilter then
      var removed := Record(s, RemoveFilter).(filters := if s.filters == 0 then 0 else s.filters - 1);
      Record(removed.(msgfilter := false, enabled := true), ActivateForm)
    else
      s
  }

  /** Ending a scan twice is ending it once. */
  lemma EndingScanIdempotent(s: FormState)
    ensures EndingScan(EndingScan(s)) == EndingScan(s)
  {
  }

  /** EndingScan keeps the invariant. */
  lemma EndingScanKeepsInv(s: FormState)
    ensures Inv(s) ==> Inv(EndingScan(s))
  {
  }

  /** The calls the first Activated notification makes, in order: the registration (unless
      the filter is installed already), Acquire, and after a refusal or an exception the
      logging (exception only), the end of the scan and the closing of the form. */
  function ActivationCalls(installed: bool, outcome: AcquireOutcome): seq<Call> {
    (if installed then [] else [AddFilter]) + [Acquire] +
    match outcome
    case Accepted => []
    case Refused => EndingScanCalls(true) + [CloseForm]
    case Threw => [LogError] + EndingScanCalls(true) + [CloseForm]
  }

  /** The first part of the Activated handler: set the guard, register the filter (disabling
      the form) unless it is registered already, and call Acquire. */
  function StartAcquire(s: FormState): (t: FormState)
    ensures t.activated && t.msgfilter && t.bitmaps == s.bitmaps
    ensures t.enabled == (s.msgfilter && s.enabled)
    ensures t.filters == s.filters + (if s.msgfilter then 0 else 1)
    ensures t.calls == s.calls + ActivationCalls(s.msgfilter, Accepted)
  {
    var installed := if s.msgfilter then s.(activated := true)
                     else Record(s.(activated := true, enabled := false, msgfilter := true, filters := s.filters + 1), AddFilter);
    Record(installed, Acquire)
  }

  /** The Activated handler. The first call sets the guard, registers the filter unless it is
      registered already, and asks the source to acquire; if the source refuses or throws,
      the error is logged (exception only), the scan is ended and the form is closed. Every
      later call changes nothing. */
  function OnActivated(s: FormState, outcome: AcquireOutcome): (t: FormState)
    ensures t.activated
    ensures s.activated ==> t == s
    ensures t.bitmaps == s.bitmaps
    ensures !s.activated ==> t.msgfilter == (outcome == Accepted)
    ensures !s.activated && outcome == Accepted ==> t.enabled == (s.msgfilter && s.enabled)
    ensures !s.activated && outcome != Accepted ==> t.enabled
    ensures !s.activated && !s.msgfilter ==> t.filters == s.filters + (if outcome == Accepted then 1 else 0)
    ensures !s.activated ==> t.calls == s.calls + ActivationCalls(s.msgfilter, outcome)
  {
    if s.activated then s
    else
      var acquiring := StartAcquire(s);
      match outcome
      case Accepted => acquiring
      case Refused => Record(EndingScan(acquiring), CloseForm)
      case Threw => Record(EndingScan(Record(acquiring, LogError)), CloseForm)
  }

  /** Activation keeps the invariant. */
  lemma OnActivatedKeepsInv(s: FormState, outcome: AcquireOutcome)
    ensures Inv(s) ==> Inv(OnActivated(s, outcome))
  {
  }

  /** Only the first Activated notification does anything, whatever Acquire does later. */
  lemma ActivatedOnce(s: FormState, first: AcquireOutcome, later: AcquireOutcome)
    ensures OnActivated(OnActivated(s, first), later) == OnActivated(s, first)
  {
  }

  /** The Activated handler as the code stands: `logger` is never assigned, so on a throwing
      Acquire the logging call itself throws a NullReferenceException, and neither EndingScan
      nor Close runs. */
  function OnActivatedAsWritten(s: FormState, outcome: AcquireOutcome): (t: FormState)
    ensures outcome != Threw ==> t == OnActivated(s, outcome)
    ensures s.activated ==> t == s
    ensures !s.activated && outcome == Threw ==> t == StartAcquire(s)
    ensures !s.activated && !s.msgfilter && outcome == Threw ==>
      t.msgfilter && !t.enabled && t.filters == s.filters + 1 && t.calls == s.calls + [AddFilter, Acquire]
  {
    if s.activated || outcome != Threw then OnActivated(s, outcome)
    else StartAcquire(s)
  }

  /** With the code as written, a fresh form whose Acquire throws is left disabled, never
      closed and still in the application's message-filter list; the corrected handler
      unregisters the filter, re-enables the form and closes it. */
  lemma NullLoggerLeaksFilter()
    ensures var leaked := OnActivatedAsWritten(Initial(), Threw);
      leaked.msgfilter && leaked.filters == 1 && !leaked.enabled && CloseForm !in leaked.calls
    ensures var cleaned := OnActivated(Initial(), Threw);
      !cleaned.msgfilter && cleaned.filters == 0 && cleaned.enabled && CloseForm in cleaned.calls
  {
    assert OnActivatedAsWritten(Initial(), Threw).calls == [AddFilter, Acquire];
    assert OnActivated(Initial(), Threw).calls[5] == CloseForm;
  }

  /** The calls PreFilterMessage makes for each command, in order. Nothing for a message the
      source does not claim or for a device event; otherwise the end of the scan, the
      closing of the source and, for CloseRequest, the closing of the form. A transfer
      fetches the pictures before anything else and closes the form last. */
  function PreFilterCalls(installed: bool, cmd: TwainCommand): seq<Call> {
    match cmd
    case Not => []
    case DeviceEvent => []
    case CloseRequest => EndingScanCalls(installed) + [CloseSrc, CloseForm]
    case CloseOk => EndingScanCalls(installed) + [CloseSrc]
    case TransferReady => [TransferPictures] + EndingScanCalls(installed) + [CloseSrc, CloseForm]
  }

  /** The state change PreFilterMessage makes for the command its message classified as.
      Unrelated messages and device events change nothing; every other command ends the
      scan, so the filter is off afterwards; only a transfer adds images, one per handle in
      order after the ones already there. */
  function PreFilter(s: FormState, cmd: TwainCommand, pics: seq<Dib>, maxQuality: bool): (t: FormState)
    ensures cmd == Not || cmd == DeviceEvent ==> t == s
    ensures cmd != Not && cmd != DeviceEvent ==> !t.msgfilter && (s.msgfilter ==> t.enabled)
    ensures t.enabled == s.enabled || (s.msgfilter && t.enabled)
    ensures t.filters == if s.msgfilter && cmd != Not && cmd != DeviceEvent && s.filters > 0 then s.filters - 1 else s.filters
    ensures t.bitmaps == if cmd == TransferReady then s.bitmaps + Converted(pics, maxQuality) else s.bitmaps
    ensures t.activated == s.activated
    ensures t.calls == s.calls + PreFilterCalls(s.msgfilter, cmd)
  {
    match cmd
    case Not => s
    case DeviceEvent => s
    case CloseRequest => Record(Record(EndingScan(s), CloseSrc), CloseForm)
    case CloseOk => Record(EndingScan(s), CloseSrc)
    case TransferReady =>
      var drained := Record(EndingScan(Record(s, TransferPictures)), CloseSrc);
      Record(drained.(bitmaps := drained.bitmaps + Converted(pics, maxQuality)), CloseForm)
  }

  /** Message handling keeps the invariant. */
  lemma PreFilterKeepsInv(s: FormState, cmd: TwainCommand, pics: seq<Dib>, maxQuality: bool)
    ensures Inv(s) ==> Inv(PreFilter(s, cmd, pics, maxQuality))
  {
  }

  /** What drives the form: an Activated notification (with how Acquire then ends), or a
      window message (with the command it classifies as and, for a transfer, the handles). */
  datatype Event = Activation(outcome: AcquireOutcome) | Message(cmd: TwainCommand, pics: seq<Dib>)

  function Step(s: FormState, e: Event, maxQuality: bool): FormState {
    match e
    case Activation(outcome) => OnActivated(s, outcome)
    case Message(cmd, pics) => PreFilter(s, cmd, pics, maxQuality)
  }

  /** The state after the events, in the order the message loop delivers them. */
  function Run(s: FormState, events: seq<Event>, maxQuality: bool): FormState
    decreases |events|
  {
    if events == [] then s else Run(Step(s, events[0], maxQuality), events[1..], maxQuality)
  }

  /** The images one event should add: those of a transfer, none otherwise. */
  function Yield(e: Event, maxQuality: bool): seq<ScannedImage> {
    match e
    case Message(TransferReady, pics) => Converted(pics, maxQuality)
    case _ => []
  }

  /** The images a sequence of events should produce: those of every transfer, in order. */
  function Harvest(events: seq<Event>, maxQuality: bool): seq<ScannedImage>
    decreases |events|
  {
    if events == [] then [] else Yield(events[0], maxQuality) + Harvest(events[1..], maxQuality)
  }

  /** One step keeps the invariant and adds exactly the images of its event. */
  lemma StepFacts(s: FormState, e: Event, maxQuality: bool)
    ensures Inv(s) ==> Inv(Step(s, e, maxQuality))
    ensures Step(s, e, maxQuality).bitmaps == s.bitmaps + Yield(e, maxQuality)
  {
    match e
    case Activation(outcome) => OnActivatedKeepsInv(s, outcome);
    case Message(cmd, pics) => PreFilterKeepsInv(s, cmd, pics, maxQuality);
  }

  /** Every sequence of events keeps the invariant. */
  lemma {:induction false} RunKeepsInv(s: FormState, events: seq<Event>, maxQuality: bool)
    requires Inv(s)
    ensures Inv(Run(s, events, maxQuality))
    decreases |events|
  {
    if events != [] {
      StepFacts(s, events[0], maxQuality);
      RunKeepsInv(Step(s, events[0], maxQuality), events[1..], maxQuality);
    }
  }

  /** The image list only grows, and only by the images of the transfers, in order. */
  lemma {:induction false} RunHarvest(s: FormState, events: seq<Event>, maxQuality: bool)
    ensures Run(s, events, maxQuality).bitmaps == s.bitmaps + Harvest(events, maxQuality)
    decreases |events|
  {
    if events != [] {
      var next, gained, rest := Step(s, events[0], maxQuality), Yield(events[0], maxQuality), Harvest(events[1..], maxQuality);
      assert Run(s, events, maxQuality) == Run(next, events[1..], maxQuality);
      assert Harvest(events, maxQuality) == gained + rest;
      assert next.bitmaps == s.bitmaps + gained by {
        StepFacts(s, events[0], maxQuality);
      }
      RunHarvest(next, events[1..], maxQuality);
      AppendAssoc(s.bitmaps, gained, rest);
    }
  }

  lemma AppendAssoc<T>(a: seq<T>, b: seq<T>, c: seq<T>)
    ensures a + b + c == a + (b + c)
  {
  }

  /** The number of AddMessageFilter calls minus the number of RemoveMessageFilter calls. */
  function NetRegistrations(calls: seq<Call>): int
    decreases |calls|
  {
    if calls == [] then 0
    else
      var last := calls[|calls| - 1];
      NetRegistrations(calls[..|calls| - 1]) + (if last == AddFilter then 1 else if last == RemoveFilter then -1 else 0)
  }

  /** The net count of a history is the sum of the net counts of its parts. */
  lemma {:induction false} NetRegistrationsAppend(a: seq<Call>, b: seq<Call>)
    ensures NetRegistrations(a + b) == NetRegistrations(a) + NetRegistrations(b)
    decreases |b|
  {
    if b == [] {
      assert a + b == a;
    } else {
      var front := b[..|b| - 1];
      assert (a + b)[..|a + b| - 1] == a + front;
      assert (a + b)[|a + b| - 1] == b[|b| - 1];
      NetRegistrationsAppend(a, front);
    }
  }

  /** The first Activated notification registers once unless the filter is registered
      already, and removes once when Acquire does not accept. */
  lemma ActivationNet(installed: bool, outcome: AcquireOutcome)
    ensures NetRegistrations(ActivationCalls(installed, outcome)) ==
      (if installed then 0 else 1) - (if outcome == Accepted then 0 else 1)
  {
    var head := (if installed then [] else [AddFilter]) + [Acquire];
    NetRegistrationsAppend(if installed then [] else [AddFilter], [Acquire]);
    match outcome
    case Accepted =>
      assert ActivationCalls(installed, outcome) == head + [];
    case Refused =>
      var tail := [RemoveFilter, ActivateForm, CloseForm];
      assert ActivationCalls(installed, outcome) == head + tail;
      NetRegistrationsAppend(head, tail);
    case Threw =>
      var ending := [RemoveFilter, ActivateForm, CloseForm];
      assert NetRegistrations(ending) == -1;
      NetRegistrationsAppend([LogError], ending);
      assert ActivationCalls(installed, outcome) == head + ([LogError] + ending);
      NetRegistrationsAppend(head, [LogError] + ending);
  }

  /** Message handling removes the registration once exactly when the filter is installed
      and the command ends the scan, and never registers. */
  lemma PreFilterNet(installed: bool, cmd: TwainCommand)
    ensures NetRegistrations(PreFilterCalls(installed, cmd)) ==
      if installed && cmd != Not && cmd != DeviceEvent then -1 else 0
  {
    var ending := EndingScanCalls(installed);
    assert NetRegistrations(ending) == if installed then -1 else 0 by {
      if installed {
        assert ending == [RemoveFilter, ActivateForm];
        assert NetRegistrations([RemoveFilter]) == -1;
      }
    }
    match cmd
    case Not =>
    case DeviceEvent =>
    case CloseRequest =>
      assert NetRegistrations([CloseSrc, CloseForm]) == 0;
      NetRegistrationsAppend(ending, [CloseSrc, CloseForm]);
    case CloseOk =>
      assert NetRegistrations([CloseSrc]) == 0;
      NetRegistrationsAppend(ending, [CloseSrc]);
    case TransferReady =>
      assert NetRegistrations([TransferPictures]) == 0;
      assert NetRegistrations([CloseSrc, CloseForm]) == 0;
      NetRegistrationsAppend([TransferPictures], ending);
      NetRegistrationsAppend([TransferPictures] + ending, [CloseSrc, CloseForm]);
  }

  /** Under the invariant, one event changes the net count of registrations in the history
      exactly as it changes the number of times the filter list holds the form. */
  lemma StepNet(s: FormState, e: Event, maxQuality: bool)
    requires Inv(s)
    ensures NetRegistrations(Step(s, e, maxQuality).calls) - NetRegistrations(s.calls) ==
      Step(s, e, maxQuality).filters - s.filters
  {
    match e
    case Activation(outcome) =>
      if !s.activated {
        NetRegistrationsAppend(s.calls, ActivationCalls(s.msgfilter, outcome));
        ActivationNet(s.msgfilter, outcome);
      }
    case Message(cmd, pics) =>
      NetRegistrationsAppend(s.calls, PreFilterCalls(s.msgfilter, cmd));
      PreFilterNet(s.msgfilter, cmd);
  }

  /** Along any sequence of events, the history's registrations minus removals stay equal to
      the number of times the filter list holds the form. */
  lemma {:induction false} RunNet(s: FormState, events: seq<Event>, maxQuality: bool)
    requires Inv(s) && NetRegistrations(s.calls) == s.filters
    ensures var t := Run(s, events, maxQuality);
      NetRegistrations(t.calls) == t.filters
    decreases |events|
  {
    if events != [] {
      var next := Step(s, events[0], maxQuality);
      StepFacts(s, events[0], maxQuality);
      StepNet(s, events[0], maxQuality);
      assert Run(s, events, maxQuality) == Run(next, events[1..], maxQuality);
      RunNet(next, events[1..], maxQuality);
    }
  }

  /** From a fresh form, after any sequence of events the form has called AddMessageFilter
      once more than RemoveMessageFilter while it believes it is registered and equally often
      otherwise, the application's filter list holds it exactly that many times, the form is
      enabled exactly when the filter is off, and the list holds exactly the transferred
      images. */
  lemma SessionBalanced(events: seq<Event>, maxQuality: bool)
    ensures var t := Run(Initial(), events, maxQuality);
      && NetRegistrations(t.calls) == (if t.msgfilter then 1 else 0)
      && t.filters == (if t.msgfilter then 1 else 0)
      && t.enabled == !t.msgfilter
      && t.bitmaps == Harvest(events, maxQuality)
  {
    RunKeepsInv(Initial(), events, maxQuality);
    RunNet(Initial(), events, maxQuality);
    RunHarvest(Initial(), events, maxQuality);
  }

  /** Once the form has been activated and its scan has ended, no later event registers the
      filter again: repeated Activated notifications are ignored, and neither the form's
      flag nor the application's filter list changes. */
  lemma {:induction false} StaysUninstalled(s: FormState, events: seq<Event>, maxQuality: bool)
    requires s.activated && !s.msgfilter
    ensures var t := Run(s, events, maxQuality);
      t.activated && !t.msgfilter && t.filters == s.filters
    decreases |events|
  {
    if events != [] {
      var next := Step(s, events[0], maxQuality);
      assert Run(s, events, maxQuality) == Run(next, events[1..], maxQuality);
      StaysUninstalled(next, events[1..], maxQuality);
    }
  }
}
