/** The TWAIN acquisition form: a WinForms form that registers itself as a process-wide
    message filter while a scan runs, hands every message to the TWAIN source for
    classification and collects the transferred pages in its `bitmaps` list. */
module TwainGui {
  import opened TwainTypes
  import TwainSession

  class FTwainGui {
    var activated: bool             // set by the first Activated notification
    var msgfilter: bool             // the form's record of being registered as a message filter
    var enabled: bool               // Form.Enabled
    var bitmaps: seq<ScannedImage>  // the scanned pages, in transfer order
    const maxQuality: bool          // settings.MaxQuality of the scan settings
    /** How many times the application's message-filter list holds this form. */
    ghost var filters: nat
    /** The calls made so far on the window system, the TWAIN source and the logger. */
    ghost var calls: seq<Call>

    ghost function State(): TwainSession.FormState
      reads this
    {
      TwainSession.FormState(activated, msgfilter, enabled, bitmaps, filters, calls)
    }

    ghost predicate Valid()
      reads this
    {
      TwainSession.Inv(State())
    }

    /** A new form for one scan with the given settings: enabled, not yet activated, not
        registered, no pages. */
    constructor (maxQuality: bool)
      ensures State() == TwainSession.Initial() && this.maxQuality == maxQuality
      ensures Valid()
    {
      activated, msgfilter, enabled, bitmaps := false, false, true, [];
      this.maxQuality := maxQuality;
      filters, calls := 0, [];
    }

    /** Unregisters the filter if it is registered, re-enables the form and activates it. */
    method EndingScan()
      requires Valid()
      modifies this
      ensures State() == TwainSession.EndingScan(old(State()))
      ensures !msgfilter && (old(msgfilter) ==> enabled)
      ensures !old(msgfilter) ==> unchanged(this)
      ensures Valid()
    {
      if msgfilter {
        filters := filters - 1;
        calls := calls + [RemoveFilter];
        msgfilter := false;
        enabled := true;
        calls := calls + [ActivateForm];
      }
    }

    /** The Activated event handler, with the way the call to Acquire ends as its input. */
    method OnActivated(outcome: AcquireOutcome)
      requires Valid()
      modifies this
      ensures State() == TwainSession.OnActivated(old(State()), outcome)
      ensures activated && bitmaps == old(bitmaps)
      ensures old(activated) ==> unchanged(this)
      ensures !old(activated) && outcome == Accepted ==> msgfilter && (!old(msgfilter) ==> !enabled)
      ensures !old(activated) && outcome != Accepted ==> !msgfilter && enabled
      ensures Valid()
    {
      if activated {
        return;
      }
      activated := true;
      if !msgfilter {
        enabled := false;
        msgfilter := true;
        filters := filters + 1;
        calls := calls + [AddFilter];
      }
      calls := calls + [Acquire];
      assert State() == TwainSession.StartAcquire(old(State()));
      match outcome {
        case Accepted =>
        case Refused =>
          EndingScan();
          calls := calls + [CloseForm];
        case Threw =>
          calls := calls + [LogError];
          EndingScan();
          calls := calls + [CloseForm];
      }
      assert State() == TwainSession.OnActivated(old(State()), outcome);
      TwainSession.OnActivatedKeepsInv(old(State()), outcome);
    }

    /** The loop over the transferred handles: one image per handle, appended in order after
        the images already there, and nothing else changes. */
    method AppendScanned(pics: seq<Dib>)
      modifies this
      ensures State() == old(State()).(bitmaps := old(bitmaps) + Converted(pics, maxQuality))
    {
      for i := 0 to |pics|
        invariant State() == old(State()).(bitmaps := old(bitmaps) + Converted(pics[..i], maxQuality))
      {
        ConvertedSnoc(pics, i, maxQuality);
        TwainSession.AppendAssoc(old(bitmaps), Converted(pics[..i], maxQuality), [ToImage(pics[i], maxQuality)]);
        bitmaps := bitmaps + [ToImage(pics[i], maxQuality)];
      }
      assert pics[..|pics|] == pics;
    }

    /** IMessageFilter.PreFilterMessage, with the command the TWAIN source classified the
        message as and, for a transfer, the handles TransferPictures returns as inputs.
        Returns whether the message was consumed. */
    method PreFilterMessage(cmd: TwainCommand, pics: seq<Dib>) returns (consumed: bool)
      requires Valid()
      modifies this
      ensures consumed <==> cmd != Not
      ensures State() == TwainSession.PreFilter(old(State()), cmd, pics, maxQuality)
      ensures cmd == Not || cmd == DeviceEvent ==> unchanged(this)
      ensures cmd != Not && cmd != DeviceEvent ==> !msgfilter && (old(msgfilter) ==> enabled)
      ensures bitmaps == if cmd == TransferReady then old(bitmaps) + Converted(pics, maxQuality) else old(bitmaps)
      ensures Valid()
    {
      if cmd == Not {
        return false;
      }
      match cmd {
        case CloseRequest =>
          EndingScan();
          calls := calls + [CloseSrc];
          calls := calls + [CloseForm];
        case CloseOk =>
          EndingScan();
          calls := calls + [CloseSrc];
        case DeviceEvent =>
        case TransferReady =>
          calls := calls + [TransferPictures];
          EndingScan();
          calls := calls + [CloseSrc];
          AppendScanned(pics);
          calls := calls + [CloseForm];
          assert State() == TwainSession.PreFilter(old(State()), cmd, pics, maxQuality);
        case Not =>
      }
      assert State() == TwainSession.PreFilter(old(State()), cmd, pics, maxQuality);
      TwainSession.PreFilterKeepsInv(old(State()), cmd, pics, maxQuality);
      return true;
    }
  }

  /** A scan that goes as planned: the form is activated, the source accepts, two pages are
      transferred and the source then acknowledges the close. Both pages are kept, in order
      and tagged by their bit counts, and the filter ends up unregistered. */
  method TransferScenario(first: Dib, second: Dib, maxQuality: bool)
    returns (images: seq<ScannedImage>, installed: bool, enabled: bool)
    ensures images == [ToImage(first, maxQuality), ToImage(second, maxQuality)]
    ensures images[0].depth == BlackWhite <==> first.bitcount == 1
    ensures !installed && enabled
  {
    var form := new FTwainGui(maxQuality);
    form.OnActivated(Accepted);
    var transferred := form.PreFilterMessage(TransferReady, [first, second]);
    var acknowledged := form.PreFilterMessage(CloseOk, []);
    images, installed, enabled := form.bitmaps, form.msgfilter, form.enabled;
    ConvertedPair(first, second, maxQuality);
  }

  /** A scan whose Acquire is refused or throws: no pages, the filter unregistered and gone
      from the application's filter list, the form enabled again and closed. */
  method FailedAcquireScenario(outcome: AcquireOutcome, maxQuality: bool)
    returns (images: seq<ScannedImage>, installed: bool, enabled: bool, ghost registrations: nat, ghost closed: bool)
    requires outcome != Accepted
    ensures images == [] && !installed && enabled && registrations == 0 && closed
  {
    var form := new FTwainGui(maxQuality);
    form.OnActivated(outcome);
    assert form.calls[|form.calls| - 1] == CloseForm;
    images, installed, enabled := form.bitmaps, form.msgfilter, form.enabled;
    registrations, closed := form.filters, CloseForm in form.calls;
  }

  /** The source asks to close while the acquisition is under way: the scan ends at once, the
      form is closed, and no pages are produced. A later Activated notification, however
      Acquire would end, does not register the filter again. */
  method CloseRequestScenario(maxQuality: bool, later: AcquireOutcome)
    returns (images: seq<ScannedImage>, installed: bool, consumed: bool, ghost registrations: nat, ghost closed: bool)
    ensures images == [] && !installed && consumed && registrations == 0 && closed
  {
    var form := new FTwainGui(maxQuality);
    form.OnActivated(Accepted);
    consumed := form.PreFilterMessage(CloseRequest, []);
    assert form.calls[|form.calls| - 1] == CloseForm;
    closed := CloseForm in form.calls;
    form.OnActivated(later);
    images, installed, registrations := form.bitmaps, form.msgfilter, form.filters;
  }
}
