/** Values exchanged between the TWAIN acquisition form (FTwainGui) and its collaborators:
    the TWAIN source, the window system and the scanned-image list it fills. */
module TwainTypes {

  /** What the TWAIN source made of one intercepted window message (the result of Twain.PassMessage). */
  datatype TwainCommand = Not | CloseRequest | CloseOk | DeviceEvent | TransferReady

  /** How a call to Twain.Acquire ended: it returned true, it returned false, or it threw. */
  datatype AcquireOutcome = Accepted | Refused | Threw

  /** The colour depth a scanned page is tagged with. */
  datatype ScanBitDepth = BlackWhite | C24Bit

  /** One device-independent bitmap handle returned by Twain.TransferPictures, together with
      the bit count that DibUtils.BitmapFromDib reads from its header. */
  datatype Dib = Dib(handle: int, bitcount: int)

  /** A scanned page: the bitmap decoded from the handle `source`, its colour-depth tag and
      the maximum-quality flag of the scan settings. */
  datatype ScannedImage = ScannedImage(source: int, depth: ScanBitDepth, maxQuality: bool)

  /** The calls the form makes on the window system, on the TWAIN source and on its logger. */
  datatype Call =
    | AddFilter         // Application.AddMessageFilter(this)
    | RemoveFilter      // Application.RemoveMessageFilter(this)
    | ActivateForm      // Form.Activate()
    | CloseForm         // Form.Close()
    | Acquire           // Twain.Acquire()
    | TransferPictures  // Twain.TransferPictures()
    | CloseSrc          // Twain.CloseSrc()
    | LogError          // Logger.ErrorException(...)

  /** The image appended for one transferred handle: a one-bit bitmap is black-and-white,
      anything else is tagged 24-bit colour. */
  function ToImage(pic: Dib, maxQuality: bool): (img: ScannedImage)
    ensures img.source == pic.handle && img.maxQuality == maxQuality
    ensures img.depth == BlackWhite <==> pic.bitcount == 1
    ensures img.depth == C24Bit <==> pic.bitcount != 1
  {
    ScannedImage(pic.handle, if pic.bitcount == 1 then BlackWhite else C24Bit, maxQuality)
  }

  /** The images a batch of transferred handles turns into, one per handle, in order. */
  function Converted(pics: seq<Dib>, maxQuality: bool): (images: seq<ScannedImage>)
    ensures |images| == |pics|
    ensures forall i :: 0 <= i < |pics| ==> images[i] == ToImage(pics[i], maxQuality)
  {
    if pics == [] then []
    else Converted(pics[..|pics| - 1], maxQuality) + [ToImage(pics[|pics| - 1], maxQuality)]
  }

  /** Converting one more handle appends its image to those of the handles before it. */
  lemma ConvertedSnoc(pics: seq<Dib>, i: nat, maxQuality: bool)
    requires i < |pics|
    ensures Converted(pics[..i + 1], maxQuality) == Converted(pics[..i], maxQuality) + [ToImage(pics[i], maxQuality)]
  {
    assert pics[..i + 1][..i] == pics[..i];
  }

  /** A transfer of two handles yields their two images, first handle first. */
  lemma ConvertedPair(first: Dib, second: Dib, maxQuality: bool)
    ensures Converted([first, second], maxQuality) == [ToImage(first, maxQuality), ToImage(second, maxQuality)]
  {
    assert [first, second][..1] == [first];
  }
}
