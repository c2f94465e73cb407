/**
 * Navigation through the selected images on the image-detection page
 * (`ImageDetectionPage`): the list of files, the current index, the
 * previous/next buttons, and the `index/count` status text.
 */
module ImageNavigation {
  import opened Wrappers
  import Naming

  /** The index is a position in the list, or 0 when the list is empty. */
  predicate IndexValid(index: int, count: int) {
    if count <= 0 then index == 0 else 0 <= index < count
  }

  /** Where `previous_image` moves the index: back one, only when it is above 0. */
  function PreviousIndex(index: int): int {
    if index > 0 then index - 1 else index
  }

  /** Where `next_image` moves the index: on one, only when it is below `count - 1`. */
  function NextIndex(index: int, count: int): int {
    if index < count - 1 then index + 1 else index
  }

  /** Both moves keep the index inside the list. */
  lemma NavigationKeepsIndexValid(index: int, count: int)
    requires IndexValid(index, count)
    ensures IndexValid(PreviousIndex(index), count)
    ensures IndexValid(NextIndex(index, count), count)
    ensures PreviousIndex(index) <= index <= NextIndex(index, count)
  {
  }

  /** Away from the ends of the list, the two moves undo each other. */
  lemma NavigationInverse(index: int, count: int)
    requires IndexValid(index, count)
    ensures index < count - 1 ==> PreviousIndex(NextIndex(index, count)) == index
    ensures index > 0 ==> NextIndex(PreviousIndex(index), count) == index
  {
  }

  /** The index after `steps` presses of "next". */
  function NextPresses(index: int, count: int, steps: nat): int
    decreases steps
  {
    if steps == 0 then index else NextPresses(NextIndex(index, count), count, steps - 1)
  }

  /** The index after `steps` presses of "previous". */
  function PreviousPresses(index: int, steps: nat): int
    decreases steps
  {
    if steps == 0 then index else PreviousPresses(PreviousIndex(index), steps - 1)
  }

  /** Pressing "next" repeatedly walks forward and stops at the last image. */
  lemma {:induction false} NextPressesStopAtLast(index: int, count: int, steps: nat)
    requires count > 0 && IndexValid(index, count)
    ensures NextPresses(index, count, steps) == if index + steps < count then index + steps else count - 1
    decreases steps
  {
    if steps > 0 {
      NextPressesStopAtLast(NextIndex(index, count), count, steps - 1);
    }
  }

  /** Pressing "previous" repeatedly walks back and stops at the first image. */
  lemma {:induction false} PreviousPressesStopAtFirst(index: int, count: int, steps: nat)
    requires IndexValid(index, count)
    ensures PreviousPresses(index, steps) == if index >= steps then index - steps else 0
    decreases steps
  {
    if steps > 0 {
      PreviousPressesStopAtFirst(PreviousIndex(index), count, steps - 1);
    }
  }

  /** `f"{index + 1}/{len(image_files)}"`. */
  function CounterText(index: nat, count: nat): string {
    Naming.Decimal(index + 1) + "/" + Naming.Decimal(count)
  }

  /** Reads a counter text back into its two numbers. */
  function ParseCounter(t: string): Option<(nat, nat)> {
    var slash := Naming.LastIndexOf(t, '/');
    if slash < 0 then None
    else
      var a, b := t[..slash], t[slash + 1..];
      if Naming.AllDigits(a) && Naming.AllDigits(b)
      then Some((Naming.DigitsValue(a), Naming.DigitsValue(b)))
      else None
  }

  /**
   * The counter text names the image's one-based position and the list
   * length; for a valid non-empty list the position is between 1 and the length.
   */
  lemma CounterTextRoundTrip(index: nat, count: nat)
    ensures ParseCounter(CounterText(index, count)) == Some((index + 1, count))
    ensures count > 0 && IndexValid(index, count) ==> 1 <= index + 1 <= count
  {
    var a, b := Naming.Decimal(index + 1), Naming.Decimal(count);
    assert CounterText(index, count) == a + ['/'] + b;
    Naming.LastBeforeDigits(a, '/', b);
    Naming.DecimalRoundTrip(index + 1);
    Naming.DecimalRoundTrip(count);
  }

  class ImageDetectionPage {
    var imageFiles: seq<string>
    var currentImageIndex: int
    /** Whether the previous and next buttons are enabled. */
    var navigationEnabled: bool
    /** Whether the detect button is enabled. */
    var detectEnabled: bool

    ghost predicate Valid()
      reads this
    {
      IndexValid(currentImageIndex, |imageFiles|)
    }

    constructor ()
      ensures Valid()
      ensures imageFiles == [] && currentImageIndex == 0
      ensures !navigationEnabled && !detectEnabled
    {
      imageFiles := [];
      currentImageIndex := 0;
      navigationEnabled := false;
      detectEnabled := false;
    }

    /** `select_images`: a non-empty selection replaces the list and starts at its first image. */
    method SelectImages(filePaths: seq<string>)
      requires Valid()
      modifies this
      ensures Valid()
      ensures filePaths != [] ==>
        && imageFiles == filePaths && currentImageIndex == 0
        && detectEnabled && navigationEnabled == (|filePaths| > 1)
      ensures filePaths == [] ==> unchanged(this)
    {
      if filePaths != [] {
        imageFiles := filePaths;
        currentImageIndex := 0;
        detectEnabled := true;
        navigationEnabled := |filePaths| > 1;
      }
    }

    /** `previous_image`: the index moves back only when it is above 0. */
    method PreviousImage()
      requires Valid()
      modifies this`currentImageIndex
      ensures Valid()
      ensures currentImageIndex == PreviousIndex(old(currentImageIndex))
    {
      if currentImageIndex > 0 {
        currentImageIndex := currentImageIndex - 1;
      }
    }

    /** `next_image`: the index moves on only when it is below the last position. */
    method NextImage()
      requires Valid()
      modifies this`currentImageIndex
      ensures Valid()
      ensures currentImageIndex == NextIndex(old(currentImageIndex), |imageFiles|)
    {
      if currentImageIndex < |imageFiles| - 1 {
        currentImageIndex := currentImageIndex + 1;
      }
    }

    /**
     * `update_display_info`: with images selected, the counter text and the
     * base name of the current file; with none, nothing is shown.
     */
    function DisplayInfo(): (r: Option<(string, string)>)
      reads this
      requires Valid()
      ensures r.Some? <==> imageFiles != []
      ensures r.Some? ==>
        && ParseCounter(r.value.0) == Some((currentImageIndex + 1, |imageFiles|))
        && r.value.1 == Naming.Basename(imageFiles[currentImageIndex])
    {
      if imageFiles == [] then None
      else
        CounterTextRoundTrip(currentImageIndex, |imageFiles|);
        Some((CounterText(currentImageIndex, |imageFiles|), Naming.Basename(imageFiles[currentImageIndex])))
    }
  }
}
