/**
 * The six image slots a product carries (the main image and image1 to
 * image5) and the list of the URLs that are actually present, in slot order.
 * A URL counts as present when it is a non-empty string, as a JavaScript
 * truthiness test decides.
 */
module ProductImages {
  import opened Wrappers

  datatype ImageSlots = ImageSlots(
    main: Option<string>, image1: Option<string>, image2: Option<string>,
    image3: Option<string>, image4: Option<string>, image5: Option<string>)

  /** A truthy URL: there is one and it is not empty. */
  predicate Present(u: Option<string>) {
    u.Some? && u.value != []
  }

  /** The slots in display order. */
  function Slots(p: ImageSlots): (r: seq<Option<string>>)
    ensures |r| == 6
  {
    [p.main, p.image1, p.image2, p.image3, p.image4, p.image5]
  }

  /** The present URLs of `slots`, in order (`[...].filter(Boolean)`). */
  function PresentUrls(slots: seq<Option<string>>): (r: seq<string>)
    ensures |r| <= |slots|
    ensures forall i :: 0 <= i < |r| ==> r[i] != []
    ensures forall i :: 0 <= i < |slots| && Present(slots[i]) ==> slots[i].value in r
  {
    if slots == [] then []
    else (if Present(slots[0]) then [slots[0].value] else []) + PresentUrls(slots[1..])
  }

  lemma {:induction false} PresentUrlsAppend(a: seq<Option<string>>, b: seq<Option<string>>)
    ensures PresentUrls(a + b) == PresentUrls(a) + PresentUrls(b)
  {
    if a == [] {
      assert a + b == b;
    } else {
      assert (a + b)[1..] == a[1..] + b;
      PresentUrlsAppend(a[1..], b);
    }
  }

  /** No image is shown exactly when no slot holds a URL. */
  lemma {:induction false} PresentUrlsEmptyIff(slots: seq<Option<string>>)
    ensures PresentUrls(slots) == [] <==> forall i :: 0 <= i < |slots| ==> !Present(slots[i])
  {
    if slots != [] {
      PresentUrlsEmptyIff(slots[1..]);
      assert forall i :: 1 <= i < |slots| ==> slots[i] == slots[1..][i - 1];
    }
  }

  /** When every slot holds a URL, all of them are shown, unchanged and in order. */
  lemma {:induction false} PresentUrlsAllPresent(slots: seq<Option<string>>)
    requires forall i :: 0 <= i < |slots| ==> Present(slots[i])
    ensures |PresentUrls(slots)| == |slots|
    ensures forall i :: 0 <= i < |slots| ==> PresentUrls(slots)[i] == slots[i].value
  {
    if slots != [] {
      PresentUrlsAllPresent(slots[1..]);
    }
  }
}
