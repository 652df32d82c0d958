/**
 * The progress display of a trade: the five steps a trade goes through,
 * which of them are completed or pending for a given trade status, the
 * width of the progress bar, and the cancellation notice. The status is
 * an input; the display has no transitions of its own.
 */
module TradeProgress {
  import opened Wrappers
  import opened ProductImages
  import Lists

  // ---------------------------------------------------------------------
  // getProductImages: conditional pushes
  // ---------------------------------------------------------------------

  function PushIfPresent(images: seq<string>, u: Option<string>): seq<string> {
    if Present(u) then images + [u.value] else images
  }

  /** main, image1 .. image5, each pushed when present, then `filter(Boolean)`. */
  function ProductImageList(p: ImageSlots): seq<string> {
    var images :=
      PushIfPresent(PushIfPresent(PushIfPresent(PushIfPresent(PushIfPresent(PushIfPresent(
        [], p.main), p.image1), p.image2), p.image3), p.image4), p.image5);
    FilterTruthy(images)
  }

  function FilterTruthy(s: seq<string>): (r: seq<string>)
    ensures forall i :: 0 <= i < |r| ==> r[i] != []
  {
    if s == [] then [] else (if s[0] != [] then [s[0]] else []) + FilterTruthy(s[1..])
  }

  lemma {:induction false} FilterTruthyKeeps(s: seq<string>)
    requires forall i :: 0 <= i < |s| ==> s[i] != []
    ensures FilterTruthy(s) == s
  {
    if s != [] {
      FilterTruthyKeeps(s[1..]);
    }
  }

  lemma PushStep(a: seq<Option<string>>, u: Option<string>)
    ensures PushIfPresent(PresentUrls(a), u) == PresentUrls(a + [u])
  {
    PresentUrlsAppend(a, [u]);
    assert PresentUrls([u]) == (if Present(u) then [u.value] else []) + PresentUrls([u][1..]);
  }

  /** The pushes give exactly the present URLs in slot order: at most six, none empty. */
  lemma ProductImageListIsPresentUrls(p: ImageSlots)
    ensures ProductImageList(p) == PresentUrls(Slots(p))
    ensures |ProductImageList(p)| <= 6
    ensures forall i :: 0 <= i < |ProductImageList(p)| ==> ProductImageList(p)[i] != []
  {
    var s0: seq<Option<string>> := [];
    var s1 := s0 + [p.main];
    var s2 := s1 + [p.image1];
    var s3 := s2 + [p.image2];
    var s4 := s3 + [p.image3];
    var s5 := s4 + [p.image4];
    var s6 := s5 + [p.image5];
    PushStep(s0, p.main);
    PushStep(s1, p.image1);
    PushStep(s2, p.image2);
    PushStep(s3, p.image3);
    PushStep(s4, p.image4);
    PushStep(s5, p.image5);
    assert s6 == Slots(p);
    var pushed :=
      PushIfPresent(PushIfPresent(PushIfPresent(PushIfPresent(PushIfPresent(PushIfPresent(
        [], p.main), p.image1), p.image2), p.image3), p.image4), p.image5);
    assert pushed == PresentUrls(s6);
    FilterTruthyKeeps(pushed);
  }

  // ---------------------------------------------------------------------
  // Steps
  // ---------------------------------------------------------------------

  const Initial := "initial"
  const Cancelled := "cancelled"

  /** The step labels, in order. */
  const StepLabels: seq<string> :=
    ["Trade Started", "Payment in Escrow", "Order Shipped", "Order Delivered", "Trade Completed"]

  /** The status each step stands for, in the same order. */
  const StepStatuses: seq<string> := ["accepted", "payment_held", "shipped", "delivered", "completed"]

  /** A missing or empty status, `initial` and `cancelled` show no progress. */
  function CurrentStep(status: Option<string>): (r: int)
    ensures -1 <= r < |StepStatuses|
  {
    if status.None? || status.value == [] || status.value == Initial then -1
    else if status.value == Cancelled then -1
    else Lists.FindIndex(StepStatuses, (st: string) => st == status.value)
  }

  /** The step statuses map to 0..4 in order and every other status to -1. */
  lemma CurrentStepExactly(status: Option<string>)
    ensures CurrentStep(status) >= 0 <==> status.Some? && status.value in StepStatuses
    ensures CurrentStep(status) >= 0 ==> StepStatuses[CurrentStep(status)] == status.value
  {
  }

  lemma CurrentStepOfEachStatus(k: nat)
    requires k < |StepStatuses|
    ensures CurrentStep(Some(StepStatuses[k])) == k
  {
    var r := CurrentStep(Some(StepStatuses[k]));
    assert StepStatuses[k] != Initial && StepStatuses[k] != Cancelled && StepStatuses[k] != [];
    assert r >= 0 && StepStatuses[r] == StepStatuses[k];
    assert r == k;
  }

  datatype StepState = Completed | Pending | Upcoming

  /** How step `idx` is drawn when the trade stands at `currentStep`. */
  function StepStateAt(idx: int, currentStep: int): StepState {
    if idx <= currentStep then Completed
    else if idx == currentStep + 1 then Pending
    else Upcoming
  }

  /** The five steps as drawn for a status. */
  function StepStates(status: Option<string>): (r: seq<StepState>)
    ensures |r| == |StepStatuses|
  {
    var cur := CurrentStep(status);
    seq(|StepStatuses|, idx requires 0 <= idx < |StepStatuses| => StepStateAt(idx, cur))
  }

  /** The completed steps are exactly the first `currentStep + 1`; the step after
      them, if any, is the only pending one; the rest are upcoming. */
  lemma StepStatesShape(status: Option<string>)
    ensures var cur, r := CurrentStep(status), StepStates(status);
      (forall i :: 0 <= i < |r| ==> (r[i] == Completed <==> i <= cur))
      && (forall i :: 0 <= i < |r| ==> (r[i] == Pending <==> i == cur + 1))
      && (forall i, j :: 0 <= i < j < |r| && r[j] == Completed ==> r[i] == Completed)
      && (forall i, j :: 0 <= i < j < |r| && r[i] == Pending ==> r[j] == Upcoming)
  {
  }

  /** `(currentStep / (steps.length - 1)) * 100` for a step, 0 before the first. */
  function BarWidth(cur: int): (w: real)
    requires -1 <= cur < |StepStatuses|
    ensures w == if cur >= 0 then 25.0 * cur as real else 0.0
  {
    if cur >= 0 then (cur as real / (|StepStatuses| - 1) as real) * 100.0 else 0.0
  }

  /** The bar width in percent. */
  function ProgressWidth(status: Option<string>): (w: real)
    ensures 0.0 <= w <= 100.0
  {
    BarWidth(CurrentStep(status))
  }

  /** The bar grows by a quarter per step and is full at the last one. */
  lemma ProgressWidthSteps(status: Option<string>)
    ensures ProgressWidth(status) == if CurrentStep(status) >= 0 then 25.0 * CurrentStep(status) as real else 0.0
    ensures ProgressWidth(status) == 100.0 <==> status == Some("completed")
  {
    if CurrentStep(status) == 4 {
      assert status.value == StepStatuses[4];
    }
    if status == Some("completed") {
      CurrentStepOfEachStatus(4);
    }
  }

  /** A later step never draws a shorter bar. */
  lemma ProgressWidthMonotone(s1: Option<string>, s2: Option<string>)
    requires CurrentStep(s1) <= CurrentStep(s2)
    ensures ProgressWidth(s1) <= ProgressWidth(s2)
  {
    ProgressWidthSteps(s1);
    ProgressWidthSteps(s2);
  }

  predicate ShowsCancelledNotice(status: Option<string>) {
    status == Some(Cancelled)
  }

  /** A cancelled trade shows the notice, an empty bar, and step one pending. */
  lemma CancelledShowsNoProgress(status: Option<string>)
    requires ShowsCancelledNotice(status)
    ensures CurrentStep(status) == -1 && ProgressWidth(status) == 0.0
    ensures StepStates(status) == [Pending, Upcoming, Upcoming, Upcoming, Upcoming]
  {
  }
}
