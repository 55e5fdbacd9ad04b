/** The image carousel of a restaurant card: one index into the images,
    moved by the two arrow buttons with wrap-around at both ends. */
module ImageSlider {
  import opened Wrappers
  import opened Text

  /** JavaScript's `%`, which truncates toward zero: the remainder takes
      the sign of the dividend. */
  function JsRem(a: int, n: int): (r: int)
    requires n > 0
    ensures a >= 0 ==> 0 <= r < n && r == a % n
    ensures a < 0 ==> -n < r <= 0
  {
    if a >= 0 then a % n else -((-a) % n)
  }

  /** `next`: `(i + 1) % images.length` */
  function NextIdx(i: int, n: int): (r: int)
    requires n > 0
    ensures i >= -1 ==> 0 <= r < n
    ensures 0 <= i < n - 1 ==> r == i + 1
    ensures i == n - 1 ==> r == 0
  {
    JsRem(i + 1, n)
  }

  /** `prev`: `(i - 1 + images.length) % images.length` */
  function PrevIdx(i: int, n: int): (r: int)
    requires n > 0
    ensures i >= 1 - n ==> 0 <= r < n
    ensures 0 < i < n ==> r == i - 1
    ensures i == 0 ==> r == n - 1
  {
    JsRem(i - 1 + n, n)
  }

  /** Back undoes forward and forward undoes back. */
  lemma NextPrevInverse(i: int, n: int)
    requires 0 <= i < n
    ensures PrevIdx(NextIdx(i, n), n) == i
    ensures NextIdx(PrevIdx(i, n), n) == i
  {
  }

  /** `k` presses of the forward arrow. */
  function NextTimes(i: int, n: int, k: nat): int
    requires n > 0
  {
    if k == 0 then i else NextIdx(NextTimes(i, n, k - 1), n)
  }

  /** Up to a full round, `k` presses move `k` images on, wrapping past
      the last image to the first. */
  lemma {:induction false} NextTimesWraps(i: int, n: int, k: nat)
    requires 0 <= i < n && k <= n
    ensures NextTimes(i, n, k) == if i + k < n then i + k else i + k - n
  {
    if k > 0 {
      NextTimesWraps(i, n, k - 1);
    }
  }

  /** A full round of presses comes back to the image it started from. */
  lemma FullRound(i: int, n: int)
    requires 0 <= i < n
    ensures NextTimes(i, n, n) == i
  {
    NextTimesWraps(i, n, n);
  }

  /** Pressing `a` times then `b` times is pressing `a + b` times. */
  lemma {:induction false} NextTimesAdd(i: int, n: int, a: nat, b: nat)
    requires n > 0
    ensures NextTimes(i, n, a + b) == NextTimes(NextTimes(i, n, a), n, b)
  {
    if b > 0 {
      NextTimesAdd(i, n, a, b - 1);
    }
  }

  /** What the forward arrow shows repeats every full round. */
  lemma NextTimesPeriodic(i: int, n: int, k: nat)
    requires 0 <= i < n
    ensures NextTimes(i, n, k + n) == NextTimes(i, n, k)
  {
    NextTimesAdd(i, n, k, n);
    NextTimesInRange(i, n, k);
    FullRound(NextTimes(i, n, k), n);
  }

  /** Presses from an index in range stay in range. */
  lemma {:induction false} NextTimesInRange(i: int, n: int, k: nat)
    requires 0 <= i < n
    ensures 0 <= NextTimes(i, n, k) < n
  {
    if k > 0 {
      NextTimesInRange(i, n, k - 1);
    }
  }

  /** `altText || "Slide " + (i + 1)`: a non-empty alt text is kept;
      otherwise the image is named by its one-based position. */
  function AltText(altText: Option<string>, i: nat): (r: string)
    ensures |r| > 0
    ensures altText.Some? && |altText.value| > 0 ==> r == altText.value
    ensures (altText.None? || altText.value == "") ==>
              && |r| > 6 && r[..6] == "Slide "
              && (forall j :: 6 <= j < |r| ==> '0' <= r[j] <= '9')
              && DecimalValue(r[6..]) == i + 1
  {
    if altText.Some? && |altText.value| > 0 then altText.value
    else
      var digits := NatToDecimal(i + 1);
      NatToDecimalValue(i + 1);
      assert ("Slide " + digits)[6..] == digits;
      "Slide " + digits
  }

  /** What the slider renders: nothing without images, otherwise every
      image, the one at the index opaque and the others transparent. */
  function Rendered(n: nat, idx: int): (r: Option<seq<bool>>)
    ensures r.None? <==> n == 0
    ensures r.Some? ==> |r.value| == n && forall i :: 0 <= i < n ==> (r.value[i] <==> i == idx)
  {
    if n == 0 then None else Some(seq(n, i requires 0 <= i < n => i == idx))
  }

  /** With an index in range exactly one image shows. */
  lemma OneImageShown(n: nat, idx: int)
    requires 0 <= idx < n
    ensures Rendered(n, idx).Some? && Rendered(n, idx).value[idx]
    ensures forall i :: 0 <= i < n && Rendered(n, idx).value[i] ==> i == idx
  {
  }

  /** The `idx` state cell. */
  class Slider {
    var idx: int

    predicate Valid()
      reads this
    {
      idx >= 0
    }

    constructor ()
      ensures Valid() && idx == 0
    {
      idx := 0;
    }

    /** The forward arrow over `n` images; the arrows exist only when there
        are images. */
    method Next(n: int)
      requires Valid() && n > 0
      modifies this
      ensures Valid()
      ensures idx == NextIdx(old(idx), n) && 0 <= idx < n
    {
      idx := JsRem(idx + 1, n);
    }

    /** The backward arrow over `n` images. */
    method Prev(n: int)
      requires Valid() && n > 0
      modifies this
      ensures Valid()
      ensures idx == PrevIdx(old(idx), n) && 0 <= idx < n
    {
      idx := JsRem(idx - 1 + n, n);
    }
  }
}
