/** The image carousel of the product detail modal
    (components/ProductModal.tsx): one index into the product's images,
    moved by the two arrows and set by the dots. */
module ProductModal {

  /** `nextImage`: the index after `i`, back to 0 after the last image. */
  function NextIndex(i: int, n: int): (r: int)
    ensures 1 <= n && 0 <= i < n ==> 0 <= r < n && r == (i + 1) % n
  {
    if i == n - 1 then 0 else i + 1
  }

  /** `prevImage`: the index before `i`, round to the last image from 0. */
  function PrevIndex(i: int, n: int): (r: int)
    ensures 1 <= n && 0 <= i < n ==> 0 <= r < n && r == (i - 1) % n
  {
    if i == 0 then n - 1 else i - 1
  }

  /** The two arrows undo each other. */
  lemma ArrowsAreInverse(i: int, n: int)
    requires 1 <= n && 0 <= i < n
    ensures PrevIndex(NextIndex(i, n), n) == i
    ensures NextIndex(PrevIndex(i, n), n) == i
  {
  }

  /** With a single image both arrows stay on it. */
  lemma SingleImageStays()
    ensures NextIndex(0, 1) == 0 && PrevIndex(0, 1) == 0
  {
  }

  /** The index after `k` presses of the next arrow. */
  function NextPresses(i: int, n: int, k: nat): int
  {
    if k == 0 then i else NextIndex(NextPresses(i, n, k - 1), n)
  }

  /** Every press keeps the index on an image. */
  lemma {:induction false} NextPressesInRange(i: int, n: int, k: nat)
    requires 1 <= n && 0 <= i < n
    ensures 0 <= NextPresses(i, n, k) < n
  {
    if k > 0 {
      NextPressesInRange(i, n, k - 1);
    }
  }

  /** Within one tour, `k` presses move `k` places, wrapping past the last
      image once. */
  lemma {:induction false} NextPressesWithinTour(i: int, n: int, k: nat)
    requires 1 <= n && 0 <= i < n && k <= n
    ensures NextPresses(i, n, k) == if i + k < n then i + k else i + k - n
  {
    if k > 0 {
      NextPressesWithinTour(i, n, k - 1);
    }
  }

  /** After as many presses as there are images the carousel is back where it
      started. */
  lemma FullTour(i: int, n: int)
    requires 1 <= n && 0 <= i < n
    ensures NextPresses(i, n, n) == i
  {
    NextPressesWithinTour(i, n, n);
  }

  /** Pressing `a` times and then `b` times is pressing `a + b` times. */
  lemma {:induction false} NextPressesCompose(i: int, n: int, a: nat, b: nat)
    ensures NextPresses(NextPresses(i, n, a), n, b) == NextPresses(i, n, a + b)
  {
    if b > 0 {
      NextPressesCompose(i, n, a, b - 1);
    }
  }

  /** The presses are periodic with the number of images. */
  lemma NextPressesPeriodic(i: int, n: int, k: nat)
    requires 1 <= n && 0 <= i < n
    ensures NextPresses(i, n, k + n) == NextPresses(i, n, k)
  {
    NextPressesCompose(i, n, k, n);
    NextPressesInRange(i, n, k);
    FullTour(NextPresses(i, n, k), n);
  }

  /** `currentImage` for one open modal; the number of images is fixed by the
      product shown. */
  class ImageCarousel {
    const imageCount: nat
    var current: int

    /** The index is 0 or names one of the images. */
    ghost predicate Valid()
      reads this
    {
      current == 0 || 0 < current < imageCount
    }

    /** `useState(0)`: a new modal starts at the first image. */
    constructor (imageCount: nat)
      ensures Valid()
      ensures this.imageCount == imageCount && current == 0
    {
      this.imageCount := imageCount;
      current := 0;
    }

    /** The right arrow. */
    method Next()
      requires Valid() && imageCount >= 1
      modifies this
      ensures Valid() && 0 <= current < imageCount
      ensures current == NextIndex(old(current), imageCount)
      ensures current == (old(current) + 1) % imageCount
    {
      current := if current == imageCount - 1 then 0 else current + 1;
    }

    /** The left arrow. */
    method Prev()
      requires Valid() && imageCount >= 1
      modifies this
      ensures Valid() && 0 <= current < imageCount
      ensures current == PrevIndex(old(current), imageCount)
      ensures current == (old(current) - 1) % imageCount
    {
      current := if current == 0 then imageCount - 1 else current - 1;
    }

    /** A dot: one per image, so its index is always an image. */
    method Show(index: nat)
      requires Valid() && index < imageCount
      modifies this
      ensures Valid() && current == index
    {
      current := index;
    }
  }

  /** Next then previous on a fresh carousel of three images comes back to
      the first image. */
  method NextThenPrev() returns (carousel: ImageCarousel)
    ensures carousel.imageCount == 3 && carousel.current == 0
  {
    carousel := new ImageCarousel(3);
    carousel.Next();
    assert carousel.current == 1;
    carousel.Prev();
  }
}
