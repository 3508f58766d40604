/** The home-page slideshow (client/src/components/Carousel.js): the index of
    the slide shown, whether it advances on its own, and the controls that
    move it. */
module SlideShow {

  /** The number of slides in the component's `slides` array. */
  const SlideCount: nat := 5

  /** The `nextSlide` step `(i + 1) % n`: one slide on, the last wrapping to
      the first. */
  function Next(i: nat, n: nat): (r: nat)
    requires n > 0
    ensures r < n
    ensures i < n ==> r == if i == n - 1 then 0 else i + 1
  {
    (i + 1) % n
  }

  /** The `prevSlide` step `(i - 1 + n) % n`: one slide back, the first
      wrapping to the last. For an index in range the dividend is never
      negative, so the truncating `%` of JavaScript agrees with Dafny's. */
  function Prev(i: nat, n: nat): (r: nat)
    requires n > 0
    ensures r < n
    ensures i < n ==> r == if i == 0 then n - 1 else i - 1
  {
    (i - 1 + n) % n
  }

  /** Stepping forward then back, or back then forward, returns to the slide
      one started from. */
  lemma StepsInverse(i: nat, n: nat)
    requires n > 0 && i < n
    ensures Prev(Next(i, n), n) == i
    ensures Next(Prev(i, n), n) == i
  {
  }

  /** Up to a full turn, `k` steps forward from slide `i` land `k` slides
      on, wrapping once past the last; after `n` steps the show is back
      where it started. */
  lemma {:induction false} StepsWrap(i: nat, n: nat, k: nat)
    requires n > 0 && i < n && k <= n
    ensures Steps(i, n, k) == if i + k < n then i + k else i + k - n
    ensures k == n ==> Steps(i, n, k) == i
  {
    if k > 0 {
      StepsWrap(i, n, k - 1);
    }
  }

  /** `k` auto-advance steps in a row. */
  function Steps(i: nat, n: nat, k: nat): (r: nat)
    requires n > 0
    ensures k > 0 ==> r < n
  {
    if k == 0 then i else Next(Steps(i, n, k - 1), n)
  }

  class Carousel {
    var currentSlide: nat
    var isPlaying: bool

    /** The slide shown is always one of the slides. */
    predicate Valid()
      reads this
    {
      currentSlide < SlideCount
    }

    /** The initial state: the first slide, playing. */
    constructor()
      ensures Valid() && currentSlide == 0 && isPlaying
    {
      currentSlide := 0;
      isPlaying := true;
    }

    method NextSlide()
      requires Valid()
      modifies this
      ensures Valid()
      ensures currentSlide == Next(old(currentSlide), SlideCount) && isPlaying == old(isPlaying)
    {
      currentSlide := (currentSlide + 1) % SlideCount;
    }

    method PrevSlide()
      requires Valid()
      modifies this
      ensures Valid()
      ensures currentSlide == Prev(old(currentSlide), SlideCount) && isPlaying == old(isPlaying)
    {
      currentSlide := (currentSlide - 1 + SlideCount) % SlideCount;
    }

    /** `goToSlide(index)`: the dots pass only the indices of the slides. */
    method GoToSlide(index: nat)
      requires Valid() && index < SlideCount
      modifies this
      ensures Valid()
      ensures currentSlide == index && isPlaying == old(isPlaying)
    {
      currentSlide := index;
    }

    /** `togglePlayPause`: flips `isPlaying`, so toggling twice restores it. */
    method TogglePlayPause()
      requires Valid()
      modifies this
      ensures Valid()
      ensures isPlaying == !old(isPlaying) && currentSlide == old(currentSlide)
    {
      isPlaying := !isPlaying;
    }

    /** One firing of the five-second interval: the interval exists only
        while playing, and then advances like `nextSlide`. */
    method Tick()
      requires Valid()
      modifies this
      ensures Valid()
      ensures isPlaying == old(isPlaying)
      ensures currentSlide == if isPlaying then Next(old(currentSlide), SlideCount) else old(currentSlide)
    {
      if isPlaying {
        currentSlide := (currentSlide + 1) % SlideCount;
      }
    }
  }
}
