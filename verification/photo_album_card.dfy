/**
 * The photo album card: what its media area shows (a slideshow of the local
 * photos, a four-photo preview grid next to an external link, or a
 * placeholder icon) and the slideshow's cyclic slide index.
 */
module PhotoAlbumCard {

  /** (prev + 1) % n: the slide after s, wrapping from the last to the first. */
  function NextIndex(s: nat, n: nat): (t: nat)
    requires n > 0
    ensures t < n
  {
    (s + 1) % n
  }

  /** (prev - 1 + n) % n: the slide before s, wrapping from the first to the last. */
  function PrevIndex(s: nat, n: nat): (t: nat)
    requires n > 0
    ensures t < n
  {
    (s - 1 + n) % n
  }

  /** Next moves forward by one, from the last slide back to the first. */
  lemma NextSteps(s: nat, n: nat)
    requires 0 < n && s < n
    ensures s + 1 < n ==> NextIndex(s, n) == s + 1
    ensures s + 1 == n ==> NextIndex(s, n) == 0
  {
    if s + 1 < n {
      ModUnique(s + 1, n, 0, s + 1);
    } else {
      ModUnique(s + 1, n, 1, 0);
    }
  }

  /** Prev moves back by one, from the first slide to the last. */
  lemma PrevSteps(s: nat, n: nat)
    requires 0 < n && s < n
    ensures s > 0 ==> PrevIndex(s, n) == s - 1
    ensures s == 0 ==> PrevIndex(s, n) == n - 1
  {
    if s > 0 {
      ModUnique(s - 1 + n, n, 1, s - 1);
    } else {
      ModUnique(n - 1, n, 0, n - 1);
    }
  }

  /** Prev undoes Next and Next undoes Prev. */
  lemma NextPrevInverse(s: nat, n: nat)
    requires 0 < n && s < n
    ensures PrevIndex(NextIndex(s, n), n) == s
    ensures NextIndex(PrevIndex(s, n), n) == s
  {
    NextSteps(s, n);
    PrevSteps(s, n);
    if s + 1 < n {
      PrevSteps(s + 1, n);
    } else {
      PrevSteps(0, n);
    }
    if s > 0 {
      NextSteps(s - 1, n);
    } else {
      NextSteps(n - 1, n);
    }
  }

  /** m presses of Next from slide s. */
  function NextTimes(s: nat, n: nat, m: nat): (t: nat)
    requires 0 < n && s < n
    ensures t < n
  {
    if m == 0 then s else NextIndex(NextTimes(s, n, m - 1), n)
  }

  /** m presses of Next advance the slide by m, modulo n. */
  lemma {:induction false} NextTimesIs(s: nat, n: nat, m: nat)
    requires 0 < n && s < n
    ensures NextTimes(s, n, m) == (s + m) % n
  {
    if m > 0 {
      NextTimesIs(s, n, m - 1);
      var t := NextTimes(s, n, m - 1);
      assert NextTimes(s, n, m) == (t + 1) % n;
      ModSucc(s + m - 1, n);
      assert s + m - 1 + 1 == s + m;
    }
  }

  lemma {:induction false} MulAtLeast(d: int, n: int)
    requires d >= 1 && n > 0
    ensures d * n >= n
  {
    if d > 1 {
      MulAtLeast(d - 1, n);
      assert d * n == (d - 1) * n + n;
    }
  }

  /** Division with remainder is unique: a == q * n + r with 0 <= r < n fixes a % n and a / n. */
  lemma ModUnique(a: int, n: int, q: int, r: int)
    requires n > 0 && 0 <= r < n && a == q * n + r
    ensures a % n == r && a / n == q
  {
    var q', r' := a / n, a % n;
    assert (q - q') * n == r' - r;
    if q > q' {
      MulAtLeast(q - q', n);
    } else if q < q' {
      MulAtLeast(q' - q, n);
    }
  }

  /** ((a % n) + 1) % n == (a + 1) % n. */
  lemma ModSucc(a: nat, n: nat)
    requires n > 0
    ensures (a % n + 1) % n == (a + 1) % n
  {
    var q, r := a / n, a % n;
    if r + 1 < n {
      ModUnique(a + 1, n, q, r + 1);
      ModUnique(r + 1, n, 0, r + 1);
    } else {
      ModUnique(a + 1, n, q + 1, 0);
      ModUnique(r + 1, n, 1, 0);
    }
  }

  /** n presses of Next bring the slideshow back to where it was, and no fewer do. */
  lemma NextCycle(s: nat, n: nat)
    requires 0 < n && s < n
    ensures NextTimes(s, n, n) == s
    ensures forall m :: 0 < m < n ==> NextTimes(s, n, m) != s
  {
    NextTimesIs(s, n, n);
    ModUnique(s + n, n, 1, s);
    forall m | 0 < m < n ensures NextTimes(s, n, m) != s {
      NextTimesIs(s, n, m);
      if s + m < n {
        ModUnique(s + m, n, 0, s + m);
      } else {
        ModUnique(s + m, n, 1, s + m - n);
      }
    }
  }

  /** What the card's media area shows. */
  datatype DisplayMode = Slideshow | GridPreview | Placeholder

  /** hasExternalLink: albumUrl is a non-empty string. */
  predicate HasExternalLink(albumUrl: string) {
    |albumUrl| > 0
  }

  /**
   * showSlideshow chooses the slideshow; otherwise any local photos give the
   * preview grid, and no photos the placeholder icon.
   */
  function ModeOf(albumUrl: string, photos: seq<string>): (m: DisplayMode)
    ensures m == Slideshow <==> !HasExternalLink(albumUrl) && |photos| > 0
    ensures m == GridPreview <==> HasExternalLink(albumUrl) && |photos| > 0
    ensures m == Placeholder <==> |photos| == 0
  {
    var showSlideshow := !HasExternalLink(albumUrl) && |photos| > 0;
    if showSlideshow then Slideshow
    else if |photos| > 0 then GridPreview
    else Placeholder
  }

  /** localPhotos.slice(0, 4): the photos of the preview grid. */
  function Preview(photos: seq<string>): (shown: seq<string>)
    ensures |shown| == if |photos| < 4 then |photos| else 4
    ensures forall i :: 0 <= i < |shown| ==> shown[i] == photos[i]
  {
    if |photos| <= 4 then photos else photos[..4]
  }

  /**
   * One card: its link and photos are props, the slide index is the state
   * the arrow buttons update.
   */
  class AlbumCard {
    const albumUrl: string
    const photos: seq<string>
    var currentSlide: nat

    /** The slide index names a photo, or is 0 when there are none. */
    ghost predicate Valid()
      reads this
    {
      currentSlide < |photos| || (|photos| == 0 && currentSlide == 0)
    }

    /** useState(0): a card starts on its first slide. */
    constructor(albumUrl: string, photos: seq<string>)
      ensures this.albumUrl == albumUrl && this.photos == photos && currentSlide == 0
      ensures Valid()
    {
      this.albumUrl := albumUrl;
      this.photos := photos;
      currentSlide := 0;
    }

    function Mode(): DisplayMode
      reads this
    {
      ModeOf(albumUrl, photos)
    }

    /**
     * nextSlide: the right arrow, which exists only in slideshow mode, moves
     * to the following slide, wrapping around.
     */
    method Next()
      requires Valid() && Mode() == Slideshow
      modifies this
      ensures currentSlide == NextIndex(old(currentSlide), |photos|)
      ensures Valid()
    {
      currentSlide := (currentSlide + 1) % |photos|;
    }

    /** prevSlide: the left arrow moves to the preceding slide, wrapping around. */
    method Prev()
      requires Valid() && Mode() == Slideshow
      modifies this
      ensures currentSlide == PrevIndex(old(currentSlide), |photos|)
      ensures Valid()
    {
      currentSlide := (currentSlide - 1 + |photos|) % |photos|;
    }

    /** The photo the slideshow shows: localPhotos[currentSlide]. */
    function CurrentPhoto(): (p: string)
      reads this
      requires Valid() && Mode() == Slideshow
      ensures p in photos
    {
      photos[currentSlide]
    }

    /** The slide counter, "currentSlide + 1 / localPhotos.length". */
    function Counter(): (c: (nat, nat))
      reads this
      requires Valid() && Mode() == Slideshow
      ensures 1 <= c.0 <= c.1 && c.1 == |photos|
      ensures c.0 == currentSlide + 1 && photos[c.0 - 1] == CurrentPhoto()
    {
      (currentSlide + 1, |photos|)
    }
  }

  /** Pressing Next and then Prev leaves the card on the slide it started on. */
  method NextThenPrev(card: AlbumCard)
    requires card.Valid() && card.Mode() == Slideshow
    modifies card
    ensures card.currentSlide == old(card.currentSlide)
  {
    card.Next();
    card.Prev();
    NextPrevInverse(old(card.currentSlide), |card.photos|);
  }
}
