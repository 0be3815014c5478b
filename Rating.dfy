/** The star rating: a score out of 10 shown as five star slots, each full,
    half or empty. The component builds a five-slot array, fills a prefix with
    full stars in place and may overwrite one slot with a half star. */
module Rating {
  import opened JsMath

  datatype Star = StarEmpty | StarHalf | StarFull

  function Repeat(value: Star, n: nat): (r: seq<Star>)
    ensures |r| == n && forall i :: 0 <= i < n ==> r[i] == value
  {
    seq(n, _ => value)
  }

  function Min(a: int, b: int): int {
    if a < b then a else b
  }

  /** Number of full stars shown for a rounded score: half of it, at most five. */
  function FullStars(rounded: nat): nat {
    Min(rounded / 2, 5)
  }

  /** Whether a half star is shown: the rounded score is odd and the full stars
      leave a slot for it. */
  predicate ShowsHalfStar(rounded: nat) {
    rounded % 2 == 1 && rounded / 2 < 5
  }

  /** What the five slots show, left to right: the full stars, then the half
      star if there is one, then empty stars. */
  function StarLayout(rounded: nat): (r: seq<Star>)
  {
    var half := if ShowsHalfStar(rounded) then 1 else 0;
    Repeat(StarFull, FullStars(rounded))
      + Repeat(StarHalf, half)
      + Repeat(StarEmpty, 5 - FullStars(rounded) - half)
  }

  /** `halfStarCount`: `floor(r / 2) - ceil(r / 2)` for the rounded score r,
      which is 0 or −1 and never positive; it is non-zero exactly for an odd
      score. */
  function HalfStarCount(rounded: int): (h: int)
    ensures h == 0 || h == -1
    ensures h != 0 <==> rounded % 2 == 1
  {
    rounded / 2 - (rounded + 1) / 2
  }

  /** The index `Array.prototype.fill` derives from a start or end argument:
      negative values count from the end, and the result is clamped to
      [0, length]. */
  function RelativeIndex(k: int, length: nat): (r: nat)
    ensures r <= length
    ensures 0 <= k <= length ==> r == k
    ensures k > length ==> r == length
    ensures k < 0 ==> r == if length + k > 0 then length + k else 0
  {
    if k < 0 then (if length + k > 0 then length + k else 0)
    else if k < length then k else length
  }

  /** `a.fill(value, start, end)`: every slot in the clamped range is set to
      `value` and every other slot keeps its value. */
  method Fill(a: array<Star>, value: Star, start: int, end: int)
    modifies a
    ensures forall i :: 0 <= i < a.Length ==>
              a[i] == if RelativeIndex(start, a.Length) <= i < RelativeIndex(end, a.Length)
                      then value else old(a[i])
  {
    var first := RelativeIndex(start, a.Length);
    var last := RelativeIndex(end, a.Length);
    var k := first;
    while k < last
      invariant first <= k <= a.Length
      invariant first <= last ==> k <= last
      invariant last < first ==> k == first
      invariant forall i :: 0 <= i < a.Length ==>
                  a[i] == if first <= i < k then value else old(a[i])
    {
      a[k] := value;
      k := k + 1;
    }
  }

  /** What the five slots show for a negative rounded score r: `fill` reads
      the negative end `floor(r / 2)` from the end of the array, so all but
      the last |floor(r / 2)| slots are full; the half star would go to a
      negative index, which is not a slot. */
  function NegativeLayout(rounded: int): (r: seq<Star>)
    requires rounded < 0
  {
    var full := RelativeIndex(rounded / 2, 5);
    Repeat(StarFull, full) + Repeat(StarEmpty, 5 - full)
  }

  /** What `StarLayout` shows in slot `i`. */
  lemma StarAt(rounded: nat, i: nat)
    requires i < 5
    ensures |StarLayout(rounded)| == 5
    ensures StarLayout(rounded)[i] ==
              if i < FullStars(rounded) then StarFull
              else if i == rounded / 2 && rounded % 2 == 1 then StarHalf
              else StarEmpty
  {
  }

  /** What `NegativeLayout` shows in slot `i`. */
  lemma StarAtNegative(rounded: int, i: nat)
    requires rounded < 0 && i < 5
    ensures |NegativeLayout(rounded)| == 5
    ensures NegativeLayout(rounded)[i] == if i < RelativeIndex(rounded / 2, 5) then StarFull else StarEmpty
  {
  }

  /** The `Rating` component: the five slots it renders, from
      `Math.round(rating)`. */
  method RatingStars(rating: real) returns (stars: array<Star>)
    ensures fresh(stars)
    ensures Round(rating) >= 0 ==> stars[..] == StarLayout(Round(rating))
    ensures Round(rating) < 0 ==> stars[..] == NegativeLayout(Round(rating))
  {
    var rounded := Round(rating);
    var fullStarCount := rounded / 2;
    var halfStarCount := HalfStarCount(rounded);

    stars := new Star[5];
    Fill(stars, StarEmpty, 0, 5);
    Fill(stars, StarFull, 0, fullStarCount);

    // In the source an index of 5 or more grows the array past the five
    // slots that are rendered, and a negative index sets a property that is
    // not a slot; only the rendered slots are modelled.
    if halfStarCount != 0 && 0 <= fullStarCount < stars.Length {
      stars[fullStarCount] := StarHalf;
    }

    if rounded >= 0 {
      forall i | 0 <= i < 5
        ensures stars[i] == StarLayout(rounded)[i]
      {
        StarAt(rounded, i);
      }
    } else {
      forall i | 0 <= i < 5
        ensures stars[i] == NegativeLayout(rounded)[i]
      {
        StarAtNegative(rounded, i);
      }
    }
  }

  /** Number of occurrences of `value` in `s`. */
  function Count(s: seq<Star>, value: Star): nat {
    if s == [] then 0 else (if s[0] == value then 1 else 0) + Count(s[1..], value)
  }

  lemma {:induction false} CountConcat(a: seq<Star>, b: seq<Star>, value: Star)
    ensures Count(a + b, value) == Count(a, value) + Count(b, value)
  {
    if a == [] {
      assert a + b == b;
    } else {
      assert (a + b)[1..] == a[1..] + b;
      CountConcat(a[1..], b, value);
    }
  }

  lemma {:induction false} CountRepeat(v: Star, n: nat, value: Star)
    ensures Count(Repeat(v, n), value) == if v == value then n else 0
  {
    if n > 0 {
      assert Repeat(v, n)[1..] == Repeat(v, n - 1);
      CountRepeat(v, n - 1, value);
    }
  }

  /** Exactly five slots: min(round(r) / 2, 5) full stars, one half star exactly
      when the rounded score is odd and below 10, and the rest empty. */
  lemma StarCounts(rounded: nat)
    ensures |StarLayout(rounded)| == 5
    ensures Count(StarLayout(rounded), StarFull) == Min(rounded / 2, 5)
    ensures Count(StarLayout(rounded), StarHalf) == if rounded % 2 == 1 && rounded < 10 then 1 else 0
    ensures Count(StarLayout(rounded), StarEmpty)
            == 5 - Count(StarLayout(rounded), StarFull) - Count(StarLayout(rounded), StarHalf)
  {
    var half := if ShowsHalfStar(rounded) then 1 else 0;
    var full := Repeat(StarFull, FullStars(rounded));
    var halves := Repeat(StarHalf, half);
    var empties := Repeat(StarEmpty, 5 - FullStars(rounded) - half);
    forall value: Star
      ensures Count(StarLayout(rounded), value) == Count(full, value) + Count(halves, value) + Count(empties, value)
    {
      CountConcat(full + halves, empties, value);
      CountConcat(full, halves, value);
    }
    CountRepeat(StarFull, FullStars(rounded), StarFull);
    CountRepeat(StarHalf, half, StarFull);
    CountRepeat(StarEmpty, 5 - FullStars(rounded) - half, StarFull);
    CountRepeat(StarFull, FullStars(rounded), StarHalf);
    CountRepeat(StarHalf, half, StarHalf);
    CountRepeat(StarEmpty, 5 - FullStars(rounded) - half, StarHalf);
    CountRepeat(StarFull, FullStars(rounded), StarEmpty);
    CountRepeat(StarHalf, half, StarEmpty);
    CountRepeat(StarEmpty, 5 - FullStars(rounded) - half, StarEmpty);
  }

  /** A score of 0 shows five empty stars; a rounded score of 10 or more shows
      five full stars; a score of −1 shows four full stars. */
  lemma EdgeRatings(rounded: nat)
    ensures StarLayout(0) == [StarEmpty, StarEmpty, StarEmpty, StarEmpty, StarEmpty]
    ensures rounded >= 10 ==> StarLayout(rounded) == [StarFull, StarFull, StarFull, StarFull, StarFull]
    ensures NegativeLayout(-1) == [StarFull, StarFull, StarFull, StarFull, StarEmpty]
  {
    assert NegativeLayout(-1) == Repeat(StarFull, 4) + Repeat(StarEmpty, 1);
    assert StarLayout(0) == Repeat(StarEmpty, 5);
    if rounded >= 10 {
      assert StarLayout(rounded) == Repeat(StarFull, 5);
    }
  }
}
