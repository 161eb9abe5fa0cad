/** The screen shows the frame upside down: frame row `y` is screen row `height - 1 - y`. */
module Flip {
  import opened Indexing
  import opened Sources

  /** The frame position shown at screen column `x` of screen row `r`. */
  function Position(x: nat, r: nat, width: nat, height: nat): nat
    requires r < height
  {
    Index(x, height - 1 - r, width)
  }

  /** Screen places and frame positions correspond one to one: each place shows an existing
      position, and each position is shown at exactly one place. */
  lemma FlipIsBijective(width: nat, height: nat)
    ensures forall x: nat, r: nat | x < width && r < height :: Position(x, r, width, height) < width * height
    ensures forall n: nat | n < width * height ::
              width > 0 && n / width < height && Position(n % width, height - 1 - n / width, width, height) == n
    ensures forall x: nat, r: nat, u: nat, s: nat
              | x < width && r < height && u < width && s < height
                && Position(x, r, width, height) == Position(u, s, width, height) :: x == u && r == s
  {
    forall x: nat, r: nat | x < width && r < height
      ensures Position(x, r, width, height) < width * height
    {
      InRange(x, height - 1 - r, width, height);
    }
    forall n: nat | n < width * height
      ensures width > 0 && n / width < height && Position(n % width, height - 1 - n / width, width, height) == n
    {
      RowInRange(n, width, height);
    }
    forall x: nat, r: nat, u: nat, s: nat
      | x < width && r < height && u < width && s < height
        && Position(x, r, width, height) == Position(u, s, width, height)
      ensures x == u && r == s
    {
      Injective(x, height - 1 - r, u, height - 1 - s, width);
    }
  }

  datatype Place = Place(x: nat, r: nat)

  /** The screen places that show a flagged position below `k`. */
  ghost function Marked(flags: seq<bool>, width: nat, height: nat, k: nat): set<Place>
    requires k <= |flags|
  {
    set x: nat, r: nat
      | x < width && r < height && Position(x, r, width, height) < k && flags[Position(x, r, width, height)]
      :: Place(x, r)
  }

  lemma OnePlace(width: nat, height: nat, n: nat, x: nat, r: nat)
    requires n < width * height && x < width && r < height
    ensures width > 0 && n / width < height
    ensures Position(x, r, width, height) == n <==> x == n % width && r == height - 1 - n / width
  {
    RowInRange(n, width, height);
    Unique(x, height - 1 - r, width, n);
  }

  lemma MarkedGrows(flags: seq<bool>, width: nat, height: nat, k: nat)
    requires |flags| == width * height && k < |flags|
    ensures width > 0 && k / width < height
    ensures var place := Place(k % width, height - 1 - k / width);
            && place !in Marked(flags, width, height, k)
            && Marked(flags, width, height, k + 1)
            == if flags[k] then Marked(flags, width, height, k) + {place} else Marked(flags, width, height, k)
  {
    RowInRange(k, width, height);
    var x, r := k % width, height - 1 - k / width;
    OnePlace(width, height, k, x, r);
    forall u: nat, s: nat | u < width && s < height
      ensures Position(u, s, width, height) == k <==> u == x && s == r
    {
      OnePlace(width, height, k, u, s);
    }
  }

  /** As many places are marked as positions are flagged. */
  lemma {:induction false} MarksAreCounted(flags: seq<bool>, width: nat, height: nat, k: nat)
    requires |flags| == width * height && k <= |flags|
    ensures |Marked(flags, width, height, k)| == Count(flags[..k])
  {
    if k == 0 {
      assert Marked(flags, width, height, 0) == {};
    } else {
      MarksAreCounted(flags, width, height, k - 1);
      MarkedGrows(flags, width, height, k - 1);
      assert flags[..k][..k - 1] == flags[..k - 1];
    }
  }
}
