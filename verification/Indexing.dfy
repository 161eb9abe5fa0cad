/** Row-major positions in a flat buffer. */
module Indexing {

  /** Column `x` of row `y` in rows of `width` entries. */
  function Index(x: nat, y: nat, width: nat): nat {
    y * width + x
  }

  lemma InRange(x: nat, y: nat, width: nat, height: nat)
    requires x < width && y < height
    ensures Index(x, y, width) < width * height
  {
    RowsApart(height, y, width);
  }

  lemma {:induction false} AtLeastOne(k: nat, c: nat)
    requires k > 0
    ensures k * c >= c
  {
    if k > 1 {
      AtLeastOne(k - 1, c);
      assert k * c == (k - 1) * c + c;
    }
  }

  /** Two rows are at least one width apart. */
  lemma RowsApart(p: nat, q: nat, width: nat)
    ensures p > q ==> p * width >= q * width + width
    ensures q > p ==> q * width >= p * width + width
  {
    if p > q {
      AtLeastOne(p - q, width);
      assert (p - q) * width == p * width - q * width;
    } else if q > p {
      AtLeastOne(q - p, width);
      assert (q - p) * width == q * width - p * width;
    }
  }

  /** Position and (column, row) determine each other. */
  lemma Unique(x: nat, y: nat, width: nat, n: nat)
    requires x < width
    ensures n == Index(x, y, width) <==> n % width == x && n / width == y
  {
    assert n == n / width * width + n % width;
    RowsApart(n / width, y, width);
  }

  lemma RowInRange(n: nat, width: nat, height: nat)
    requires n < width * height
    ensures width > 0 && n % width < width && n / width < height
  {
    assert width > 0;
    RowsApart(height, n / width, width);
    RowsApart(n / width, height, width);
    assert n == n / width * width + n % width;
  }

  lemma Injective(x: nat, y: nat, u: nat, v: nat, width: nat)
    requires x < width && u < width
    ensures Index(x, y, width) == Index(u, v, width) <==> x == u && y == v
  {
    RowsApart(y, v, width);
  }
}
