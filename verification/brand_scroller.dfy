/** The brand ticker: the brand list is repeated twenty times in one row that
    scrolls left by half its width and starts over. */
module BrandScroller {
  import opened Common

  datatype Brand = Brand(name: string, logo: string)

  const Copies := 20

  /** `Array(k).fill(xs).flat()`: `k` copies of `xs`, one after another. */
  function Repeat<T>(xs: seq<T>, k: nat): (r: seq<T>)
    ensures |r| == k * |xs|
  {
    if k == 0 then [] else Repeat(xs, k - 1) + xs
  }

  /** Repeating `a` times and then `b` times is repeating `a + b` times. */
  lemma {:induction false} RepeatAdd<T>(xs: seq<T>, a: nat, b: nat)
    ensures Repeat(xs, a + b) == Repeat(xs, a) + Repeat(xs, b)
    decreases b
  {
    if b > 0 {
      RepeatAdd(xs, a, b - 1);
      assert Repeat(xs, a + b) == Repeat(xs, a + (b - 1)) + xs;
    }
  }

  /** Copy `m` of the row occupies positions `m * n` up to `(m + 1) * n`. */
  lemma {:induction false} RepeatBlock<T>(xs: seq<T>, k: nat, m: nat, j: nat)
    requires m < k && j < |xs|
    ensures m * |xs| + j < k * |xs|
    ensures Repeat(xs, k)[m * |xs| + j] == xs[j]
  {
    var n := |xs|;
    var prefix := Repeat(xs, k - 1);
    assert Repeat(xs, k) == prefix + xs;
    assert |prefix| == (k - 1) * n;
    assert k * n == (k - 1) * n + n;
    if m == k - 1 {
      assert (prefix + xs)[|prefix| + j] == xs[j];
    } else {
      RepeatBlock(xs, k - 1, m, j);
      assert (prefix + xs)[m * n + j] == prefix[m * n + j];
    }
  }

  /** Position `i` of the row shows brand `i mod n`. */
  lemma RepeatAt<T>(xs: seq<T>, k: nat, i: nat)
    requires i < k * |xs|
    ensures |xs| > 0 && Repeat(xs, k)[i] == xs[i % |xs|]
  {
    var n := |xs|;
    var m := i / n;
    var j := i % n;
    assert i == m * n + j;
    if m >= k {
      assert false;
    }
    RepeatBlock(xs, k, m, j);
  }

  /** The two halves of the row are identical, so a scroll by half the
      width lands on the same picture and the loop shows no seam. */
  lemma HalvesAgree(brands: seq<Brand>)
    ensures var row := Repeat(brands, Copies);
      row[..10 * |brands|] == Repeat(brands, 10) && row[10 * |brands|..] == Repeat(brands, 10)
  {
    RepeatAdd(brands, 10, 10);
  }

  /** The section after `GET /brands`; a failure leaves the list empty. */
  function Mount(resp: Response<seq<Brand>>): (brands: seq<Brand>)
    ensures resp.Ok? ==> brands == resp.data
    ensures resp.Err? ==> brands == []
  {
    if resp.Ok? then resp.data else []
  }

  /** Nothing renders without brands; otherwise the twenty-fold row. */
  function Render(brands: seq<Brand>): (row: Option<seq<Brand>>)
    ensures row.None? <==> brands == []
    ensures row.Some? ==> row.value == Repeat(brands, Copies)
  {
    if brands == [] then None else Some(Repeat(brands, Copies))
  }
}
