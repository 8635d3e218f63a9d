/** Render buffers as the pipeline holds them in numpy: `H×W` planes and
    `H×W×3` images, row-major. */
module Buffers {
  import opened Wrappers

  /** The three components of one pixel: `(x, y, z)` for normals,
      `(r, g, b)` for colour. */
  datatype Triple<T> = Triple(x: T, y: T, z: T)

  /** An `H×W` array, row by row. */
  type Plane<T> = seq<seq<T>>

  /** An `H×W×3` array. */
  type Image3<T> = seq<seq<Triple<T>>>

  /** `g.shape == (height, width)` */
  predicate IsGrid<T>(g: seq<seq<T>>, height: int, width: int) {
    |g| == height && forall i :: 0 <= i < |g| ==> |g[i]| == width
  }

  /** Two arrays with the same shape, row for row. */
  predicate SameShape<S, T>(a: seq<seq<S>>, b: seq<seq<T>>) {
    |a| == |b| && forall i :: 0 <= i < |a| ==> |a[i]| == |b[i]|
  }

  /** Component `k` (0, 1 or 2) of a pixel. */
  function Component<T>(t: Triple<T>, k: nat): T
    requires k < 3
  {
    if k == 0 then t.x else if k == 1 then t.y else t.z
  }

  /** `img[..., k]`: one channel of an `H×W×3` image as an `H×W` plane. */
  function ChannelPlane<T>(img: Image3<T>, k: nat): (p: Plane<T>)
    requires k < 3
    ensures SameShape(p, img)
    ensures forall i, j :: 0 <= i < |img| && 0 <= j < |img[i]| ==> p[i][j] == Component(img[i][j], k)
  {
    seq(|img|, i requires 0 <= i < |img| =>
      seq(|img[i]|, j requires 0 <= j < |img[i]| => Component(img[i][j], k)))
  }

  /** `flat = g.reshape(-1)`: the rows of `g` one after another. */
  function Flatten<T>(g: seq<seq<T>>): seq<T> {
    if g == [] then [] else g[0] + Flatten(g[1..])
  }

  lemma MulNonNegative(a: int, b: int)
    requires a >= 0 && b >= 0
    ensures a * b >= 0
  {
  }

  /** One more row adds one row's worth of cells. */
  lemma RowStep(i: int, width: int)
    ensures i * width == width + (i - 1) * width
  {
  }

  /** In bounds, the row-major offset `i * width + j` of a cell of an
      `height×width` grid lies inside the flat buffer. */
  lemma RowMajorInBounds(i: int, j: int, height: int, width: int)
    requires 0 <= i < height && 0 <= j < width
    ensures 0 <= i * width + j < height * width
  {
    MulNonNegative(i, width);
    var d := height - (i + 1);
    MulNonNegative(d, width);
    assert height * width == (i + 1) * width + d * width;
    RowStep(i + 1, width);
  }

  /** A grid of `height` rows of `width` cells flattens to
      `height * width` values. */
  lemma {:induction false} FlattenLength<T>(g: seq<seq<T>>, height: nat, width: nat)
    requires IsGrid(g, height, width)
    ensures |Flatten(g)| == height * width
  {
    if g != [] {
      assert IsGrid(g[1..], height - 1, width);
      FlattenLength(g[1..], height - 1, width);
      RowStep(height, width);
    }
  }

  /** Cell `(i, j)` of a grid sits at offset `i * width + j` of its
      flattening. */
  lemma {:induction false} FlattenCell<T>(g: seq<seq<T>>, height: nat, width: nat, i: nat, j: nat)
    requires IsGrid(g, height, width)
    requires i < height && j < width
    ensures i * width + j < |Flatten(g)| && Flatten(g)[i * width + j] == g[i][j]
  {
    FlattenLength(g, height, width);
    RowMajorInBounds(i, j, height, width);
    var rest := g[1..];
    assert Flatten(g) == g[0] + Flatten(rest);
    if i > 0 {
      assert IsGrid(rest, height - 1, width);
      FlattenCell(rest, height - 1, width, i - 1, j);
      RowStep(i, width);
      assert rest[i - 1] == g[i];
    }
  }

  /** `flat[k] == v`, with `k` in bounds. */
  ghost predicate HoldsAt<T>(flat: seq<T>, k: int, v: T) {
    0 <= k < |flat| && flat[k] == v
  }

  /** Every cell of a grid sits at its row-major offset. */
  lemma FlattenIndex<T>(g: seq<seq<T>>, height: nat, width: nat)
    requires IsGrid(g, height, width)
    ensures |Flatten(g)| == height * width
    ensures forall i, j :: 0 <= i < height && 0 <= j < width ==> HoldsAt(Flatten(g), i * width + j, g[i][j])
  {
    FlattenLength(g, height, width);
    forall i, j | 0 <= i < height && 0 <= j < width
      ensures HoldsAt(Flatten(g), i * width + j, g[i][j])
    {
      FlattenCell(g, height, width, i, j);
    }
  }

  /** `np.asarray(flat).reshape((height, width))`: row `i` holds
      `flat[i * width .. (i + 1) * width]`. Any size mismatch is refused,
      and so is every negative dimension: numpy's `-1` wildcard is not
      modelled, since a data window never yields a negative dimension. */
  function Reshape<T>(flat: seq<T>, height: int, width: int): (r: Option<Plane<T>>)
    ensures r.Some? <==> 0 <= height && 0 <= width && |flat| == height * width
    ensures r.Some? ==> IsGrid(r.value, height, width)
    ensures r.Some? ==> forall i, j :: 0 <= i < height && 0 <= j < width ==> HoldsAt(flat, i * width + j, r.value[i][j])
  {
    if height < 0 || width < 0 || |flat| != height * width then None
    else
      Some(seq(height, i requires 0 <= i < height =>
        seq(width, j requires 0 <= j < width => Cell(flat, height, width, i, j))))
  }

  /** The value at row-major offset `i * width + j`. */
  function Cell<T>(flat: seq<T>, height: int, width: int, i: int, j: int): (v: T)
    requires |flat| == height * width
    requires 0 <= i < height && 0 <= j < width
    ensures HoldsAt(flat, i * width + j, v)
  {
    RowMajorInBounds(i, j, height, width);
    flat[i * width + j]
  }

  /** Reshaping the flattening of a grid gives the grid back. */
  lemma ReshapeFlatten<T>(g: seq<seq<T>>, height: nat, width: nat)
    requires IsGrid(g, height, width)
    ensures Reshape(Flatten(g), height, width) == Some(g)
  {
    FlattenIndex(g, height, width);
    var r := Reshape(Flatten(g), height, width).value;
    forall i | 0 <= i < height ensures r[i] == g[i] {
      assert |r[i]| == |g[i]| == width;
      forall j | 0 <= j < width ensures r[i][j] == g[i][j] {
        assert HoldsAt(Flatten(g), i * width + j, r[i][j]);
        assert HoldsAt(Flatten(g), i * width + j, g[i][j]);
      }
    }
    assert |r| == |g|;
    assert r == g;
  }

  /** Splitting an offset below `height * width` into row and column. */
  lemma SplitOffset(k: int, height: int, width: int) returns (i: int, j: int)
    requires 0 <= k < height * width && 0 < width
    ensures 0 <= i < height && 0 <= j < width && k == i * width + j
  {
    i, j := k / width, k % width;
    assert (height - i) * width == height * width - i * width;
    PositiveFactor(height - i, width);
    assert (i + 1) * width == i * width + width;
    PositiveFactor(i + 1, width);
  }

  lemma PositiveFactor(a: int, b: int)
    requires b > 0 && a * b > 0
    ensures a > 0
  {
  }

  /** Flattening a reshaped buffer gives the buffer back. */
  lemma FlattenReshape<T>(flat: seq<T>, height: int, width: int)
    requires Reshape(flat, height, width).Some?
    ensures Flatten(Reshape(flat, height, width).value) == flat
  {
    var g := Reshape(flat, height, width).value;
    FlattenIndex(g, height, width);
    var back := Flatten(g);
    assert |back| == |flat|;
    forall k | 0 <= k < |flat| ensures back[k] == flat[k] {
      var i, j := SplitOffset(k, height, width);
      assert HoldsAt(back, i * width + j, g[i][j]);
      assert HoldsAt(flat, i * width + j, g[i][j]);
    }
  }

  /** `np.stack([a, b, c], axis=-1)` of three planes of one shape. */
  function Stack3<T>(a: Plane<T>, b: Plane<T>, c: Plane<T>): (r: Image3<T>)
    requires SameShape(a, b) && SameShape(a, c)
    ensures SameShape(r, a)
    ensures forall i, j :: 0 <= i < |a| && 0 <= j < |a[i]| ==> r[i][j] == Triple(a[i][j], b[i][j], c[i][j])
  {
    seq(|a|, i requires 0 <= i < |a| =>
      seq(|a[i]|, j requires 0 <= j < |a[i]| => Triple(a[i][j], b[i][j], c[i][j])))
  }

  /** Channel `k` of a stack is the `k`-th plane stacked, in order. */
  lemma StackChannels<T>(a: Plane<T>, b: Plane<T>, c: Plane<T>)
    requires SameShape(a, b) && SameShape(a, c)
    ensures ChannelPlane(Stack3(a, b, c), 0) == a
    ensures ChannelPlane(Stack3(a, b, c), 1) == b
    ensures ChannelPlane(Stack3(a, b, c), 2) == c
  {
    var r := Stack3(a, b, c);
    forall i | 0 <= i < |a|
      ensures ChannelPlane(r, 0)[i] == a[i]
      ensures ChannelPlane(r, 1)[i] == b[i]
      ensures ChannelPlane(r, 2)[i] == c[i]
    {
    }
  }

  /** Stacking the three channels of an image rebuilds it. */
  lemma ChannelsStack<T>(img: Image3<T>)
    ensures Stack3(ChannelPlane(img, 0), ChannelPlane(img, 1), ChannelPlane(img, 2)) == img
  {
    var r := Stack3(ChannelPlane(img, 0), ChannelPlane(img, 1), ChannelPlane(img, 2));
    forall i | 0 <= i < |img| ensures r[i] == img[i] {
    }
  }
}
