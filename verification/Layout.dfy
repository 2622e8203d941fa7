/** Rectangular text blocks: joining with gaps, padding, and where a block appears inside another.

    Joining is the same operation for the cells of a row (with a wire or blanks between them) and for
    the paths of a branch (with a separator row between them). */
module Layout {
  import opened Numbers

  type Block = seq<string>

  function Repeat(c: char, n: nat): (s: string)
    ensures |s| == n
  {
    seq(n, _ => c)
  }

  function PadEnd(s: string, width: nat): (r: string)
    ensures |r| == Max(|s|, width) && r[..|s|] == s
  {
    if |s| >= width then s else s + Repeat(' ', width - |s|)
  }

  /** The length of the longest of the first n rows. */
  function WidthTo(b: Block, n: nat): nat
    requires n <= |b|
  {
    if n == 0 then 0 else Max(WidthTo(b, n - 1), |b[n - 1]|)
  }

  function Width(b: Block): nat {
    WidthTo(b, |b|)
  }

  predicate Rectangular(b: Block, w: nat) {
    |b| >= 1 && forall r :: 0 <= r < |b| ==> |b[r]| == w
  }

  lemma {:induction false} WidthBounds(b: Block, n: nat, r: nat)
    requires r < n <= |b|
    ensures |b[r]| <= WidthTo(b, n)
  {
    if r < n - 1 {
      WidthBounds(b, n - 1, r);
    }
  }

  lemma {:induction false} RectangularWidth(b: Block, n: nat, w: nat)
    requires Rectangular(b, w) && 0 < n <= |b|
    ensures WidthTo(b, n) == w
  {
    if n > 1 {
      RectangularWidth(b, n - 1, w);
    }
  }

  // ----- joining -----

  /** The first n parts with gaps between them. */
  function JoinTo<T>(parts: seq<seq<T>>, gap: seq<T>, n: nat): seq<T>
    requires n <= |parts|
  {
    if n == 0 then [] else if n == 1 then parts[0] else JoinTo(parts, gap, n - 1) + gap + parts[n - 1]
  }

  function Join<T>(parts: seq<seq<T>>, gap: seq<T>): seq<T> {
    JoinTo(parts, gap, |parts|)
  }

  /** Where part k starts when parts are joined with gaps of length g. */
  function Start<T>(parts: seq<seq<T>>, g: nat, k: nat): nat
    requires k <= |parts|
  {
    if k == 0 then 0 else Start(parts, g, k - 1) + |parts[k - 1]| + g
  }

  lemma {:induction false} StartAgrees<T, U>(a: seq<seq<T>>, b: seq<seq<U>>, g: nat, k: nat)
    requires k <= |a| == |b| && forall i :: 0 <= i < |a| ==> |a[i]| == |b[i]|
    ensures Start(a, g, k) == Start(b, g, k)
  {
    if k > 0 {
      StartAgrees(a, b, g, k - 1);
    }
  }

  /** Parts are laid out one after another: part k and a gap come before any later part. */
  lemma {:induction false} StartsApart<T>(parts: seq<seq<T>>, g: nat, k: nat, j: nat)
    requires k < j <= |parts|
    ensures Start(parts, g, k) + |parts[k]| + g <= Start(parts, g, j)
  {
    if k < j - 1 {
      StartsApart(parts, g, k, j - 1);
    }
  }

  /** The joined length: all parts and one gap for every part after the first. */
  lemma {:induction false} JoinLength<T>(parts: seq<seq<T>>, gap: seq<T>, n: nat)
    requires 0 < n <= |parts|
    ensures |JoinTo(parts, gap, n)| + |gap| == Start(parts, |gap|, n)
  {
    if n > 1 {
      JoinLength(parts, gap, n - 1);
    }
  }

  /** Part k lies within the join. */
  lemma JoinHolds<T>(parts: seq<seq<T>>, gap: seq<T>, k: nat)
    requires k < |parts|
    ensures Start(parts, |gap|, k) + |parts[k]| <= |Join(parts, gap)|
  {
    JoinLength(parts, gap, |parts|);
    StartsApart(parts, |gap|, k, |parts|);
  }

  /** Part k is found at its start. */
  lemma {:induction false} JoinShows<T>(parts: seq<seq<T>>, gap: seq<T>, n: nat, k: nat, i: nat)
    requires k < n <= |parts| && i < |parts[k]|
    ensures Start(parts, |gap|, k) + i < |JoinTo(parts, gap, n)|
    ensures JoinTo(parts, gap, n)[Start(parts, |gap|, k) + i] == parts[k][i]
  {
    if n > 1 {
      JoinLength(parts, gap, n - 1);
      if k < n - 1 {
        JoinShows(parts, gap, n - 1, k, i);
      }
    }
  }

  /** The gap is found just before the start of every part after the first. */
  lemma {:induction false} JoinShowsGap<T>(parts: seq<seq<T>>, gap: seq<T>, n: nat, k: nat, i: nat)
    requires 0 < k < n <= |parts| && i < |gap|
    ensures 0 <= Start(parts, |gap|, k) - |gap| + i < |JoinTo(parts, gap, n)|
    ensures JoinTo(parts, gap, n)[Start(parts, |gap|, k) - |gap| + i] == gap[i]
  {
    JoinLength(parts, gap, n - 1);
    if k < n - 1 {
      JoinShowsGap(parts, gap, n - 1, k, i);
    }
  }

  // ----- blocks inside blocks -----

  /** Every row of the block is found, whole, at the given row and column. */
  ghost predicate Appears(b: Block, inside: Block, row: nat, col: nat) {
    row + |b| <= |inside| && forall r :: 0 <= r < |b| ==> RowAppears(b[r], inside[row + r], col)
  }

  ghost predicate RowAppears(text: string, line: string, col: nat) {
    col + |text| <= |line| && forall i :: 0 <= i < |text| ==> text[i] == line[col + i]
  }

  lemma RowTransitive(a: string, b: string, c: string, col: nat, col': nat, y: nat)
    requires RowAppears(a, b, col) && RowAppears(b, c, col') && y == col + col'
    ensures RowAppears(a, c, y)
  {
    forall i | 0 <= i < |a| ensures a[i] == c[y + i] {
      assert b[col + i] == c[col' + (col + i)];
    }
  }

  lemma AppearsTransitive(a: Block, b: Block, c: Block, row: nat, col: nat, row': nat, col': nat, x: nat, y: nat)
    requires Appears(a, b, row, col) && Appears(b, c, row', col') && x == row + row' && y == col + col'
    ensures Appears(a, c, x, y)
  {
    forall r | 0 <= r < |a| ensures RowAppears(a[r], c[x + r], y) {
      RowTransitive(a[r], b[row + r], c[row' + (row + r)], col, col', y);
    }
  }
}
