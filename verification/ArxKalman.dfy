// The regressor matrix and the parameter layout that utils/GPC.c uses to identify an ARX model with a Kalman filter
// (UpdateC_ARX, x2theta and system_h), and why they describe the same model as theta and phi.
module ArxKalman {
  import opened Sums
  import opened LinearAlgebra
  import opened MatrixLibrary
  import opened BlockMatrices
  import opened Windows

  /** A sample in the columns of parameter row i, and zeros in those of the p - 1 other rows. */
  ghost function Expand(p: nat, i: int, s: seq<real>): seq<real>
    requires 0 <= i
  {
    seq(|s| * p, q requires 0 <= q < |s| * p => if |s| * i <= q < |s| * i + |s| then s[q - |s| * i] else 0.0)
  }

  ghost function Expanded(p: nat, i: int, history: seq<seq<real>>): seq<seq<real>>
    requires 0 <= i
  {
    seq(|history|, t requires 0 <= t < |history| => Expand(p, i, history[t]))
  }

  ghost predicate AllOf(w: nat, history: seq<seq<real>>) {
    forall t :: 0 <= t < |history| ==> |history[t]| == w
  }

  lemma ExpandedNext(p: nat, i: int, history: seq<seq<real>>, s: seq<real>)
    requires 0 <= i
    ensures Expanded(p, i, history + [s]) == Expanded(p, i, history) + [Expand(p, i, s)]
  {
  }

  /** Component c of block l of an expanded sample. */
  lemma PastExpanded(p: nat, i: int, w: nat, history: seq<seq<real>>, k: int, l: int, c: int)
    requires 0 <= i < p && AllOf(w, history) && 0 <= l < p && 0 <= c < w && 0 <= k
    ensures Past(Expanded(p, i, history), k, Blk(w, l, c)) == if l == i then Past(history, k, c) else 0.0
  {
    BlkRange(w, p, l, c);
    if k < |history| {
      var t := |history| - 1 - k;
      assert |history[t]| == w;
      assert Expanded(p, i, history)[t] == Expand(p, i, history[t]);
      if w * i <= Blk(w, l, c) < w * i + w {
        BlkInjective(w, l, c, i);
      }
    }
  }

  /** Outside its own columns the newest slot of a row is zero. */
  lemma NewestOffDiagonal(v: seq<real>, base: int, w: nat, p: nat, i: int, count: int, history: seq<seq<real>>, q: int)
    requires 0 <= i < p && count >= 1 && AllOf(w, history)
    requires Holds(v, base, w * p, count, Expanded(p, i, history))
    requires 0 <= q < w * p && !(w * i <= q < w * i + w)
    ensures 0 <= base + q < |v| && v[base + q] == 0.0
  {
    assert SlotHolds(v, base, w * p, Expanded(p, i, history), 0, q);
    assert Slot(base, w * p, 0, q) == base + q;
    if |history| > 0 {
      var t := |history| - 1;
      assert |history[t]| == w && Expanded(p, i, history)[t] == Expand(p, i, history[t]);
    }
  }

  /** One row before and after the update of the window at base; q and size are the widths of a slot and of the
      window. */
  lemma RowShifts(v: seq<real>, v': seq<real>, base: nat, w: nat, p: nat, i: int, first: int, q: nat, count: int,
                  size: nat, history: seq<seq<real>>, s: seq<real>)
    requires 0 <= i < p && count >= 1 && AllOf(w, history) && |s| == w && q == w * p && size == q * count &&
             first == w * i
    requires |v'| == |v| && base + size <= |v| && Holds(v, base, q, count, Expanded(p, i, history))
    requires forall c :: base <= c < base + q && c < |v| ==>
      v'[c] == if base + first <= c < base + first + w then s[c - (base + first)] else v[c]
    requires forall c :: base + q <= c < base + size ==> v'[c] == v[c - q]
    ensures Holds(v', base, q, count, Expanded(p, i, history + [s]))
  {
    var x := Expand(p, i, s);
    FirstSlotFits(q, count, size);
    forall c | base <= c < base + q
      ensures v'[c] == x[c - base]
    {
      var r := c - base;
      if !(first <= r < first + w) {
        NewestOffDiagonal(v, base, w, p, i, count, history, r);
      }
    }
    assert Shifted(v, v', base, q, count, x);
    ShiftKeepsWindow(v, v', base, q, count, x, Expanded(p, i, history));
    ExpandedNext(p, i, history, s);
  }

  class SysEq {
    const n: nat
    const p: nat
    const m: nat
    const C: array2<real>
    const Cy: array2<real>
    const Cu: array2<real>

    // the widths of one slot and of the whole window, for the outputs and for the inputs
    const qy: nat
    const qu: nat
    const ny: nat
    const nu: nat

    ghost predicate Layout() {
      n >= 1 && qy == p * p && qu == m * p && ny == qy * n && nu == qu * n
    }

    ghost predicate Valid() {
      && C != Cy && C != Cu && Cy != Cu && C.Length0 == Cy.Length0 == Cu.Length0 == p
      && qy <= ny && qu <= nu && C.Length1 == ny + nu && Cy.Length1 == ny - qy && Cu.Length1 == nu - qu
    }

    /** Row i of C_ARX. */
    ghost function RowOf(i: int): (v: seq<real>)
      requires 0 <= i < C.Length0
      reads C
      ensures |v| == C.Length1 && forall q :: 0 <= q < |v| ==> v[q] == C[i, q]
    {
      seq(C.Length1, q requires 0 <= q < C.Length1 reads C => C[i, q])
    }

    /** Row i holds the last n outputs in the columns of parameter row i, and the last n inputs likewise. */
    ghost predicate RowHolds(i: int, ys: seq<seq<real>>, us: seq<seq<real>>)
      requires Valid() && 0 <= i < p
      reads C
    {
      Holds(RowOf(i), 0, qy, n, Expanded(p, i, ys)) && Holds(RowOf(i), ny, qu, n, Expanded(p, i, us))
    }

    constructor (n: nat, p: nat, m: nat)
      requires n >= 1
      ensures Layout() && Valid() && fresh(C) && fresh(Cy) && fresh(Cu) && this.n == n && this.p == p && this.m == m
      ensures forall i :: 0 <= i < p ==> RowHolds(i, [], [])
    {
      Sizes(p * p, n);
      Sizes(m * p, n);
      this.n, this.p, this.m := n, p, m;
      qy, qu, ny, nu := p * p, m * p, p * p * n, m * p * n;
      C := new real[p, p * p * n + m * p * n]((i, j) => 0.0);
      Cy := new real[p, p * p * n - p * p]((i, j) => 0.0);
      Cu := new real[p, m * p * n - m * p]((i, j) => 0.0);
      new;
      forall i | 0 <= i < p
        ensures RowHolds(i, [], [])
      {
        EmptyWindow(RowOf(i), 0, qy, n);
        EmptyWindow(RowOf(i), ny, qu, n);
      }
    }

    static lemma Sizes(q: nat, n: nat)
      requires n >= 1
      ensures q <= q * n
    {
    }

    /** The blocks of both windows move up by one. */
    method ShiftBlocks()
      requires Valid()
      modifies C, Cy, Cu
      ensures forall r, q :: 0 <= r < p && qy <= q < ny ==> C[r, q] == old(C[r, q - qy])
      ensures forall r, q :: 0 <= r < p && ny + qu <= q < ny + nu ==> C[r, q] == old(C[r, q - qu])
      ensures forall r, q :: 0 <= r < p && (0 <= q < qy || ny <= q < ny + qu) ==> C[r, q] == old(C[r, q])
    {
      MoveColumns(C, Cy, 0, qy);
      MoveColumns(C, Cu, ny, ny + qu);
    }

    /** The loops that store the samples in the first blocks. */
    method StoreSamples(y: array<real>, u: array<real>)
      requires Layout() && Valid() && y.Length == p && u.Length == m
      modifies C
      ensures forall r, q :: 0 <= r < p && 0 <= q < ny + nu ==>
        C[r, q] == Stored(Offset(p, r), y[..], ny + Offset(m, r), u[..], q, old(C[r, q]))
    {
      for i := 0 to p
        invariant forall r, q :: i <= r < p && 0 <= q < ny + nu ==> C[r, q] == old(C[r, q])
        invariant forall r, q :: 0 <= r < i && 0 <= q < ny + nu ==>
          C[r, q] == Stored(Offset(p, r), y[..], ny + Offset(m, r), u[..], q, old(C[r, q]))
      {
        BlockFits(p, p, i);
        BlockFits(m, p, i);
        var iy, iu := Offset(p, i), Offset(m, i);
        hide Offset;
        StoreInRow(C, i, iy, y);
        StoreInRow(C, i, ny + iu, u);
      }
    }

    /** UpdateC_ARX: every row takes in the new samples. */
    method UpdateC(y: array<real>, u: array<real>, ghost ys: seq<seq<real>>, ghost us: seq<seq<real>>)
      requires Layout() && Valid() && y.Length == p && u.Length == m && AllOf(p, ys) && AllOf(m, us)
      requires forall i :: 0 <= i < p ==> RowHolds(i, ys, us)
      modifies C, Cy, Cu
      ensures forall i :: 0 <= i < p ==> RowHolds(i, ys + [y[..]], us + [u[..]])
    {
      hide Holds, AllOf, Expanded, Stored, Layout;
      ghost var y0, u0 := y[..], u[..];
      ShiftBlocks();
      StoreSamples(y, u);
      forall i | 0 <= i < p
        ensures RowHolds(i, ys + [y0], us + [u0])
      {
        assert old(RowHolds(i, ys, us));
        RowTakesIn(old(RowOf(i)), RowOf(i), i, y0, u0, ys, us);
      }
    }

    /** Entry q of row v with the blocks of both windows moved up by one. */
    ghost function Moved(v: seq<real>, q: int): real
      requires Valid() && |v| == ny + nu && 0 <= q < |v|
    {
      if qy <= q < ny then v[q - qy] else if ny + qu <= q then v[q - qu] else v[q]
    }

    lemma RowTakesIn(v: seq<real>, v': seq<real>, i: int, y: seq<real>, u: seq<real>, ys: seq<seq<real>>,
                     us: seq<seq<real>>)
      requires Layout() && Valid() && 0 <= i < p && |v| == |v'| == ny + nu && |y| == p && |u| == m && AllOf(p, ys) &&
               AllOf(m, us)
      requires Holds(v, 0, qy, n, Expanded(p, i, ys)) && Holds(v, ny, qu, n, Expanded(p, i, us))
      requires forall q :: 0 <= q < |v| ==> v'[q] == Stored(Offset(p, i), y, ny + Offset(m, i), u, q, Moved(v, q))
      ensures Holds(v', 0, qy, n, Expanded(p, i, ys + [y])) && Holds(v', ny, qu, n, Expanded(p, i, us + [u]))
    {
      hide Holds, AllOf, Expanded;
      BlockFits(p, p, i);
      BlockFits(m, p, i);
      RowShifts(v, v', 0, p, p, i, Offset(p, i), qy, n, ny, ys, y);
      RowShifts(v, v', ny, m, p, i, Offset(m, i), qu, n, nu, us, u);
    }
  }

  function Offset(w: nat, i: int): int {
    w * i
  }

  /** Entry q of a row with y stored from b on and u from c on. */
  ghost function Stored(b: int, y: seq<real>, c: int, u: seq<real>, q: int, before: real): real {
    if c <= q < c + |u| then u[q - c] else if b <= q < b + |y| then y[q - b] else before
  }

  /** The block of columns at `from`, as wide as the scratch matrix, is written again at `to`. */
  method MoveColumns(C: array2<real>, scratch: array2<real>, from: nat, to: nat)
    requires C != scratch && C.Length0 == scratch.Length0
    requires from + scratch.Length1 <= C.Length1 && to + scratch.Length1 <= C.Length1
    modifies C, scratch
    ensures forall r, q :: 0 <= r < C.Length0 && 0 <= q < C.Length1 ==>
      C[r, q] == if to <= q < to + scratch.Length1 then old(C[r, q - to + from]) else old(C[r, q])
  {
    SubMatrixExtract(C, scratch, 0, from);
    SubMatrixInsert(C, scratch, 0, to);
  }

  method StoreInRow(C: array2<real>, i: nat, base: nat, s: array<real>)
    requires i < C.Length0 && base + s.Length <= C.Length1
    modifies C
    ensures forall r, q :: 0 <= r < C.Length0 && 0 <= q < C.Length1 ==>
      C[r, q] == if r == i && base <= q < base + s.Length then s[q - base] else old(C[r, q])
  {
    for j := 0 to s.Length
      invariant forall r, q :: 0 <= r < C.Length0 && 0 <= q < C.Length1 ==>
        C[r, q] == if r == i && base <= q < base + j then s[q - base] else old(C[r, q])
    {
      C[i, base + j] := s[j];
    }
  }

  // ----- the parameters as a vector and as a matrix

  /** Component i of block k of the parameter vector, for a window at B there and at b in theta. */
  ghost predicate Copied(T: Mat, x: Vec, b: int, B: int, w: int, p: int, k: int, i: int) {
    forall j :: 0 <= j < w ==> CopiedAt(T, x, b, B, w, p, k, i, j)
  }

  ghost predicate CopiedAt(T: Mat, x: Vec, b: int, B: int, w: int, p: int, k: int, i: int, j: int) {
    T(i, b + Blk(w, k, j)) == x(B + Blk(w * p, k, Blk(w, i, j)))
  }

  /** What has been copied when the loops have reached block k1 and row i1. */
  ghost predicate CopiedBefore(T: Mat, x: Vec, b: int, B: int, w: int, p: int, n: int, k1: int, i1: int) {
    forall k, i :: 0 <= k < n && 0 <= i < p && (k < k1 || (k == k1 && i < i1)) ==> Copied(T, x, b, B, w, p, k, i)
  }

  /** T' is T but for w entries of row i from column c on. */
  ghost predicate RowChanged(rows: int, columns: int, T: Mat, T': Mat, i: int, c: int, w: int) {
    forall r, q :: 0 <= r < rows && 0 <= q < columns && !(r == i && c <= q < c + w) ==> T'(r, q) == T(r, q)
  }

  lemma CopiedNext(columns: int, T: Mat, T': Mat, x: Vec, b: int, B: int, w: nat, p: nat, n: nat, k1: int, i1: int)
    requires 0 <= k1 < n && 0 <= i1 < p && 0 <= b && b + w * n <= columns
    requires CopiedBefore(T, x, b, B, w, p, n, k1, i1) && Copied(T', x, b, B, w, p, k1, i1)
    requires RowChanged(p, columns, T, T', i1, b + w * k1, w)
    ensures CopiedBefore(T', x, b, B, w, p, n, k1, i1 + 1)
  {
    forall k, i | 0 <= k < n && 0 <= i < p && (k < k1 || (k == k1 && i < i1))
      ensures Copied(T', x, b, B, w, p, k, i)
    {
      assert Copied(T, x, b, B, w, p, k, i);
      forall j | 0 <= j < w
        ensures CopiedAt(T', x, b, B, w, p, k, i, j)
      {
        assert CopiedAt(T, x, b, B, w, p, k, i, j);
        BlkRange(w, n, k, j);
        if i == i1 {
          Ahead(w, k, k1);
        }
      }
    }
  }

  lemma CopiedElsewhere(columns: int, T: Mat, T': Mat, x: Vec, b: int, B: int, w: nat, p: nat, n: nat, k1: int,
                        i1: int, r: int, c: int, d: int)
    requires 0 <= b && b + w * n <= columns && (c + d <= b || b + w * n <= c)
    requires CopiedBefore(T, x, b, B, w, p, n, k1, i1) && RowChanged(p, columns, T, T', r, c, d)
    ensures CopiedBefore(T', x, b, B, w, p, n, k1, i1)
  {
    forall k, i | 0 <= k < n && 0 <= i < p && (k < k1 || (k == k1 && i < i1))
      ensures Copied(T', x, b, B, w, p, k, i)
    {
      assert Copied(T, x, b, B, w, p, k, i);
      forall j | 0 <= j < w
        ensures CopiedAt(T', x, b, B, w, p, k, i, j)
      {
        assert CopiedAt(T, x, b, B, w, p, k, i, j);
        BlkRange(w, n, k, j);
      }
    }
  }

  lemma CopiedRow(T: Mat, x: Vec, b: int, B: int, w: int, p: int, n: int, k1: int)
    requires CopiedBefore(T, x, b, B, w, p, n, k1, p)
    ensures CopiedBefore(T, x, b, B, w, p, n, k1 + 1, 0)
  {
  }

  /** Entry by entry, with the indices that the program computes. */
  lemma ThetaEntries(T: Mat, x: Vec, p: nat, m: nat, n: nat, k: nat, i: nat, j: nat)
    requires CopiedBefore(T, x, 0, 0, p, p, n, n, 0) && CopiedBefore(T, x, p * n, p * p * n, m, p, n, n, 0)
    requires k < n && i < p
    ensures j < p ==> T(i, j + k * p) == x(j + i * p + k * p * p)
    ensures j < m ==> T(i, p * n + j + k * m) == x(p * p * n + j + i * m + k * p * m)
  {
    assert Copied(T, x, 0, 0, p, p, k, i) && Copied(T, x, p * n, p * p * n, m, p, k, i);
    hide CopiedBefore;
    if j < p {
      EntryAt(T, x, 0, 0, p, p, k, i, j);
    }
    if j < m {
      EntryAt(T, x, p * n, p * p * n, m, p, k, i, j);
    }
  }

  lemma EntryAt(T: Mat, x: Vec, b: int, B: int, w: nat, p: nat, k: nat, i: nat, j: nat)
    requires Copied(T, x, b, B, w, p, k, i) && j < w
    ensures T(i, b + j + k * w) == x(B + j + i * w + k * p * w)
  {
    assert CopiedAt(T, x, b, B, w, p, k, i, j);
    hide Copied;
    assert Blk(w, k, j) == j + k * w;
    assert Blk(w * p, k, Blk(w, i, j)) == j + i * w + k * p * w;
  }

  lemma NothingCopied(T: Mat, x: Vec, b: int, B: int, w: int, p: int, n: int)
    ensures CopiedBefore(T, x, b, B, w, p, n, 0, 0)
  {
  }

  /** One inner loop of x2theta. */
  method CopyBlock(x: array<real>, from: nat, theta: array2<real>, i: nat, to: nat, w: nat)
    requires from + w <= x.Length && i < theta.Length0 && to + w <= theta.Length1
    modifies theta
    ensures RowChanged(theta.Length0, theta.Length1, old(MatOf(theta)), MatOf(theta), i, to, w)
    ensures forall q :: to <= q < to + w ==> MatOf(theta)(i, q) == AsVec(x[..])(q - to + from)
  {
    for j := 0 to w
      invariant forall r, q :: 0 <= r < theta.Length0 && 0 <= q < theta.Length1 && !(r == i && to <= q < to + w) ==>
        theta[r, q] == old(theta[r, q])
      invariant forall q :: to <= q < to + j ==> theta[i, q] == x[q - to + from]
    {
      theta[i, to + j] := x[from + j];
    }
  }

  /** The inner loop for one of the windows; the other one, in other columns, is not affected. */
  method CopyPart(x: array<real>, theta: array2<real>, n: nat, p: nat, k: nat, i: nat, w: nat, b: nat, B: nat,
                  ghost w2: nat, ghost b2: nat, ghost B2: nat, ghost i2: nat)
    requires k < n && i < p == theta.Length0 && B + w * p * n <= x.Length
    requires b + w * n <= theta.Length1 && b2 + w2 * n <= theta.Length1 && (b + w * n <= b2 || b2 + w2 * n <= b)
    requires CopiedBefore(MatOf(theta), AsVec(x[..]), b, B, w, p, n, k, i)
    requires CopiedBefore(MatOf(theta), AsVec(x[..]), b2, B2, w2, p, n, k, i2)
    modifies theta
    ensures CopiedBefore(MatOf(theta), AsVec(x[..]), b, B, w, p, n, k, i + 1)
    ensures CopiedBefore(MatOf(theta), AsVec(x[..]), b2, B2, w2, p, n, k, i2)
  {
    ghost var columns, X, T0 := theta.Length1, AsVec(x[..]), MatOf(theta);
    NestedFits(w, p, n, k, i);
    var from, to := B + (w * i + w * p * k), b + w * k;
    hide CopiedBefore, RowChanged;
    CopyBlock(x, from, theta, i, to, w);
    ghost var T1 := MatOf(theta);
    BlockCopied(T1, X, b, B, w, p, k, i, from, to);
    CopiedNext(columns, T0, T1, X, b, B, w, p, n, k, i);
    CopiedElsewhere(columns, T0, T1, X, b2, B2, w2, p, n, k, i2, i, to, w);
  }

  lemma NestedFits(w: nat, p: nat, n: nat, k: nat, i: nat)
    requires k < n && i < p
    ensures 0 <= w * k && w * k + w <= w * n
    ensures 0 <= w * i + w * p * k && w * i + w * p * k + w <= w * p * n
  {
    BlockFits(w, n, k);
    BlockFits(w, p, i);
    BlockFits(w * p, n, k);
  }

  lemma BlockCopied(T: Mat, x: Vec, b: int, B: int, w: nat, p: nat, k: int, i: int, from: int, to: int)
    requires from == B + (w * i + w * p * k) && to == b + w * k
    requires forall q :: to <= q < to + w ==> T(i, q) == x(q - to + from)
    ensures Copied(T, x, b, B, w, p, k, i)
  {
  }

  /** x2theta: the parameters of the filter as the matrix of the ARX model. */
  method X2Theta(x: array<real>, theta: array2<real>, n: nat, p: nat, m: nat)
    requires theta.Length0 == p && theta.Length1 == p * n + m * n && x.Length == p * p * n + m * p * n
    modifies theta
    ensures CopiedBefore(MatOf(theta), AsVec(x[..]), 0, 0, p, p, n, n, 0)
    ensures CopiedBefore(MatOf(theta), AsVec(x[..]), p * n, p * p * n, m, p, n, n, 0)
  {
    hide CopiedBefore;
    NothingCopied(MatOf(theta), AsVec(x[..]), 0, 0, p, p, n);
    NothingCopied(MatOf(theta), AsVec(x[..]), p * n, p * p * n, m, p, n);
    for k := 0 to n
      invariant CopiedBefore(MatOf(theta), AsVec(x[..]), 0, 0, p, p, n, k, 0)
      invariant CopiedBefore(MatOf(theta), AsVec(x[..]), p * n, p * p * n, m, p, n, k, 0)
    {
      for i := 0 to p
        invariant CopiedBefore(MatOf(theta), AsVec(x[..]), 0, 0, p, p, n, k, i)
        invariant CopiedBefore(MatOf(theta), AsVec(x[..]), p * n, p * p * n, m, p, n, k, i)
      {
        CopyPart(x, theta, n, p, k, i, p, 0, 0, m, p * n, p * p * n, i);
        CopyPart(x, theta, n, p, k, i, m, p * n, p * p * n, p, 0, 0, i + 1);
      }
      CopiedRow(MatOf(theta), AsVec(x[..]), 0, 0, p, p, n, k);
      CopiedRow(MatOf(theta), AsVec(x[..]), p * n, p * p * n, m, p, n, k);
    }
  }

  // ----- the two descriptions of the model agree

  /** f has w*p entries in each of its n blocks, of which those of row i are the block of g and the others vanish. */
  ghost predicate SpreadAt(p: nat, w: nat, i: int, f: Vec, g: Vec, k: int, l: int, c: int) {
    f(Blk(w * p, k, Blk(w, l, c))) == if l == i then g(Blk(w, k, c)) else 0.0
  }

  lemma SpreadSum(p: nat, w: nat, n: nat, i: int, f: Vec, g: Vec)
    requires 0 <= i < p
    requires forall k, l, c :: 0 <= k < n && 0 <= l < p && 0 <= c < w ==> SpreadAt(p, w, i, f, g, k, l, c)
    ensures Sum(0, w * p * n, f) == Sum(0, w * n, g)
  {
    hide Blk;
    SumByBlocks(w * p, n, f);
    SumByBlocks(w, n, g);
    forall k | 0 <= k < n
      ensures BlockSums(w * p, f)(k) == BlockSums(w, g)(k)
    {
      var fk, gk := SubVector(f, w * p, k), SubVector(g, w, k);
      SumByBlocks(w, p, fk);
      forall l | 0 <= l < p
        ensures BlockSums(w, fk)(l) == if l == i then Sum(0, w, gk) else 0.0
      {
        forall c | 0 <= c < w
          ensures SubVector(fk, w, l)(c) == if l == i then gk(c) else 0.0
        {
          assert SpreadAt(p, w, i, f, g, k, l, c);
        }
        if l == i {
          SumEq(0, w, SubVector(fk, w, l), gk);
        } else {
          SumZero(0, w, SubVector(fk, w, l));
        }
      }
      SumSingle(0, p, i, BlockSums(w, fk));
    }
    SumEq(0, n, BlockSums(w * p, f), BlockSums(w, g));
  }

  ghost function From(f: Vec, b: int): Vec {
    q => f(b + q)
  }

  /** One window: its columns of the regressor matrix times the parameters, and its part of theta*phi. */
  lemma WindowProducts(p: nat, w: nat, n: nat, i: int, C: Mat, x: Vec, T: Mat, phi: Vec, B: nat, b: nat,
                       v: seq<real>, f: seq<real>, history: seq<seq<real>>)
    requires 0 <= i < p && AllOf(w, history)
    requires Holds(v, B, w * p, n, Expanded(p, i, history)) && Holds(f, b, w, n, history)
    requires (forall q :: 0 <= q < |v| ==> C(i, q) == v[q]) && forall q :: 0 <= q < |f| ==> phi(q) == f[q]
    requires CopiedBefore(T, x, b, B, w, p, n, n, 0)
    ensures Sum(B, B + w * p * n, RowTimes(C, i, x)) == Sum(b, b + w * n, RowTimes(T, i, phi))
  {
    var r, s := RowTimes(C, i, x), RowTimes(T, i, phi);
    forall k, l, c | 0 <= k < n && 0 <= l < p && 0 <= c < w
      ensures SpreadAt(p, w, i, From(r, B), From(s, b), k, l, c)
    {
      WindowTerm(p, w, n, i, C, x, T, phi, B, b, v, f, history, k, l, c);
    }
    hide Holds, CopiedBefore, SpreadAt, RowTimes, AllOf, Expanded;
    SpreadSum(p, w, n, i, From(r, B), From(s, b));
    SumShift(0, w * p * n, B, r, From(r, B));
    SumShift(0, w * n, b, s, From(s, b));
  }

  lemma WindowTerm(p: nat, w: nat, n: nat, i: int, C: Mat, x: Vec, T: Mat, phi: Vec, B: nat, b: nat,
                   v: seq<real>, f: seq<real>, history: seq<seq<real>>, k: int, l: int, c: int)
    requires 0 <= i < p && AllOf(w, history) && 0 <= k < n && 0 <= l < p && 0 <= c < w
    requires Holds(v, B, w * p, n, Expanded(p, i, history)) && Holds(f, b, w, n, history)
    requires (forall q :: 0 <= q < |v| ==> C(i, q) == v[q]) && forall q :: 0 <= q < |f| ==> phi(q) == f[q]
    requires CopiedBefore(T, x, b, B, w, p, n, n, 0)
    ensures SpreadAt(p, w, i, From(RowTimes(C, i, x), B), From(RowTimes(T, i, phi), b), k, l, c)
  {
    hide Expanded, Past, AllOf;
    var q := Blk(w, l, c);
    BlkRange(w, p, l, c);
    assert SlotHolds(v, B, w * p, Expanded(p, i, history), k, q) && SlotHolds(f, b, w, history, k, c);
    PastExpanded(p, i, w, history, k, l, c);
    var s, t := Slot(B, w * p, k, q), Slot(b, w, k, c);
    assert s == B + Blk(w * p, k, q) && t == b + Blk(w, k, c);
    assert Copied(T, x, b, B, w, p, k, i) && CopiedAt(T, x, b, B, w, p, k, i, c);
    hide Slot, Blk;
    assert C(i, s) == v[s] && phi(t) == f[t];
  }

  /** system_h: the regressor matrix times the parameter vector is the one-step prediction theta*phi of the ARX model,
      for the window phi of the same outputs and inputs. */
  lemma FilterPredictsAsArx(sys: SysEq, C: Mat, x: Vec, T: Mat, phi: seq<real>, i: int, ys: seq<seq<real>>,
                            us: seq<seq<real>>)
    requires sys.Layout() && sys.Valid() && 0 <= i < sys.p && AllOf(sys.p, ys) && AllOf(sys.m, us)
    requires sys.RowHolds(i, ys, us) && forall q :: 0 <= q < sys.ny + sys.nu ==> C(i, q) == sys.RowOf(i)[q]
    requires Holds(phi, 0, sys.p, sys.n, ys) && Holds(phi, sys.p * sys.n, sys.m, sys.n, us)
    requires CopiedBefore(T, x, 0, 0, sys.p, sys.p, sys.n, sys.n, 0)
    requires CopiedBefore(T, x, sys.p * sys.n, sys.p * sys.p * sys.n, sys.m, sys.p, sys.n, sys.n, 0)
    ensures Apply(sys.ny + sys.nu, C, x)(i) == Apply(sys.p * sys.n + sys.m * sys.n, T, AsVec(phi))(i)
  {
    var n, p, m, ny, nu := sys.n, sys.p, sys.m, sys.ny, sys.nu;
    var hy, hu := p * n, m * n;
    hide Holds, CopiedBefore, AllOf;
    assert hy >= 0 && hu >= 0;
    WindowProducts(p, p, n, i, C, x, T, AsVec(phi), 0, 0, sys.RowOf(i), phi, ys);
    WindowProducts(p, m, n, i, C, x, T, AsVec(phi), ny, hy, sys.RowOf(i), phi, us);
    SumSplit(0, ny, ny + nu, RowTimes(C, i, x));
    SumSplit(0, hy, hy + hu, RowTimes(T, i, AsVec(phi)));
  }
}
