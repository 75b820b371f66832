// The sliding windows of past samples that ARX_UpdatePhi, ARMAX_UpdatePhi and GPC_VectorUpdate of
// utils/GPC.c keep inside flat vectors by descending in-place shifts.
module Windows {
  /** Component c of the sample taken j steps before the last one; 0 before the first sample. */
  ghost function Past(history: seq<seq<real>>, j: int, c: int): real {
    if 0 <= j < |history| && 0 <= c < |history[|history| - 1 - j]| then history[|history| - 1 - j][c] else 0.0
  }

  /** Component c of slot j in a window of samples of the given width that starts at base. */
  ghost function Slot(base: int, width: int, j: int, c: int): int {
    base + width * j + c
  }

  /** The window at base holds the last `count` samples of the history, the newest first. */
  ghost predicate Holds(v: seq<real>, base: int, width: int, count: int, history: seq<seq<real>>) {
    && 0 <= base && base + width * count <= |v|
    && forall j, c :: 0 <= j < count && 0 <= c < width ==> SlotHolds(v, base, width, history, j, c)
  }

  ghost predicate SlotHolds(v: seq<real>, base: int, width: int, history: seq<seq<real>>, j: int, c: int) {
    0 <= Slot(base, width, j, c) < |v| && v[Slot(base, width, j, c)] == Past(history, j, c)
  }

  /** w is v with the window moved one slot up and x stored in the first slot. */
  ghost predicate Shifted(v: seq<real>, w: seq<real>, base: int, width: int, count: int, x: seq<real>)
    requires 0 <= base && 0 <= width <= |x|
  {
    && |w| == |v| && base + width * count <= |v|
    && (forall q :: base <= q < base + width && q < |w| ==> w[q] == x[q - base])
    && (forall q :: base + width <= q < base + width * count ==> w[q] == v[q - width])
  }

  lemma SlotBounds(base: int, width: int, count: int, j: int, c: int)
    requires 0 <= j < count && 0 <= c < width
    ensures base <= Slot(base, width, j, c) < base + width * count
    ensures j >= 1 ==> Slot(base, width, j, c) == Slot(base, width, j - 1, c) + width >= base + width
    ensures j == 0 ==> Slot(base, width, j, c) == base + c
  {
    Multiples(width, j);
    Multiples(width, count - j);
    Multiples(width, j - 1);
    assert width * count == width * j + width * (count - j);
  }

  lemma Multiples(width: int, k: int)
    requires width > 0
    ensures k >= 0 ==> width * k >= 0
    ensures k >= 1 ==> width * k >= width
    ensures width * (k + 1) == width * k + width
  {
  }

  /** Shifting in a sample appends it to the history that the window holds. */
  lemma ShiftKeepsWindow(v: seq<real>, w: seq<real>, base: int, width: int, count: int, x: seq<real>,
                         history: seq<seq<real>>)
    requires 0 <= base && width == |x|
    requires Holds(v, base, width, count, history)
    requires Shifted(v, w, base, width, count, x)
    ensures Holds(w, base, width, count, history + [x])
  {
    forall j, c | 0 <= j < count && 0 <= c < width
      ensures SlotHolds(w, base, width, history + [x], j, c)
    {
      SlotBounds(base, width, count, j, c);
      if j >= 1 {
        assert SlotHolds(v, base, width, history, j - 1, c);
        assert Past(history + [x], j, c) == Past(history, j - 1, c);
      }
    }
  }

  lemma EmptyWindow(v: seq<real>, base: int, width: int, count: int)
    requires 0 <= base && 0 <= width && base + width * count <= |v|
    requires forall q :: 0 <= q < |v| ==> v[q] == 0.0
    ensures Holds(v, base, width, count, [])
  {
    forall j, c | 0 <= j < count && 0 <= c < width
      ensures SlotHolds(v, base, width, [], j, c)
    {
      SlotBounds(base, width, count, j, c);
    }
  }

  /** The descending loop that moves a window up by one slot; the first slot keeps its old content. */
  method ShiftUp(v: array<real>, base: nat, width: nat, count: nat, ghost size: nat)
    requires count >= 1 && size == width * count && base + size <= v.Length
    modifies v
    ensures forall q :: base + width <= q < base + size ==> v[q] == old(v[q - width])
    ensures forall q :: 0 <= q < v.Length && (q < base + width || base + size <= q) ==> v[q] == old(v[q])
  {
    assert width * (count - 1) == size - width;
    assert width * (count - 1) >= 0;
    ghost var top := base + size;
    for i := 0 to width * (count - 1)
      invariant forall q :: top - i <= q < top ==> v[q] == old(v[q - width])
      invariant forall q :: 0 <= q < v.Length && (q < top - i || top <= q) ==> v[q] == old(v[q])
    {
      v[base + width * count - 1 - i] := v[base + width * (count - 1) - 1 - i];
    }
  }

  /** The loop that stores a sample at base. */
  method StoreAt(v: array<real>, base: nat, width: nat, x: array<real>)
    requires base + width <= v.Length && width == x.Length && v != x
    modifies v
    ensures forall q :: base <= q < base + width ==> v[q] == x[q - base]
    ensures forall q :: 0 <= q < v.Length && (q < base || base + width <= q) ==> v[q] == old(v[q])
  {
    for i := 0 to width
      invariant forall q :: base <= q < base + i ==> v[q] == x[q - base]
      invariant forall q :: 0 <= q < v.Length && (q < base || base + i <= q) ==> v[q] == old(v[q])
    {
      v[i + base] := x[i];
    }
  }

  /** GPC_VectorUpdate on one of its vectors: the whole vector is the window. */
  method PushSample(v: array<real>, width: nat, count: nat, x: array<real>, ghost history: seq<seq<real>>)
    requires count >= 1 && width == x.Length && v != x
    requires Holds(v[..], 0, width, count, history)
    modifies v
    ensures Holds(v[..], 0, width, count, history + [x[..]])
  {
    ghost var v0 := v[..];
    assert width * count == width + width * (count - 1);
    assert width * (count - 1) >= 0;
    ShiftUp(v, 0, width, count, width * count);
    StoreAt(v, 0, width, x);
    ShiftKeepsWindow(v0, v[..], 0, width, count, x[..], history);
  }

  /** ARX_UpdatePhi: an output window of na slots followed by an input window of nb slots. */
  method UpdatePhi(phi: array<real>, p: nat, na: nat, m: nat, nb: nat, y: array<real>, u: array<real>,
                   ghost ys: seq<seq<real>>, ghost us: seq<seq<real>>)
    requires na >= 1 && nb >= 1 && y.Length == p && u.Length == m && phi != y && phi != u
    requires phi.Length == p * na + m * nb
    requires Holds(phi[..], 0, p, na, ys) && Holds(phi[..], p * na, m, nb, us)
    modifies phi
    ensures Holds(phi[..], 0, p, na, ys + [y[..]]) && Holds(phi[..], p * na, m, nb, us + [u[..]])
  {
    ghost var v0 := phi[..];
    hide Holds;
    ghost var sy, su := p * na, m * nb;
    FirstSlotFits(p, na, sy);
    FirstSlotFits(m, nb, su);
    ShiftUp(phi, 0, p, na, sy);
    ShiftUp(phi, p * na, m, nb, su);
    StoreAt(phi, 0, p, y);
    StoreAt(phi, p * na, m, u);
    ShiftKeepsWindow(v0, phi[..], 0, p, na, y[..], ys);
    ShiftKeepsWindow(v0, phi[..], sy, m, nb, u[..], us);
  }

  lemma FirstSlotFits(width: nat, count: nat, size: nat)
    requires count >= 1 && size == width * count
    ensures width <= size
  {
  }

  /** ARMAX_UpdatePhi: a third window holds the prediction errors. */
  method UpdatePhiArmax(phi: array<real>, p: nat, na: nat, m: nat, nb: nat, nc: nat,
                        y: array<real>, u: array<real>, eps: array<real>,
                        ghost ys: seq<seq<real>>, ghost us: seq<seq<real>>, ghost es: seq<seq<real>>)
    requires na >= 1 && nb >= 1 && nc >= 1 && y.Length == eps.Length == p && u.Length == m
    requires phi != y && phi != u && phi != eps
    requires phi.Length == p * na + m * nb + p * nc
    requires Holds(phi[..], 0, p, na, ys) && Holds(phi[..], p * na, m, nb, us)
    requires Holds(phi[..], p * na + m * nb, p, nc, es)
    modifies phi
    ensures Holds(phi[..], 0, p, na, ys + [y[..]]) && Holds(phi[..], p * na, m, nb, us + [u[..]])
    ensures Holds(phi[..], p * na + m * nb, p, nc, es + [eps[..]])
  {
    ghost var v0 := phi[..];
    hide Holds;
    ghost var sy, su, se := p * na, m * nb, p * nc;
    FirstSlotFits(p, na, sy);
    FirstSlotFits(m, nb, su);
    FirstSlotFits(p, nc, se);
    ShiftThree(phi, p, na, m, nb, nc, sy, su, se);
    StoreThree(phi, p * na, p * na + m * nb, y, u, eps);
    TakesIn(v0, phi[..], 0, p, na, sy, y[..], ys);
    TakesIn(v0, phi[..], sy, m, nb, su, u[..], us);
    TakesIn(v0, phi[..], sy + su, p, nc, se, eps[..], es);
  }

  /** A window of the given size, shifted by one slot and with a sample in the first one. */
  lemma TakesIn(v: seq<real>, w: seq<real>, base: int, width: int, count: int, size: int, x: seq<real>,
                history: seq<seq<real>>)
    requires 0 <= base && width == |x| && size == width * count && |w| == |v| && width <= size && base + size <= |v|
    requires Holds(v, base, width, count, history)
    requires forall q :: base <= q < base + width ==> w[q] == x[q - base]
    requires forall q :: base + width <= q < base + size ==> w[q] == v[q - width]
    ensures Holds(w, base, width, count, history + [x])
  {
    ShiftKeepsWindow(v, w, base, width, count, x, history);
  }

  /** The three shifting loops: each window moves up by one slot inside its own range. */
  method ShiftThree(v: array<real>, p: nat, na: nat, m: nat, nb: nat, nc: nat, ghost sy: nat, ghost su: nat,
                    ghost se: nat)
    requires na >= 1 && nb >= 1 && nc >= 1 && sy == p * na && su == m * nb && se == p * nc
    requires p <= sy && m <= su && p <= se && v.Length == sy + su + se
    modifies v
    ensures forall q :: p <= q < sy ==> v[q] == old(v[q - p])
    ensures forall q :: sy + m <= q < sy + su ==> v[q] == old(v[q - m])
    ensures forall q :: sy + su + p <= q < sy + su + se ==> v[q] == old(v[q - p])
  {
    ShiftUp(v, 0, p, na, sy);
    ShiftUp(v, p * na, m, nb, su);
    ShiftUp(v, p * na + m * nb, p, nc, se);
  }

  /** The three loops that store the samples in the first slots. */
  method StoreThree(v: array<real>, b: nat, c: nat, y: array<real>, u: array<real>, eps: array<real>)
    requires y.Length <= b && b + u.Length <= c && c + eps.Length <= v.Length && v != y && v != u && v != eps
    modifies v
    ensures forall q :: 0 <= q < y.Length ==> v[q] == y[q]
    ensures forall q :: b <= q < b + u.Length ==> v[q] == u[q - b]
    ensures forall q :: c <= q < c + eps.Length ==> v[q] == eps[q - c]
    ensures forall q :: y.Length <= q < b || b + u.Length <= q < c || c + eps.Length <= q < v.Length ==>
            v[q] == old(v[q])
  {
    StoreAt(v, 0, y.Length, y);
    StoreAt(v, b, u.Length, u);
    StoreAt(v, c, eps.Length, eps);
  }
}
