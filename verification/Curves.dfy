// The curve table of a plot tab of contrib/Post/NCPost.py, with the styles that are kept by row number.
module Curves {

  datatype Option<T> = None | Some(value: T)

  /** A row of the table: its label and the selections of its two signal boxes, where there are any. */
  datatype Curve = Curve(caption: Option<string>, x: Option<string>, y: Option<string>, active: bool)

  // ----- the effect of deleting a set of rows

  ghost function Below(deleted: set<int>, k: int): set<int> {
    set d | d in deleted && d < k
  }

  /** Where row k goes: down by the number of deleted rows before it. */
  ghost function NewRow(deleted: set<int>, k: int): int {
    k - |Below(deleted, k)|
  }

  /** The rows that stay, in their order. */
  ghost function Kept<T>(rows: seq<T>, deleted: set<int>): seq<T> {
    if rows == [] then []
    else
      var last := |rows| - 1;
      Kept(rows[..last], deleted) + if last in deleted then [] else [rows[last]]
  }

  /** The styles that stay, each at the new number of its row, and no others. */
  ghost predicate StylesMove<S>(before: map<int, S>, deleted: set<int>, after: map<int, S>) {
    && (forall k :: k in before && k !in deleted ==>
        NewRow(deleted, k) in after && after[NewRow(deleted, k)] == before[k])
    && (forall k' :: k' in after ==> exists k :: k in before && k !in deleted && NewRow(deleted, k) == k')
  }

  lemma BelowNext(deleted: set<int>, k: int)
    ensures Below(deleted, k + 1) == if k in deleted then Below(deleted, k) + {k} else Below(deleted, k)
  {
  }

  /** There are at most as many deleted rows between two rows as there are rows. */
  lemma {:induction false} BelowGrows(deleted: set<int>, j: int, k: int)
    requires j <= k
    ensures |Below(deleted, j)| <= |Below(deleted, k)| <= |Below(deleted, j)| + (k - j)
    ensures NewRow(deleted, j) <= NewRow(deleted, k)
    decreases k - j
  {
    if j < k {
      BelowGrows(deleted, j, k - 1);
      BelowNext(deleted, k - 1);
    }
  }

  /** Rows that stay keep their order and stay apart. */
  lemma NewRowMonotone(deleted: set<int>, j: int, k: int)
    requires j < k && j !in deleted
    ensures NewRow(deleted, j) < NewRow(deleted, k)
  {
    BelowNext(deleted, j);
    BelowGrows(deleted, j + 1, k);
  }

  /** A row that stays is found at its new number. */
  lemma {:induction false} KeptAt<T>(rows: seq<T>, deleted: set<int>)
    requires forall d :: d in deleted ==> 0 <= d
    ensures |Kept(rows, deleted)| == NewRow(deleted, |rows|)
    ensures forall k :: NewRow(deleted, k) == k - |set d | d in deleted && d < k|
    ensures forall k :: 0 <= k < |rows| && k !in deleted ==>
              0 <= NewRow(deleted, k) < |Kept(rows, deleted)| && Kept(rows, deleted)[NewRow(deleted, k)] == rows[k]
  {
    forall k
      ensures NewRow(deleted, k) == k - |set d | d in deleted && d < k|
    {
      assert Below(deleted, k) == set d | d in deleted && d < k;
    }
    if rows == [] {
      assert Below(deleted, 0) == {};
    } else {
      var last := |rows| - 1;
      KeptAt(rows[..last], deleted);
      BelowNext(deleted, last);
    }
  }

  /** The style of a row that stays is the style at its new number: it moves with the row, and none is taken over
      from a deleted row. */
  lemma StylesStayPaired<T, S>(rows: seq<T>, deleted: set<int>, before: map<int, S>, after: map<int, S>, k: int)
    requires forall d :: d in deleted ==> 0 <= d
    requires StylesMove(before, deleted, after) && 0 <= k < |rows| && k !in deleted
    ensures var k' := NewRow(deleted, k);
      && 0 <= k' < |Kept(rows, deleted)| && Kept(rows, deleted)[k'] == rows[k]
      && (k' in after <==> k in before) && (k in before ==> after[k'] == before[k])
  {
    KeptAt(rows, deleted);
    var k' := NewRow(deleted, k);
    if k' in after {
      var j :| j in before && j !in deleted && NewRow(deleted, j) == k';
      if j < k {
        NewRowMonotone(deleted, j, k);
      } else if k < j {
        NewRowMonotone(deleted, k, j);
      }
    }
  }

  // ----- one more deletion, before all that were made

  lemma {:induction false} KeptBefore<T>(rows: seq<T>, deleted: set<int>)
    requires forall d :: d in deleted ==> |rows| <= d
    ensures Kept(rows, deleted) == rows
  {
    if rows != [] {
      KeptBefore(rows[..|rows| - 1], deleted);
    }
  }

  /** Removing a row before all the deleted ones. */
  lemma {:induction false} KeptOneMore<T>(rows: seq<T>, deleted: set<int>, r: int)
    requires 0 <= r < |rows| && forall d :: d in deleted ==> r < d
    ensures r < |Kept(rows, deleted)| &&
      Kept(rows, deleted + {r}) == Kept(rows, deleted)[..r] + Kept(rows, deleted)[r + 1..]
  {
    var last := |rows| - 1;
    KeptLast(rows, deleted);
    KeptLast(rows, deleted + {r});
    hide Kept;
    if last == r {
      KeptBefore(rows[..last], deleted);
      KeptBefore(rows[..last], deleted + {r});
    } else {
      KeptOneMore(rows[..last], deleted, r);
    }
  }

  lemma KeptLast<T>(rows: seq<T>, deleted: set<int>)
    requires |rows| > 0
    ensures var last := |rows| - 1;
      Kept(rows, deleted) == Kept(rows[..last], deleted) + if last in deleted then [] else [rows[last]]
  {
  }

  lemma NewRowOneMore(deleted: set<int>, r: int, k: int)
    requires k != r && forall d :: d in deleted ==> r < d
    ensures NewRow(deleted + {r}, k) == (if NewRow(deleted, k) > r then NewRow(deleted, k) - 1 else NewRow(deleted, k))
    ensures NewRow(deleted, k) != r
  {
    if k < r {
      assert Below(deleted, k) == {} && Below(deleted + {r}, k) == {};
    } else {
      assert Below(deleted + {r}, k) == Below(deleted, k) + {r};
      assert Below(deleted, r + 1) == {};
      BelowGrows(deleted, r + 1, k);
    }
  }

  /** What removing one row does to the styles. */
  ghost predicate StylesDrop<S>(before: map<int, S>, row: int, after: map<int, S>) {
    && (forall k :: k in before && k != row ==> Dropped(row, k) in after && after[Dropped(row, k)] == before[k])
    && (forall k' :: k' in after ==> exists k :: k in before && k != row && Dropped(row, k) == k')
  }

  function Dropped(row: int, k: int): int {
    if k > row then k - 1 else k
  }

  lemma StylesOneMore<S>(before: map<int, S>, deleted: set<int>, between: map<int, S>, r: int, after: map<int, S>)
    requires forall d :: d in deleted ==> r < d
    requires StylesMove(before, deleted, between) && StylesDrop(between, r, after)
    ensures StylesMove(before, deleted + {r}, after)
  {
    assert Below(deleted, r) == {};
    hide Below;
    forall k | k in before && k !in deleted + {r}
      ensures NewRow(deleted + {r}, k) in after && after[NewRow(deleted + {r}, k)] == before[k]
    {
      NewRowOneMore(deleted, r, k);
      assert Dropped(r, NewRow(deleted, k)) in after;
    }
    forall k' | k' in after
      ensures exists k :: k in before && k !in deleted + {r} && NewRow(deleted + {r}, k) == k'
    {
      var j :| j in between && j != r && Dropped(r, j) == k';
      var k :| k in before && k !in deleted && NewRow(deleted, k) == j;
      NewRowOneMore(deleted, r, k);
    }
  }

  lemma NothingDeleted<T, S>(rows: seq<T>, styles: map<int, S>)
    ensures Kept(rows, {}) == rows && StylesMove(styles, {}, styles)
  {
    KeptBefore(rows, {});
    assert forall k :: Below({}, k) == {};
    assert forall k :: NewRow({}, k) == k;
  }

  class Tab<S> {
    var rows: seq<Curve>
    var styles: map<int, S>

    constructor ()
      ensures rows == [] && styles == map[]
    {
      rows, styles := [], map[];
    }

    method RemoveStyleForRow(row: int)
      modifies this`styles
      ensures StylesDrop(old(styles), row, styles)
    {
      var rest := styles - {row};
      styles := map k | k in rest :: Dropped(row, k) := rest[k];
      forall k | k in old(styles) && k != row
        ensures Dropped(row, k) in styles && styles[Dropped(row, k)] == old(styles)[k]
      {
        assert k in rest;
      }
    }

    method RemoveRow(row: int)
      requires 0 <= row < |rows|
      modifies this`rows
      ensures rows == old(rows)[..row] + old(rows)[row + 1..]
    {
      rows := rows[..row] + rows[row + 1..];
    }

    /** One step of every deletion loop: the style first, then the row. */
    method DeleteRow(row: int, ghost rows0: seq<Curve>, ghost styles0: map<int, S>, ghost deleted: set<int>)
      requires 0 <= row < |rows0| && forall d :: d in deleted ==> row < d
      requires rows == Kept(rows0, deleted) && StylesMove(styles0, deleted, styles)
      modifies this
      ensures rows == Kept(rows0, deleted + {row}) && StylesMove(styles0, deleted + {row}, styles)
    {
      KeptOneMore(rows0, deleted, row);
      ghost var between := styles;
      RemoveStyleForRow(row);
      StylesOneMore(styles0, deleted, between, row, styles);
      RemoveRow(row);
    }

    /** All the selected rows go, from the last to the first, and every other row keeps its style. */
    method DeleteSelectedCurves(selected: set<int>)
      requires forall r :: r in selected ==> 0 <= r < |rows|
      modifies this
      ensures rows == Kept(old(rows), selected) && StylesMove(old(styles), selected, styles)
    {
      var order := SortedDescending(selected);
      ghost var rows0, styles0 := rows, styles;
      NothingDeleted(rows, styles);
      ghost var deleted: set<int> := {};
      for i := 0 to |order|
        invariant deleted == Elements(order[..i])
        invariant rows == Kept(rows0, deleted) && StylesMove(styles0, deleted, styles)
      {
        assert order[i] in selected;
        assert forall d :: d in deleted ==> order[i] < d;
        DeleteRow(order[i], rows0, styles0, deleted);
        deleted := deleted + {order[i]};
        Appended(order[..i], order[i]);
        assert order[..i + 1] == order[..i] + [order[i]];
      }
      assert order[..|order|] == order;
    }
  }

  ghost function Elements(q: seq<int>): set<int> {
    set i | 0 <= i < |q| :: q[i]
  }

  lemma Appended(q: seq<int>, e: int)
    ensures Elements(q + [e]) == Elements(q) + {e}
  {
    assert forall i :: 0 <= i < |q| ==> (q + [e])[i] == q[i];
    assert (q + [e])[|q|] == e;
  }

  ghost predicate Descending(q: seq<int>) {
    forall i, j :: 0 <= i < j < |q| ==> q[i] > q[j]
  }

  ghost predicate AllAbove(q: seq<int>, rest: set<int>) {
    forall i, r :: 0 <= i < |q| && r in rest ==> q[i] > r
  }

  lemma LargestNext(q: seq<int>, rest: set<int>, top: int)
    requires Descending(q) && AllAbove(q, rest) && top in rest && forall r :: r in rest ==> r <= top
    ensures Descending(q + [top]) && AllAbove(q + [top], rest - {top})
  {
  }

  /** sorted(rows, reverse=True). */
  method SortedDescending(rows: set<int>) returns (order: seq<int>)
    ensures Elements(order) == rows && Descending(order)
  {
    order := [];
    var rest := rows;
    assert Elements(order) == {};
    hide Elements, Descending, AllAbove;
    while |rest| > 0
      invariant rest <= rows && Elements(order) == rows - rest && Descending(order) && AllAbove(order, rest)
      decreases |rest|
    {
      var top := Largest(rest);
      Appended(order, top);
      LargestNext(order, rest, top);
      order := order + [top];
      rest := rest - {top};
    }
  }

  method Pick<T(==)>(s: set<T>) returns (e: T)
    requires |s| > 0
    ensures e in s
  {
    e :| e in s;
  }

  method Largest(rows: set<int>) returns (top: int)
    requires |rows| > 0
    ensures top in rows && forall r :: r in rows ==> r <= top
  {
    top := Pick(rows);
    var rest := rows - {top};
    while |rest| > 0
      invariant rest <= rows && top in rows && forall r :: r in rows && r !in rest ==> r <= top
      decreases |rest|
    {
      var r := Pick(rest);
      if r > top {
        top := r;
      }
      rest := rest - {r};
    }
  }
}
