// The cascading deletions of contrib/Post/NCPost.py: a signal, or all the signals of a file, with the formulas that
// depend on them and the curves that show any of those.
module PostProcessor {
  import opened Formulas
  import opened Dependencies
  import opened Curves
  import opened SignalManager

  /** Both boxes are there and one of them shows a removed signal. */
  predicate Affected(c: Curve, removed: set<string>) {
    c.x.Some? && c.y.Some? && (c.x.value in removed || c.y.value in removed)
  }

  /** The rows with both boxes that show a removed name in one of them. */
  function AffectedRows(rows: seq<Curve>, removed: set<string>): (affected: set<int>)
    ensures forall r :: r in affected <==> 0 <= r < |rows| && rows[r].x.Some? && rows[r].y.Some?
                                           && (rows[r].x.value in removed || rows[r].y.value in removed)
  {
    set r | 0 <= r < |rows| && Affected(rows[r], removed)
  }

  /** The curves that lack a box or show none of the removed names, in their order. */
  ghost function Unaffected(rows: seq<Curve>, removed: set<string>): seq<Curve> {
    if rows == [] then []
    else
      var c := rows[|rows| - 1];
      Unaffected(rows[..|rows| - 1], removed)
      + if c.x == None || c.y == None || (c.x.value !in removed && c.y.value !in removed) then [c] else []
  }

  /** Deleting the affected rows leaves exactly the unaffected curves, in their order. */
  lemma KeptUnaffected(rows: seq<Curve>, removed: set<string>)
    ensures Kept(rows, AffectedRows(rows, removed)) == Unaffected(rows, removed)
  {
    KeptPrefix(rows, rows, removed);
  }

  /** So no row with both boxes that is left shows a removed name. */
  lemma {:induction false} SurvivorsShowNothing(rows: seq<Curve>, removed: set<string>)
    ensures forall c :: c in Kept(rows, AffectedRows(rows, removed)) && c.x.Some? && c.y.Some? ==>
      c.x.value !in removed && c.y.value !in removed
  {
    KeptUnaffected(rows, removed);
    UnaffectedShowNothing(rows, removed);
  }

  lemma {:induction false} UnaffectedShowNothing(rows: seq<Curve>, removed: set<string>)
    ensures forall c :: c in Unaffected(rows, removed) && c.x.Some? && c.y.Some? ==>
      c.x.value !in removed && c.y.value !in removed
  {
    if rows != [] {
      UnaffectedShowNothing(rows[..|rows| - 1], removed);
    }
  }

  lemma {:induction false} KeptPrefix(rows: seq<Curve>, prefix: seq<Curve>, removed: set<string>)
    requires prefix <= rows
    ensures Kept(prefix, AffectedRows(rows, removed)) == Unaffected(prefix, removed)
  {
    if prefix != [] {
      KeptPrefix(rows, prefix[..|prefix| - 1], removed);
    }
  }

  /** No formula that is left mentions a removed name. */
  ghost predicate NothingDangling(exprs: map<string, string>, removed: set<string>) {
    forall e, name :: e in exprs && name in removed ==> !Mentions(exprs[e], name)
  }

  lemma ClosureLeavesNothing(exprs: map<string, string>, missing: set<string>, removed: set<string>)
    requires IsClosure(exprs, missing, removed)
    ensures NothingDangling(exprs - removed, removed)
  {
    hide Mentions;
    forall e, name | e in exprs - removed && name in removed
      ensures !Mentions(exprs[e], name)
    {
      assert !MentionsAny(exprs[e], removed);
    }
  }

  /** A row of one of the tabs. */
  datatype Place = Place(tab: int, row: int)

  ghost function Done(order: seq<Place>, tab: int): set<int> {
    set k | 0 <= k < |order| && order[k].tab == tab :: order[k].row
  }

  lemma DoneNext(order: seq<Place>, p: Place, tab: int)
    ensures Done(order + [p], tab) == if p.tab == tab then Done(order, tab) + {p.row} else Done(order, tab)
  {
    var longer := order + [p];
    assert forall k :: 0 <= k < |order| ==> longer[k] == order[k];
    assert longer[|order|] == p;
    if p.tab == tab {
      assert Done(longer, tab) == Done(order, tab) + {p.row};
    } else {
      assert Done(longer, tab) == Done(order, tab);
    }
  }

  ghost predicate Descending(order: seq<Place>) {
    && (forall j, k :: 0 <= j < k < |order| ==> order[j].row >= order[k].row)
    && (forall j, k :: 0 <= j < k < |order| ==> order[j] != order[k])
  }

  ghost predicate AllAtLeast(order: seq<Place>, rest: set<Place>) {
    forall k, p :: 0 <= k < |order| && p in rest ==> order[k].row >= p.row
  }

  ghost function PlacesOf(order: seq<Place>): set<Place> {
    set p | p in order
  }

  lemma BottomNext(order: seq<Place>, rest: set<Place>, top: Place)
    requires Descending(order) && AllAtLeast(order, rest) && PlacesOf(order) !! rest
    requires top in rest && forall p :: p in rest ==> p.row <= top.row
    ensures Descending(order + [top]) && AllAtLeast(order + [top], rest - {top})
    ensures PlacesOf(order + [top]) == PlacesOf(order) + {top}
  {
    assert forall k :: 0 <= k < |order| ==> order[k] in PlacesOf(order);
  }

  /** sorted(places, key=row, reverse=True). */
  method SortedByRow(places: set<Place>) returns (order: seq<Place>)
    ensures Descending(order) && PlacesOf(order) == places
  {
    order := [];
    var rest := places;
    assert PlacesOf(order) == {};
    hide Descending, AllAtLeast, PlacesOf;
    while |rest| > 0
      invariant rest <= places && PlacesOf(order) == places - rest
      invariant Descending(order) && AllAtLeast(order, rest)
      decreases |rest|
    {
      var top := BottomPlace(rest);
      BottomNext(order, rest, top);
      order := order + [top];
      rest := rest - {top};
    }
  }

  /** A place with the largest row number. */
  method BottomPlace(places: set<Place>) returns (top: Place)
    requires |places| > 0
    ensures top in places && forall p :: p in places ==> p.row <= top.row
  {
    top := Pick(places);
    var rest := places - {top};
    while |rest| > 0
      invariant rest <= places && top in places && forall p :: p in places && p !in rest ==> p.row <= top.row
      decreases |rest|
    {
      var p := Pick(rest);
      if p.row > top.row {
        top := p;
      }
      rest := rest - {p};
    }
  }

  class PostProcessor<D, S> {
    const manager: SignalManager<D>
    const tabs: seq<Tab<S>>

    ghost predicate Valid()
      reads this, manager
    {
      manager.Valid() && forall i, j :: 0 <= i < j < |tabs| ==> tabs[i] != tabs[j]
    }

    constructor (manager: SignalManager<D>, tabs: seq<Tab<S>>)
      requires manager.Valid() && forall i, j :: 0 <= i < j < |tabs| ==> tabs[i] != tabs[j]
      ensures Valid() && this.manager == manager && this.tabs == tabs
    {
      this.manager, this.tabs := manager, tabs;
    }

    ghost function Rows(): seq<seq<Curve>>
      reads this, tabs
    {
      seq(|tabs|, i requires 0 <= i < |tabs| reads this, tabs => tabs[i].rows)
    }

    ghost function Styles(): seq<map<int, S>>
      reads this, tabs
    {
      seq(|tabs|, i requires 0 <= i < |tabs| reads this, tabs => tabs[i].styles)
    }

    /** All the affected rows of all the tabs. */
    method FindAffectedCurves(removed: set<string>) returns (affected: set<Place>)
      ensures forall p :: p in affected <==> 0 <= p.tab < |tabs| && p.row in AffectedRows(tabs[p.tab].rows, removed)
      ensures forall i, r :: 0 <= i < |tabs| && 0 <= r < |tabs[i].rows| ==>
        var c := tabs[i].rows[r];
        (Place(i, r) in affected <==> c.x.Some? && c.y.Some? && (c.x.value in removed || c.y.value in removed))
    {
      affected := {};
      for i := 0 to |tabs|
        invariant forall p :: p in affected <==> 0 <= p.tab < i && p.row in AffectedRows(tabs[p.tab].rows, removed)
      {
        var found: set<Place> := {};
        for r := 0 to |tabs[i].rows|
          invariant forall p: Place :: p in found <==>
                    p.tab == i && 0 <= p.row < r && Affected(tabs[i].rows[p.row], removed)
        {
          if Affected(tabs[i].rows[r], removed) {
            found := found + {Place(i, r)};
          }
        }
        affected := affected + found;
      }
    }

    /** The rows go from the last to the first, whichever tabs they are in. */
    method DeleteCurves(affected: set<Place>)
      requires Valid() && forall p :: p in affected ==> 0 <= p.tab < |tabs| && 0 <= p.row < |tabs[p.tab].rows|
      modifies tabs
      ensures forall i :: 0 <= i < |tabs| ==>
        TabUpdated(old(tabs[i].rows), old(tabs[i].styles), set p | p in affected && p.tab == i :: p.row,
                   tabs[i].rows, tabs[i].styles)
    {
      var order := SortedByRow(affected);
      ghost var rows0, styles0 := Rows(), Styles();
      forall i | 0 <= i < |tabs|
        ensures TabUpdated(rows0[i], styles0[i], Done([], i), tabs[i].rows, tabs[i].styles)
      {
        assert Done([], i) == {};
        NothingDeleted(tabs[i].rows, tabs[i].styles);
      }
      for k := 0 to |order|
        invariant forall i :: 0 <= i < |tabs| ==>
                  TabUpdated(rows0[i], styles0[i], Done(order[..k], i), tabs[i].rows, tabs[i].styles)
      {
        var p := order[k];
        assert p in affected;
        ghost var before, after := order[..k], order[..k + 1];
        assert after == before + [p];
        LaterRows(order, k);
        ghost var t := p.tab;
        assert TabUpdated(rows0[t], styles0[t], Done(before, t), tabs[t].rows, tabs[t].styles);
        tabs[p.tab].DeleteRow(p.row, rows0[t], styles0[t], Done(before, t));
        forall i | 0 <= i < |tabs|
          ensures TabUpdated(rows0[i], styles0[i], Done(after, i), tabs[i].rows, tabs[i].styles)
        {
          DoneNext(before, p, i);
        }
      }
      assert order[..|order|] == order;
      forall i | 0 <= i < |tabs|
        ensures Done(order, i) == set p | p in affected && p.tab == i :: p.row
      {
        DoneAll(order, affected, i);
      }
    }

    /** Removes what is given: the signals with their dependents already collected, and the curves that show any of
        them. */
    method Remove(removed: set<string>, affected: set<Place>)
      requires Valid()
      requires forall p :: p in affected <==> 0 <= p.tab < |tabs| && p.row in AffectedRows(tabs[p.tab].rows, removed)
      modifies tabs, manager
      ensures Valid()
      ensures manager.signals == old(manager.signals) - removed
      ensures manager.expressions == old(manager.expressions) - removed
      ensures manager.source_map == old(manager.source_map) - removed
      ensures forall i :: 0 <= i < |tabs| ==>
        TabUpdated(old(tabs[i].rows), old(tabs[i].styles), AffectedRows(old(tabs[i].rows), removed),
                   tabs[i].rows, tabs[i].styles)
      ensures forall i, c :: 0 <= i < |tabs| && c in tabs[i].rows && c.x.Some? && c.y.Some? ==>
        c.x.value !in removed && c.y.value !in removed
    {
      forall i | 0 <= i < |tabs|
        ensures (set p | p in affected && p.tab == i :: p.row) == AffectedRows(tabs[i].rows, removed)
      {
        forall r | r in AffectedRows(tabs[i].rows, removed)
          ensures r in set p | p in affected && p.tab == i :: p.row
        {
          assert Place(i, r) in affected;
        }
      }
      ghost var rows0 := Rows();
      DeleteCurves(affected);
      forall i | 0 <= i < |tabs|
        ensures forall c :: c in tabs[i].rows && c.x.Some? && c.y.Some? ==>
          c.x.value !in removed && c.y.value !in removed
      {
        SurvivorsShowNothing(rows0[i], removed);
      }
      manager.DeleteSignals(removed);
    }

    /** Deletes a signal, its transitive dependents and the curves of any of them.  The user is asked when anything
        but the signal itself is affected, and a refusal changes nothing. */
    method DeleteSignalWithDeps(name: string, yes: bool) returns (removed: set<string>, asked: bool, deleted: bool)
      requires Valid()
      modifies tabs, manager
      ensures Valid() && IsClosure(old(manager.expressions), {name}, removed)
      ensures asked <==> removed != {name} || exists i :: 0 <= i < |tabs| && Shown(old(tabs[i].rows), removed)
      ensures deleted <==> !asked || yes
      ensures deleted ==>
        && manager.signals == old(manager.signals) - removed
        && manager.expressions == old(manager.expressions) - removed
        && manager.source_map == old(manager.source_map) - removed
        && NothingDangling(manager.expressions, removed)
        && (forall i, c :: 0 <= i < |tabs| && c in tabs[i].rows && c.x.Some? && c.y.Some? ==>
              c.x.value !in removed && c.y.value !in removed)
        && forall i :: 0 <= i < |tabs| ==>
             TabUpdated(old(tabs[i].rows), old(tabs[i].styles), AffectedRows(old(tabs[i].rows), removed),
                        tabs[i].rows, tabs[i].styles)
      ensures !deleted ==> unchanged(manager) && forall i :: 0 <= i < |tabs| ==> unchanged(tabs[i])
    {
      var dependents, _ := FindDependentExprs({name}, manager.expressions);
      removed := {name} + dependents;
      var affected := FindAffectedCurves(removed);
      asked := dependents != {} || affected != {};
      AnyAffected(affected, removed);
      if asked && !yes {
        return removed, asked, false;
      }
      ClosureLeavesNothing(manager.expressions, {name}, removed);
      Remove(removed, affected);
      deleted := true;
    }

    /** Deletes a file: all its signals, their transitive dependents and the curves of any of them, once confirmed. */
    method DeleteTreeFile(file: string, yes: bool) returns (removed: set<string>)
      requires Valid()
      modifies tabs, manager
      ensures Valid()
      ensures var own := set n | n in old(manager.source_map) && old(manager.source_map)[n].file == file;
        IsClosure(old(manager.expressions), own, removed)
      ensures yes ==>
        && manager.signals == old(manager.signals) - removed
        && manager.expressions == old(manager.expressions) - removed
        && manager.source_map == old(manager.source_map) - removed
        && NothingDangling(manager.expressions, removed)
        && (forall i, c :: 0 <= i < |tabs| && c in tabs[i].rows && c.x.Some? && c.y.Some? ==>
              c.x.value !in removed && c.y.value !in removed)
        && forall i :: 0 <= i < |tabs| ==>
             TabUpdated(old(tabs[i].rows), old(tabs[i].styles), AffectedRows(old(tabs[i].rows), removed),
                        tabs[i].rows, tabs[i].styles)
      ensures !yes ==> unchanged(manager) && forall i :: 0 <= i < |tabs| ==> unchanged(tabs[i])
    {
      var signals := SignalsOf(manager.source_map, file);
      var dependents, _ := FindDependentExprs(signals, manager.expressions);
      removed := signals + dependents;
      var affected := FindAffectedCurves(removed);
      if yes {
        ClosureLeavesNothing(manager.expressions, signals, removed);
        Remove(removed, affected);
      }
    }

    lemma AnyAffected(affected: set<Place>, removed: set<string>)
      requires forall p :: p in affected <==> 0 <= p.tab < |tabs| && p.row in AffectedRows(tabs[p.tab].rows, removed)
      ensures affected != {} <==> exists i :: 0 <= i < |tabs| && Shown(tabs[i].rows, removed)
    {
      if affected != {} {
        var p :| p in affected;
        assert Shown(tabs[p.tab].rows, removed);
      }
      if i :| 0 <= i < |tabs| && Shown(tabs[i].rows, removed) {
        var r :| r in AffectedRows(tabs[i].rows, removed);
        assert Place(i, r) in affected;
      }
    }
  }

  /** A row with both boxes shows one of the names. */
  ghost predicate Shown(rows: seq<Curve>, names: set<string>) {
    exists r :: 0 <= r < |rows| && rows[r].x.Some? && rows[r].y.Some?
                && (rows[r].x.value in names || rows[r].y.value in names)
  }

  function SignalsOf(source_map: map<string, Source>, file: string): set<string> {
    set n | n in source_map && source_map[n].file == file
  }

  /** The table and the styles of a tab after the deletion of a set of rows. */
  ghost predicate TabUpdated<S>(rows: seq<Curve>, styles: map<int, S>, deleted: set<int>, rows': seq<Curve>,
                                styles': map<int, S>) {
    rows' == Kept(rows, deleted) && StylesMove(styles, deleted, styles')
  }

  /** In descending order, a row comes before all those of its tab that have gone. */
  lemma LaterRows(order: seq<Place>, k: nat)
    requires k < |order| && Descending(order)
    ensures forall d :: d in Done(order[..k], order[k].tab) ==> order[k].row < d
  {
  }

  lemma DoneAll(order: seq<Place>, affected: set<Place>, tab: int)
    requires PlacesOf(order) == affected
    ensures Done(order, tab) == set p | p in affected && p.tab == tab :: p.row
  {
  }
}
