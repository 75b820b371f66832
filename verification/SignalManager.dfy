// The signal dictionaries of contrib/Post/NCPost.py and the operations that change them.
module SignalManager {
  import opened Formulas
  import opened Dependencies

  /** Where an imported signal comes from. */
  datatype Source = Source(file: string, variable: string)

  datatype RenameResult = Unchanged | NameExists | NoSuchSignal | Renamed(name: string)

  function SanitizedChar(c: char): char {
    if IsWord(c) then c else '_'
  }

  /** re.sub(r'[^a-zA-Z0-9_]', '_', name). */
  function Sanitized(name: string): string {
    seq(|name|, i requires 0 <= i < |name| => SanitizedChar(name[i]))
  }

  /** Sanitizing makes a word of any non-empty name, keeps a name that is one, and so does nothing the second time. */
  lemma SanitizedIsWord(name: string)
    requires |name| > 0
    ensures WordName(Sanitized(name)) && Sanitized(Sanitized(name)) == Sanitized(name)
    ensures Sanitized(name) == name <==> WordName(name)
    ensures |Sanitized(name)| == |name|
    ensures forall i :: 0 <= i < |name| ==> var c := name[i];
      Sanitized(name)[i] ==
        if 'a' <= c <= 'z' || 'A' <= c <= 'Z' || '0' <= c <= '9' || c == '_' then c else '_'
  {
  }

  /** Moving the entry and then rewriting every formula renames the expressions. */
  lemma MovedAndRewritten(exprs: map<string, string>, old_name: string, new_name: string,
                          moved: map<string, string>, rewritten: map<string, string>)
    requires |old_name| > 0 && new_name !in exprs && moved == MoveKey(exprs, old_name, new_name)
    requires rewritten.Keys == moved.Keys
    requires forall e :: e in moved ==> rewritten[e] == Substitute(moved[e], old_name, new_name)
    ensures IsRenamed(exprs, old_name, new_name, rewritten)
  {
    hide Substitute, MoveKey;
    forall e | e in exprs
      ensures rewritten[RenameName(e, old_name, new_name)] == Substitute(exprs[e], old_name, new_name)
    {
      assert moved[RenameName(e, old_name, new_name)] == exprs[e];
    }
  }

  /** after is before, but that the entry of the old name, if there is one, is under the new name. */
  ghost predicate MovedTo<V>(before: map<string, V>, old_name: string, new_name: string, after: map<string, V>) {
    && (forall k :: k in after <==> (k in before && k != old_name) || (k == new_name && old_name in before))
    && (old_name in before ==> after[new_name] == before[old_name])
    && forall k :: k in before && k != old_name ==> after[k] == before[k]
  }

  lemma KeyMoved<V>(before: map<string, V>, old_name: string, new_name: string, after: map<string, V>)
    requires new_name !in before && old_name != new_name && after == MoveKey(before, old_name, new_name)
    ensures MovedTo(before, old_name, new_name, after)
  {
  }

  lemma SignalMoved<V>(before: map<string, V>, old_name: string, new_name: string, after: map<string, V>)
    requires old_name in before && new_name !in before && after == RenamedSignals(before, old_name, new_name)
    ensures MovedTo(before, old_name, new_name, after)
  {
  }

  /** The formulas in which the old name became the new one, each under its own name or the new one. */
  ghost predicate Rewritten(before: map<string, string>, old_name: string, new_name: string, after: map<string, string>)
    requires |old_name| > 0
  {
    && (forall e :: e in after <==> (e in before && e != old_name) || (e == new_name && old_name in before))
    && forall e :: e in before ==>
         (if e == old_name then new_name else e) in after
         && after[if e == old_name then new_name else e] == Substitute(before[e], old_name, new_name)
  }

  lemma RenamedIsRewritten(before: map<string, string>, old_name: string, new_name: string, after: map<string, string>)
    requires |old_name| > 0 && new_name !in before && old_name != new_name
    requires IsRenamed(before, old_name, new_name, after)
    ensures Rewritten(before, old_name, new_name, after)
  {
    hide Substitute;
    forall e
      ensures e in after <==> (e in before && e != old_name) || (e == new_name && old_name in before)
    {
      if e in after {
        var n :| n in before && RenameName(n, old_name, new_name) == e;
      }
      if e in before && e != old_name {
        assert RenameName(e, old_name, new_name) == e;
      }
      if e == new_name && old_name in before {
        assert RenameName(old_name, old_name, new_name) == e;
      }
    }
    forall e | e in before
      ensures (if e == old_name then new_name else e) in after
      ensures after[if e == old_name then new_name else e] == Substitute(before[e], old_name, new_name)
    {
      assert RenameName(e, old_name, new_name) == if e == old_name then new_name else e;
    }
  }

  function MoveKey<V>(m: map<string, V>, old_name: string, new_name: string): (r: map<string, V>)
    ensures new_name !in m ==> r.Keys == RenamedNames(m.Keys, old_name, new_name)
    ensures new_name !in m ==> forall k :: k in m ==> r[RenameName(k, old_name, new_name)] == m[k]
  {
    if old_name !in m then
      assert RenamedNames(m.Keys, old_name, new_name) == m.Keys;
      m
    else
      var r := (m - {old_name})[new_name := m[old_name]];
      assert new_name !in m ==> r.Keys == RenamedNames(m.Keys, old_name, new_name) by {
        if new_name !in m {
          assert forall k :: k in m ==> RenameName(k, old_name, new_name) in r;
          assert old_name in m.Keys && RenameName(old_name, old_name, new_name) == new_name;
          forall k | k in r.Keys
            ensures k in RenamedNames(m.Keys, old_name, new_name)
          {
            if k != new_name {
              assert k in m.Keys && RenameName(k, old_name, new_name) == k;
            }
          }
        }
      }
      r
  }

  class SignalManager<D> {
    var signals: map<string, D>
    var expressions: map<string, string>
    var source_map: map<string, Source>

    /** Formulas and sources belong to signals. */
    ghost predicate Valid()
      reads this
    {
      expressions.Keys <= signals.Keys && source_map.Keys <= signals.Keys
    }

    constructor ()
      ensures Valid() && signals == map[] && expressions == map[] && source_map == map[]
    {
      signals, expressions, source_map := map[], map[], map[];
    }

    method AddImportedSignal(name: string, data: D, source: Source)
      requires Valid()
      modifies this
      ensures Valid() && signals == old(signals)[name := data] && source_map == old(source_map)[name := source]
      ensures expressions == old(expressions)
    {
      signals := signals[name := data];
      source_map := source_map[name := source];
    }

    method AddExpressionSignal(name: string, data: D, expression: string)
      requires Valid()
      modifies this
      ensures Valid() && signals == old(signals)[name := data] && expressions == old(expressions)[name := expression]
      ensures source_map == old(source_map)
    {
      signals := signals[name := data];
      expressions := expressions[name := expression];
    }

    /** The signal goes, with its formula and its source; a name that is not a signal changes nothing. */
    method DeleteSignal(name: string)
      requires Valid()
      modifies this
      ensures Valid()
      ensures signals == old(signals) - {name} && expressions == old(expressions) - {name} &&
              source_map == old(source_map) - {name}
    {
      if name in signals {
        signals := signals - {name};
        expressions := expressions - {name};
        source_map := source_map - {name};
      }
    }

    method DeleteSignals(names: set<string>)
      requires Valid()
      modifies this
      ensures Valid()
      ensures signals == old(signals) - names && expressions == old(expressions) - names &&
              source_map == old(source_map) - names
    {
      var todo := names;
      while todo != {}
        invariant Valid() && todo <= names
        invariant signals == old(signals) - (names - todo)
        invariant expressions == old(expressions) - (names - todo) && source_map == old(source_map) - (names - todo)
        decreases |todo|
      {
        var name :| name in todo;
        DeleteSignal(name);
        todo := todo - {name};
      }
    }

    /** The second half of a renaming: every formula is rewritten, in any order. */
    method RewriteFormulas(old_name: string, new_name: string)
      requires Valid() && |old_name| > 0
      modifies this`expressions
      ensures Valid() && expressions.Keys == old(expressions).Keys
      ensures forall e :: e in expressions ==> expressions[e] == Substitute(old(expressions)[e], old_name, new_name)
    {
      hide Substitute;
      var todo := expressions.Keys;
      while todo != {}
        invariant todo <= expressions.Keys == old(expressions).Keys
        invariant forall e :: e in expressions ==>
          expressions[e] == if e in todo then old(expressions)[e]
            else Substitute(old(expressions)[e], old_name, new_name)
        decreases |todo|
      {
        var name :| name in todo;
        expressions := expressions[name := Substitute(expressions[name], old_name, new_name)];
        todo := todo - {name};
      }
    }

    /** Files the signal under its new name in the three dictionaries. */
    method MoveEntries(old_name: string, new_name: string)
      requires Valid() && old_name in signals && new_name !in signals
      modifies this
      ensures Valid()
      ensures signals == RenamedSignals(old(signals), old_name, new_name)
      ensures expressions == MoveKey(old(expressions), old_name, new_name)
      ensures source_map == MoveKey(old(source_map), old_name, new_name)
    {
      signals := (signals - {old_name})[new_name := signals[old_name]];
      if old_name in expressions {
        expressions := (expressions - {old_name})[new_name := expressions[old_name]];
      }
      if old_name in source_map {
        source_map := (source_map - {old_name})[new_name := source_map[old_name]];
      }
    }

    /** The data, the formula and the source move to the sanitized new name, and every formula is rewritten;
        a taken name or a missing signal changes nothing. */
    method RenameSignal(old_name: string, new_name: string) returns (r: RenameResult)
      requires Valid() && |old_name| > 0
      modifies this
      ensures Valid()
      ensures r == if old_name == new_name || new_name == "" then Unchanged
                   else if Sanitized(new_name) in old(signals) then NameExists
                   else if old_name !in old(signals) then NoSuchSignal
                   else Renamed(Sanitized(new_name))
      ensures r.NameExists? ==>
        exists n :: n in old(signals) && |n| == |new_name| &&
                    forall i :: 0 <= i < |n| ==>
                      var c := new_name[i];
                      n[i] == if 'a' <= c <= 'z' || 'A' <= c <= 'Z' || '0' <= c <= '9' || c == '_' then c else '_'
      ensures r.Renamed? ==>
        && r.name !in old(signals) && |r.name| == |new_name|
        && forall i :: 0 <= i < |new_name| ==>
             var c := new_name[i];
             r.name[i] == if 'a' <= c <= 'z' || 'A' <= c <= 'Z' || '0' <= c <= '9' || c == '_' then c else '_'
      ensures !r.Renamed? ==>
        signals == old(signals) && expressions == old(expressions) && source_map == old(source_map)
      ensures r.Renamed? ==>
        && signals == RenamedSignals(old(signals), old_name, r.name)
        && IsRenamed(old(expressions), old_name, r.name, expressions)
        && source_map == MoveKey(old(source_map), old_name, r.name)
      ensures r.Renamed? ==>
        && MovedTo(old(signals), old_name, r.name, signals)
        && MovedTo(old(source_map), old_name, r.name, source_map)
        && Rewritten(old(expressions), old_name, r.name, expressions)
    {
      if old_name == new_name || new_name == "" {
        return Unchanged;
      }
      var name := Sanitized(new_name);
      SanitizedIsWord(new_name);
      if name in signals {
        return NameExists;
      }
      if old_name !in signals {
        return NoSuchSignal;
      }
      ghost var exprs, signals0, sources0 := expressions, signals, source_map;
      hide Substitute, IsRenamed, MoveKey, RenamedSignals, MovedTo, Rewritten;
      MoveEntries(old_name, name);
      ghost var moved := expressions;
      RewriteFormulas(old_name, name);
      MovedAndRewritten(exprs, old_name, name, moved, expressions);
      hide *;
      SignalMoved(signals0, old_name, name, signals);
      KeyMoved(sources0, old_name, name, source_map);
      RenamedIsRewritten(exprs, old_name, name, expressions);
      return Renamed(name);
    }
  }
}
