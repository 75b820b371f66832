// The transitive dependents of a set of signals, as contrib/Post/NCPost.py collects them before a deletion.
module Dependencies {
  import opened Formulas

  ghost predicate MentionsAny(expr: string, names: set<string>) {
    exists sig :: sig in names && Mentions(expr, sig)
  }

  /** Every expression that mentions a name of the set is in the set. */
  ghost predicate ClosedUnder(exprs: map<string, string>, names: set<string>) {
    forall e :: e in exprs && MentionsAny(exprs[e], names) ==> e in names
  }

  /** The names belong to every closed set with the missing signals. */
  ghost predicate WithinEvery(exprs: map<string, string>, missing: set<string>, names: set<string>) {
    forall other: set<string> :: missing <= other && ClosedUnder(exprs, other) ==> names <= other
  }

  /** The least closed set with the missing signals. */
  ghost predicate IsClosure(exprs: map<string, string>, missing: set<string>, names: set<string>) {
    missing <= names && ClosedUnder(exprs, names) && WithinEvery(exprs, missing, names)
  }

  /** There is only one, so that the order of the dictionary cannot matter. */
  lemma ClosureUnique(exprs: map<string, string>, missing: set<string>, a: set<string>, b: set<string>)
    requires IsClosure(exprs, missing, a) && IsClosure(exprs, missing, b)
    ensures a == b
  {
  }

  /** The name is missing, or an expression that mentions one that reaches a missing signal in a step less. */
  ghost predicate Reaches(exprs: map<string, string>, missing: set<string>, name: string, k: nat)
    decreases k
  {
    if k == 0 then name in missing
    else name in exprs && exists sig :: Mentions(exprs[name], sig) && Reaches(exprs, missing, sig, k - 1)
  }

  ghost predicate Depends(exprs: map<string, string>, missing: set<string>, name: string) {
    exists k: nat :: Reaches(exprs, missing, name, k)
  }

  lemma {:induction false} ReachedIsIn(exprs: map<string, string>, missing: set<string>, names: set<string>,
                                       name: string, k: nat)
    requires missing <= names && ClosedUnder(exprs, names) && Reaches(exprs, missing, name, k)
    ensures name in names
    decreases k
  {
    if k > 0 {
      var sig :| Mentions(exprs[name], sig) && Reaches(exprs, missing, sig, k - 1);
      ReachedIsIn(exprs, missing, names, sig, k - 1);
      assert MentionsAny(exprs[name], names);
    }
  }

  /** The members of the closure are those with a chain of mentions down to a missing signal. */
  lemma ClosureIsDependents(exprs: map<string, string>, missing: set<string>, names: set<string>, name: string)
    requires IsClosure(exprs, missing, names)
    ensures name in names <==> Depends(exprs, missing, name)
  {
    if Depends(exprs, missing, name) {
      var k: nat :| Reaches(exprs, missing, name, k);
      ReachedIsIn(exprs, missing, names, name, k);
    }
    var reached := set n | n in missing + exprs.Keys && Depends(exprs, missing, n);
    forall n | n in missing
      ensures n in reached
    {
      assert Reaches(exprs, missing, n, 0);
    }
    forall e | e in exprs && MentionsAny(exprs[e], reached)
      ensures e in reached
    {
      var sig :| sig in reached && Mentions(exprs[e], sig);
      var k: nat :| Reaches(exprs, missing, sig, k);
      assert Reaches(exprs, missing, e, k + 1);
    }
    assert names <= reached;
  }

  /** The inner loop: does the formula mention one of the names? */
  method FindMention(expr: string, names: set<string>) returns (found: bool)
    ensures found <==> MentionsAny(expr, names)
  {
    var rest := names;
    found := false;
    while rest != {} && !found
      invariant rest <= names
      invariant found ==> MentionsAny(expr, names)
      invariant !found ==> forall sig :: sig in names && sig !in rest ==> !Mentions(expr, sig)
      decreases |rest|
    {
      var sig :| sig in rest;
      if Mentions(expr, sig) {
        found := true;
      }
      rest := rest - {sig};
    }
  }

  /** One pass over the dictionary, in any order. */
  method DependencyPass(exprs: map<string, string>, all: set<string>, ghost missing: set<string>)
    returns (grown: set<string>, changed: bool)
    requires missing <= all && all <= missing + exprs.Keys
    requires WithinEvery(exprs, missing, all)
    ensures all <= grown <= missing + exprs.Keys && (changed <==> grown != all)
    ensures WithinEvery(exprs, missing, grown)
    ensures !changed ==> ClosedUnder(exprs, grown)
  {
    hide WithinEvery;
    grown, changed := all, false;
    var todo := exprs.Keys;
    while todo != {}
      invariant todo <= exprs.Keys && all <= grown <= missing + exprs.Keys && (changed <==> grown != all)
      invariant WithinEvery(exprs, missing, grown)
      invariant !changed ==> forall e :: e in exprs && e !in todo && MentionsAny(exprs[e], all) ==> e in all
      decreases |todo|
    {
      var name :| name in todo;
      todo := todo - {name};
      if name !in grown {
        var found := FindMention(exprs[name], grown);
        if found {
          GrowsWithin(exprs, missing, grown, name);
          grown, changed := grown + {name}, true;
        }
      }
    }
  }

  lemma GrowsWithin(exprs: map<string, string>, missing: set<string>, grown: set<string>, name: string)
    requires name in exprs && MentionsAny(exprs[name], grown)
    requires WithinEvery(exprs, missing, grown)
    ensures WithinEvery(exprs, missing, grown + {name})
  {
    var sig :| sig in grown && Mentions(exprs[name], sig);
    forall other | missing <= other && ClosedUnder(exprs, other)
      ensures grown + {name} <= other
    {
      assert MentionsAny(exprs[name], other);
    }
  }

  /** The loop ends within one more pass than there are expressions, with exactly the least closed set. */
  method FindDependentExprs(missing: set<string>, exprs: map<string, string>)
    returns (dependents: set<string>, passes: nat)
    ensures IsClosure(exprs, missing, missing + dependents)
    ensures dependents !! missing && dependents <= exprs.Keys
    ensures passes <= |exprs| + 1
  {
    var all := missing;
    var changed := true;
    assert WithinEvery(exprs, missing, all);
    hide WithinEvery, ClosedUnder;
    passes := 0;
    ghost var bound := missing + exprs.Keys;
    while changed
      invariant missing <= all <= bound && WithinEvery(exprs, missing, all)
      invariant !changed ==> ClosedUnder(exprs, all)
      invariant passes <= |all - missing| + (if changed then 0 else 1)
      decreases changed, |bound| - |all|
    {
      ghost var before := all;
      all, changed := DependencyPass(exprs, all, missing);
      passes := passes + 1;
      Grown(missing, before, all, bound, changed);
    }
    dependents := all - missing;
    assert missing + dependents == all;
    Bounded(dependents, exprs.Keys);
  }

  lemma Grown(missing: set<string>, before: set<string>, all: set<string>, bound: set<string>, changed: bool)
    requires missing <= before <= all <= bound && (changed <==> all != before)
    ensures |all - missing| >= |before - missing| + (if changed then 1 else 0)
    ensures |before| + (if changed then 1 else 0) <= |all| <= |bound|
  {
    Bounded(all, bound);
    if changed {
      var n :| n in all && n !in before;
      assert n in all - missing && n !in before - missing;
      assert before - missing < all - missing;
      Larger(before - missing, all - missing);
      Larger(before, all);
    }
  }

  lemma Bounded(a: set<string>, b: set<string>)
    requires a <= b
    ensures |a| <= |b|
  {
    assert b == a + (b - a);
  }

  lemma Larger(a: set<string>, b: set<string>)
    requires a < b
    ensures |a| < |b|
  {
    assert b == a + (b - a) && b - a != {};
  }

  // ----- renaming

  /** The expressions after a renaming: the entry of the old name moves, and every formula is rewritten. */
  ghost predicate IsRenamed(exprs: map<string, string>, old_name: string, new_name: string, exprs': map<string, string>)
    requires |old_name| > 0
  {
    && exprs'.Keys == RenamedNames(exprs.Keys, old_name, new_name)
    && forall e :: e in exprs ==> exprs'[RenameName(e, old_name, new_name)] == Substitute(exprs[e], old_name, new_name)
  }

  ghost function RenamedNames(names: set<string>, old_name: string, new_name: string): set<string> {
    set n | n in names :: RenameName(n, old_name, new_name)
  }

  ghost predicate WordNames(names: set<string>) {
    forall n :: n in names ==> WordName(n)
  }

  /** A mention of a member of the set stays a mention of its new name. */
  lemma MentionKept(s: string, old_name: string, new_name: string, name: string)
    requires WordName(old_name) && WordName(new_name) && WordName(name) && name != new_name && old_name != new_name
    requires Mentions(s, name)
    ensures Mentions(Substitute(s, old_name, new_name), RenameName(name, old_name, new_name))
  {
    SubstituteMentions(s, old_name, new_name, RenameName(name, old_name, new_name));
  }

  /** A mention of a renamed name comes from a mention of the name, or of the new name if it is that. */
  lemma MentionComes(s: string, old_name: string, new_name: string, name: string)
    requires WordName(old_name) && WordName(new_name) && WordName(name) && name != new_name && old_name != new_name
    requires Mentions(Substitute(s, old_name, new_name), RenameName(name, old_name, new_name))
    ensures Mentions(s, name) || (name == old_name && Mentions(s, new_name))
  {
    SubstituteMentions(s, old_name, new_name, RenameName(name, old_name, new_name));
  }

  /** If the old name is in the set, so is every expression that mentions the new one. */
  ghost predicate NoCapture(exprs: map<string, string>, names: set<string>, old_name: string, new_name: string) {
    old_name in names ==> forall e :: e in exprs && Mentions(exprs[e], new_name) ==> e in names
  }

  /** The renamed closure is the closure of the renamed set, that is, a renaming maps the dependents exactly onto the
      dependents, if and only if no other expression mentioned the new name already. */
  lemma ClosureRenamesExactly(exprs: map<string, string>, exprs': map<string, string>, missing: set<string>,
                              names: set<string>, old_name: string, new_name: string)
    requires WordName(old_name) && WordName(new_name) && old_name != new_name && WordNames(names)
    requires IsRenamed(exprs, old_name, new_name, exprs') && new_name !in names && new_name !in exprs
    requires IsClosure(exprs, missing, names)
    ensures IsClosure(exprs', RenamedNames(missing, old_name, new_name), RenamedNames(names, old_name, new_name))
       <==> NoCapture(exprs, names, old_name, new_name)
  {
    hide Mentions, Substitute, WordName, IsRenamed, WordNames;
    var missing', names' := RenamedNames(missing, old_name, new_name), RenamedNames(names, old_name, new_name);
    forall n | n in missing
      ensures RenameName(n, old_name, new_name) in names'
    {
    }
    forall other' | missing' <= other' && ClosedUnder(exprs', other')
      ensures names' <= other'
    {
      LeastRenames(exprs, exprs', missing, names, old_name, new_name, other');
    }
    if NoCapture(exprs, names, old_name, new_name) {
      ClosedRenames(exprs, exprs', names, old_name, new_name);
    } else {
      var e :| e in exprs && Mentions(exprs[e], new_name) && e !in names;
      CapturedStaysOut(exprs, exprs', names, old_name, new_name, e);
    }
  }

  lemma ClosedRenames(exprs: map<string, string>, exprs': map<string, string>, names: set<string>,
                      old_name: string, new_name: string)
    requires WordName(old_name) && WordName(new_name) && old_name != new_name && WordNames(names)
    requires IsRenamed(exprs, old_name, new_name, exprs') && new_name !in names
    requires ClosedUnder(exprs, names) && NoCapture(exprs, names, old_name, new_name)
    ensures ClosedUnder(exprs', RenamedNames(names, old_name, new_name))
  {
    hide Mentions, Substitute, WordName;
    var names' := RenamedNames(names, old_name, new_name);
    forall e' | e' in exprs' && MentionsAny(exprs'[e'], names')
      ensures e' in names'
    {
      assert e' in RenamedNames(exprs.Keys, old_name, new_name);
      var e :| e in exprs && e' == RenameName(e, old_name, new_name);
      var sig' :| sig' in names' && Mentions(exprs'[e'], sig');
      var sig :| sig in names && sig' == RenameName(sig, old_name, new_name);
      MentionComes(exprs[e], old_name, new_name, sig);
      assert Mentions(exprs[e], sig) ==> MentionsAny(exprs[e], names);
      assert e in names;
    }
  }

  /** An expression outside the set that mentions the new name would have to enter the renamed set. */
  lemma CapturedStaysOut(exprs: map<string, string>, exprs': map<string, string>, names: set<string>,
                         old_name: string, new_name: string, e: string)
    requires WordName(old_name) && WordName(new_name) && old_name != new_name
    requires IsRenamed(exprs, old_name, new_name, exprs') && new_name !in exprs
    requires old_name in names && e in exprs && Mentions(exprs[e], new_name) && e !in names
    ensures !ClosedUnder(exprs', RenamedNames(names, old_name, new_name))
  {
    hide Mentions, Substitute, WordName;
    var names', e' := RenamedNames(names, old_name, new_name), RenameName(e, old_name, new_name);
    SubstituteMentions(exprs[e], old_name, new_name, new_name);
    assert RenameName(old_name, old_name, new_name) in names';
    assert e' in exprs'.Keys && MentionsAny(exprs'[e'], names');
    assert e' !in names';
  }

  lemma LeastRenames(exprs: map<string, string>, exprs': map<string, string>, missing: set<string>, names: set<string>,
                     old_name: string, new_name: string, other': set<string>)
    requires WordName(old_name) && WordName(new_name) && old_name != new_name && WordNames(names)
    requires IsRenamed(exprs, old_name, new_name, exprs') && new_name !in names
    requires IsClosure(exprs, missing, names)
    requires RenamedNames(missing, old_name, new_name) <= other' && ClosedUnder(exprs', other')
    ensures RenamedNames(names, old_name, new_name) <= other'
  {
    hide Mentions, Substitute, WordName;
    var other := set n | n in names && RenameName(n, old_name, new_name) in other';
    forall n | n in missing
      ensures n in other
    {
      assert RenameName(n, old_name, new_name) in RenamedNames(missing, old_name, new_name);
    }
    forall e | e in exprs && MentionsAny(exprs[e], other)
      ensures e in other
    {
      var sig :| sig in other && Mentions(exprs[e], sig);
      assert MentionsAny(exprs[e], names);
      MentionKept(exprs[e], old_name, new_name, sig);
      var e' := RenameName(e, old_name, new_name);
      assert e' in exprs'.Keys;
      assert MentionsAny(exprs'[e'], other');
    }
    assert names <= other;
  }

  /** No formula mentions the new name yet, and no signal has it. */
  ghost predicate Unused(exprs: map<string, string>, names: set<string>, new_name: string) {
    new_name !in names && new_name !in exprs && forall e :: e in exprs ==> !Mentions(exprs[e], new_name)
  }

  /** So it does for every set of signals when the new name is unused. */
  lemma ClosureRenames(exprs: map<string, string>, exprs': map<string, string>, missing: set<string>,
                       names: set<string>, old_name: string, new_name: string)
    requires WordName(old_name) && WordName(new_name) && old_name != new_name && WordNames(names)
    requires IsRenamed(exprs, old_name, new_name, exprs') && Unused(exprs, names, new_name)
    requires IsClosure(exprs, missing, names)
    ensures IsClosure(exprs', RenamedNames(missing, old_name, new_name), RenamedNames(names, old_name, new_name))
  {
    ClosureRenamesExactly(exprs, exprs', missing, names, old_name, new_name);
  }

  /** The failing input: e = "y" mentions y before x is renamed to y, and nothing depends on x. */
  lemma RenameGainsDependent()
    ensures var exprs := map["e" := "y"];
      && IsClosure(exprs, {"x"}, {"x"}) && IsRenamed(exprs, "x", "y", exprs)
      && !IsClosure(exprs, RenamedNames({"x"}, "x", "y"), RenamedNames({"x"}, "x", "y"))
  {
    var exprs := map["e" := "y"];
    SingleLetter('y', "x");
    SingleLetter('y', "y");
    PatternIsMatch("y", "x", 0);
    assert !MatchAt("y", "x", 0);
    assert Substitute("y", "x", "y") == "y";
    assert !MentionsAny(exprs["e"], {"x"});
    assert IsRenamed(exprs, "x", "y", exprs);
    hide IsRenamed, Substitute, Mentions;
    ClosureRenamesExactly(exprs, exprs, {"x"}, {"x"}, "x", "y");
  }

  lemma SingleLetter(c: char, name: string)
    requires IsWord(c) && |name| == 1
    ensures Mentions([c], name) <==> name == [c]
  {
    if name == [c] {
      assert MatchAt([c], name, 0);
    }
  }
}
