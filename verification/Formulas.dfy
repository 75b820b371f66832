// Formulas of contrib/Post/NCPost.py: which names a formula mentions, as the word-boundary searches of the program
// see them, what a renaming does to it, and what it evaluates to.
module Formulas {

  // ----- searching and substituting on characters

  predicate IsWord(c: char) {
    'a' <= c <= 'z' || 'A' <= c <= 'Z' || '0' <= c <= '9' || c == '_'
  }

  predicate WordAt(s: string, i: int) {
    0 <= i < |s| && IsWord(s[i])
  }

  /** The zero-width match of \b. */
  predicate Boundary(s: string, i: int) {
    WordAt(s, i - 1) != WordAt(s, i)
  }

  /** A match of \bname\b at i. */
  predicate MatchAt(s: string, name: string, i: int) {
    && 0 <= i <= |s| - |name|
    && s[i..i + |name|] == name
    && Boundary(s, i) && Boundary(s, i + |name|)
  }

  predicate Mentions(s: string, name: string) {
    exists i :: 0 <= i <= |s| && MatchAt(s, name, i)
  }

  /** A match at i of a name used as a pattern without escaping: a period stands for any character but a line end. */
  predicate PatternAt(s: string, pattern: string, i: int) {
    && 0 <= i <= |s| - |pattern|
    && (forall k :: 0 <= k < |pattern| ==> CharMatches(pattern[k], s[i + k]))
    && Boundary(s, i) && Boundary(s, i + |pattern|)
  }

  predicate CharMatches(p: char, c: char) {
    if p == '.' then c != '\n' else c == p
  }

  /** A name without periods, as a pattern, matches just itself. */
  lemma PatternIsMatch(s: string, name: string, i: int)
    requires '.' !in name
    ensures PatternAt(s, name, i) <==> MatchAt(s, name, i)
  {
    hide Boundary;
    if 0 <= i <= |s| - |name| {
      var t := s[i..i + |name|];
      assert forall k :: 0 <= k < |name| ==> t[k] == s[i + k];
      if forall k :: 0 <= k < |name| ==> CharMatches(name[k], s[i + k]) {
        assert t == name;
      }
    }
  }

  /** The formula is `before`, the name and `after`, and the name is cut off on both sides: at either end just one of
      the two neighbours is a word character. */
  ghost predicate CutOut(s: string, before: string, name: string, after: string)
    requires |name| > 0
  {
    && s == before + name + after
    && IsWord(name[0]) != (before != "" && IsWord(before[|before| - 1]))
    && IsWord(name[|name| - 1]) != (after != "" && IsWord(after[0]))
  }

  /** A mention is an occurrence of the name, special characters and all, that is cut off. */
  lemma MentionSplits(s: string, name: string)
    requires |name| > 0
    ensures Mentions(s, name) <==> exists before, after :: CutOut(s, before, name, after)
  {
    hide MatchAt;
    if Mentions(s, name) {
      var i :| 0 <= i <= |s| && MatchAt(s, name, i);
      MatchCutsOut(s, name, i);
    }
    if before, after :| CutOut(s, before, name, after) {
      CutOutMatches(s, before, name, after);
    }
  }

  lemma MatchCutsOut(s: string, name: string, i: nat)
    requires |name| > 0 && MatchAt(s, name, i)
    ensures CutOut(s, s[..i], name, s[i + |name|..])
  {
    assert s == s[..i] + name + s[i + |name|..];
    assert name[0] == s[i] && name[|name| - 1] == s[i + |name| - 1];
  }

  lemma CutOutMatches(s: string, before: string, name: string, after: string)
    requires |name| > 0 && CutOut(s, before, name, after)
    ensures MatchAt(s, name, |before|)
  {
    assert s[|before|..|before| + |name|] == name;
    assert before != "" ==> s[|before| - 1] == before[|before| - 1];
    assert after != "" ==> s[|before| + |name|] == after[0];
    assert s[|before|] == name[0] && s[|before| + |name| - 1] == name[|name| - 1];
  }

  /** The text is the name, except where the name has a period: there it is any character but a line end. */
  ghost predicate UpToPeriods(text: string, name: string) {
    |text| == |name| && forall k :: 0 <= k < |name| ==> text[k] == name[k] || (name[k] == '.' && text[k] != '\n')
  }

  /** Used as a pattern, a name matches itself and besides just the texts that are the name up to its periods. */
  lemma PatternUpToPeriods(s: string, name: string, i: int)
    ensures MatchAt(s, name, i) ==> PatternAt(s, name, i)
    ensures PatternAt(s, name, i) <==> exists text :: MatchAt(s, text, i) && UpToPeriods(text, name)
  {
    hide Boundary;
    if MatchAt(s, name, i) || PatternAt(s, name, i) {
      var text := s[i..i + |name|];
      assert MatchAt(s, text, i);
      assert forall k :: 0 <= k < |name| ==> text[k] == s[i + k];
    }
    if text :| MatchAt(s, text, i) && UpToPeriods(text, name) {
      var t := s[i..i + |name|];
      assert t == text;
      assert forall k :: 0 <= k < |name| ==> t[k] == s[i + k];
    }
  }

  /** Replaces the matches from position i on, from left to right. */
  function SubstituteFrom(s: string, i: nat, old_name: string, new_name: string): string
    requires i <= |s| && |old_name| > 0
    decreases |s| - i
  {
    if i == |s| then []
    else if PatternAt(s, old_name, i) then new_name + SubstituteFrom(s, i + |old_name|, old_name, new_name)
    else [s[i]] + SubstituteFrom(s, i + 1, old_name, new_name)
  }

  function Substitute(s: string, old_name: string, new_name: string): string
    requires |old_name| > 0
  {
    SubstituteFrom(s, 0, old_name, new_name)
  }

  /** A non-empty string of word characters. */
  predicate WordName(name: string) {
    |name| > 0 && forall i :: 0 <= i < |name| ==> IsWord(name[i])
  }

  /** The words that Python reads as syntax or as constants of its own: never looked up as names. */
  predicate IsReserved(name: string) {
    name in {
      "False", "None", "True", "__debug__", "and", "as", "assert", "async", "await", "break", "class", "continue",
      "def", "del", "elif", "else", "except", "finally", "for", "from", "global", "if", "import", "in", "is", "lambda",
      "nonlocal", "not", "or", "pass", "raise", "return", "try", "while", "with", "yield"
    }
  }

  predicate IsIdentifier(name: string) {
    WordName(name) && !('0' <= name[0] <= '9') && !IsReserved(name)
  }

  /** A letter or an underscore, then letters, digits and underscores, and not a reserved word. */
  lemma IdentifierShape(name: string)
    ensures IsIdentifier(name) <==>
      && |name| > 0 && ('a' <= name[0] <= 'z' || 'A' <= name[0] <= 'Z' || name[0] == '_')
      && (forall i :: 1 <= i < |name| ==> IsWord(name[i]))
      && !IsReserved(name)
  {
    hide IsReserved;
  }

  // ----- tokens

  datatype Token = Word(text: string) | Other(c: char)

  function WordLength(s: string): (k: nat)
    ensures k <= |s| && (forall i :: 0 <= i < k ==> IsWord(s[i])) && (k < |s| ==> !IsWord(s[k]))
  {
    if s == [] || !IsWord(s[0]) then 0 else 1 + WordLength(s[1..])
  }

  /** The maximal words of a formula and the characters between them. */
  function Tokens(s: string): seq<Token>
    decreases |s|
  {
    if s == [] then []
    else if !IsWord(s[0]) then [Other(s[0])] + Tokens(s[1..])
    else
      var k := WordLength(s);
      assert k > 0;
      [Word(s[..k])] + Tokens(s[k..])
  }

  /** No word goes on across the position. */
  ghost predicate Splits(s: string, i: int) {
    0 <= i <= |s| && !(WordAt(s, i - 1) && WordAt(s, i))
  }

  ghost predicate WordRun(s: string, i: int, j: int) {
    forall p :: i <= p < j ==> WordAt(s, p)
  }

  lemma TokensOfWord(w: string, rest: string)
    requires WordName(w) && (rest == [] || !IsWord(rest[0]))
    ensures Tokens(w + rest) == [Word(w)] + Tokens(rest)
  {
    var s := w + rest;
    assert forall i :: 0 <= i < |w| ==> s[i] == w[i];
    assert |w| < |s| ==> s[|w|] == rest[0];
    WordLengthIs(s, |w|);
    assert s[..|w|] == w && s[|w|..] == rest;
  }

  lemma {:induction false} WordLengthIs(s: string, k: nat)
    requires k <= |s| && (forall i :: 0 <= i < k ==> IsWord(s[i])) && (k < |s| ==> !IsWord(s[k]))
    ensures WordLength(s) == k
  {
  }

  lemma TokensOfOther(c: char, rest: string)
    requires !IsWord(c)
    ensures Tokens([c] + rest) == [Other(c)] + Tokens(rest)
  {
  }

  lemma WordFrom(s: string, i: nat, j: nat)
    requires i < |s| && IsWord(s[i]) && j == i + WordLength(s[i..])
    ensures i < j <= |s| && !WordAt(s, j) && WordName(s[i..j]) && WordRun(s, i, j)
  {
  }

  /** At the start of a word, the only candidate for a match is the whole word. */
  lemma MatchIsWholeWord(s: string, i: nat, name: string)
    requires Splits(s, i) && i < |s| && IsWord(s[i]) && WordName(name)
    ensures var j := i + WordLength(s[i..]);
      i < j <= |s| && Splits(s, j) && !WordAt(s, j) && WordName(s[i..j]) && WordRun(s, i, j) &&
        (MatchAt(s, name, i) <==> s[i..j] == name)
  {
    var j := i + WordLength(s[i..]);
    WordFrom(s, i, j);
    if MatchAt(s, name, i) {
      var e := i + |name|;
      assert e >= j;
      assert forall q :: i <= q < e ==> s[q] == s[i..e][q - i] == name[q - i];
      assert e <= j;
    }
  }

  /** Inside a word nothing matches, nor at a character that is not part of one. */
  lemma NoMatch(s: string, i: nat, name: string)
    requires i < |s| && WordName(name) && (IsWord(s[i]) ==> WordAt(s, i - 1))
    ensures !MatchAt(s, name, i) && !PatternAt(s, name, i)
  {
    assert '.' !in name;
    PatternIsMatch(s, name, i);
  }

  lemma SubstituteSkips(s: string, i: nat, old_name: string, new_name: string)
    requires i < |s| && |old_name| > 0 && !PatternAt(s, old_name, i)
    ensures SubstituteFrom(s, i, old_name, new_name) == [s[i]] + SubstituteFrom(s, i + 1, old_name, new_name)
  {
  }

  lemma SubstituteHit(s: string, i: nat, old_name: string, new_name: string)
    requires |old_name| > 0 && PatternAt(s, old_name, i)
    ensures SubstituteFrom(s, i, old_name, new_name) == new_name + SubstituteFrom(s, i + |old_name|, old_name, new_name)
  {
  }

  lemma WordHasNoPeriod(name: string)
    requires WordName(name)
    ensures |name| > 0 && '.' !in name
  {
  }

  lemma {:induction false} SubstituteInside(s: string, i: nat, j: nat, old_name: string, new_name: string)
    requires 0 < i <= j <= |s| && WordName(old_name) && WordRun(s, i - 1, j)
    ensures SubstituteFrom(s, i, old_name, new_name) == s[i..j] + SubstituteFrom(s, j, old_name, new_name)
    decreases j - i
  {
    hide MatchAt, PatternAt, IsWord, SubstituteFrom;
    if i == j {
      assert s[i..j] == [];
    } else {
      assert WordAt(s, i - 1);
      NoMatch(s, i, old_name);
      SubstituteSkips(s, i, old_name, new_name);
      SubstituteInside(s, i + 1, j, old_name, new_name);
      assert s[i..j] == [s[i]] + s[i + 1..j];
    }
  }

  lemma SubstituteOther(s: string, i: nat, old_name: string, new_name: string)
    requires i < |s| && WordName(old_name) && !IsWord(s[i])
    ensures SubstituteFrom(s, i, old_name, new_name) == [s[i]] + SubstituteFrom(s, i + 1, old_name, new_name)
  {
    hide MatchAt, PatternAt, IsWord;
    NoMatch(s, i, old_name);
    SubstituteSkips(s, i, old_name, new_name);
  }

  /** A word is replaced as a whole or kept. */
  lemma SubstituteWord(s: string, i: nat, j: nat, old_name: string, new_name: string)
    requires Splits(s, i) && i < |s| && IsWord(s[i]) && j == i + WordLength(s[i..]) && WordName(old_name)
    ensures j <= |s| && SubstituteFrom(s, i, old_name, new_name)
         == (if s[i..j] == old_name then new_name else s[i..j]) + SubstituteFrom(s, j, old_name, new_name)
  {
    hide MatchAt, PatternAt, IsWord, Splits, WordLength, WordRun, WordName, SubstituteFrom;
    MatchIsWholeWord(s, i, old_name);
    WordHasNoPeriod(old_name);
    PatternIsMatch(s, old_name, i);
    var w := s[i..j];
    if w == old_name {
      SubstituteHit(s, i, old_name, new_name);
    } else {
      SubstituteSkips(s, i, old_name, new_name);
      SubstituteInside(s, i + 1, j, old_name, new_name);
      assert w == [s[i]] + s[i + 1..j];
    }
  }

  function RenameToken(t: Token, old_name: string, new_name: string): Token {
    if t == Word(old_name) then Word(new_name) else t
  }

  function RenameTokens(ts: seq<Token>, old_name: string, new_name: string): seq<Token> {
    seq(|ts|, i requires 0 <= i < |ts| => RenameToken(ts[i], old_name, new_name))
  }

  lemma RenameFirst(t: Token, ts: seq<Token>, old_name: string, new_name: string)
    ensures RenameTokens([t] + ts, old_name, new_name)
            == [RenameToken(t, old_name, new_name)] + RenameTokens(ts, old_name, new_name)
  {
  }

  /** The substitution on characters is a renaming of tokens. */
  lemma {:induction false} SubstituteFromRenames(s: string, i: nat, old_name: string, new_name: string)
    requires Splits(s, i) && WordName(old_name) && WordName(new_name)
    ensures var r := SubstituteFrom(s, i, old_name, new_name);
      && Tokens(r) == RenameTokens(Tokens(s[i..]), old_name, new_name)
      && (r == [] <==> i == |s|) && (i < |s| ==> IsWord(r[0]) == IsWord(s[i]))
    decreases |s| - i
  {
    hide MatchAt, PatternAt, IsWord, WordLength, WordRun;
    var r := SubstituteFrom(s, i, old_name, new_name);
    if i == |s| {
      assert s[i..] == [];
    } else if !IsWord(s[i]) {
      SubstituteOther(s, i, old_name, new_name);
      hide SubstituteFrom, Tokens, RenameTokens;
      SubstituteFromRenames(s, i + 1, old_name, new_name);
      var rest := SubstituteFrom(s, i + 1, old_name, new_name);
      assert s[i..] == [s[i]] + s[i + 1..];
      TokensOfOther(s[i], rest);
      TokensOfOther(s[i], s[i + 1..]);
      RenameFirst(Other(s[i]), Tokens(s[i + 1..]), old_name, new_name);
    } else {
      var j := i + WordLength(s[i..]);
      MatchIsWholeWord(s, i, old_name);
      SubstituteWord(s, i, j, old_name, new_name);
      hide SubstituteFrom, Tokens, RenameTokens, Splits;
      SubstituteFromRenames(s, j, old_name, new_name);
      var w, rest := s[i..j], SubstituteFrom(s, j, old_name, new_name);
      var w' := if w == old_name then new_name else w;
      FirstTokenIsWord(s, i, j);
      assert !WordAt(s, j) ==> rest == [] || !IsWord(rest[0]);
      TokensOfWord(w', rest);
      RenameFirst(Word(w), Tokens(s[j..]), old_name, new_name);
    }
  }

  lemma SubstituteRenames(s: string, old_name: string, new_name: string)
    requires WordName(old_name) && WordName(new_name)
    ensures Tokens(Substitute(s, old_name, new_name)) == RenameTokens(Tokens(s), old_name, new_name)
  {
    SubstituteFromRenames(s, 0, old_name, new_name);
    assert s[0..] == s;
  }

  /** The search for a word finds it exactly when it is a token. */
  lemma {:induction false} MatchFromIsToken(s: string, i: nat, name: string)
    requires Splits(s, i) && WordName(name)
    ensures FoundFrom(s, i, name) <==> Word(name) in Tokens(s[i..])
    decreases |s| - i
  {
    hide MatchAt, IsWord, WordLength, FoundFrom, WordRun, WordName, Tokens;
    if i == |s| {
      assert s[i..] == [];
      NoTokens();
      SkipMatches(s, i, i, name);
    } else if !IsWord(s[i]) {
      NoMatch(s, i, name);
      SkipMatches(s, i, i + 1, name);
      MatchFromIsToken(s, i + 1, name);
      assert s[i..] == [s[i]] + s[i + 1..];
      TokensOfOther(s[i], s[i + 1..]);
    } else {
      var j := i + WordLength(s[i..]);
      MatchIsWholeWord(s, i, name);
      MatchFromIsToken(s, j, name);
      FirstTokenIsWord(s, i, j);
      SkipMatches(s, i, j, name);
    }
  }

  lemma NoTokens()
    ensures Tokens([]) == []
  {
  }

  lemma FirstTokenIsWord(s: string, i: nat, j: nat)
    requires i < j <= |s| && WordName(s[i..j]) && !WordAt(s, j)
    ensures Tokens(s[i..]) == [Word(s[i..j])] + Tokens(s[j..])
  {
    hide Tokens, WordName;
    assert s[i..] == s[i..j] + s[j..];
    TokensOfWord(s[i..j], s[j..]);
  }

  ghost predicate FoundFrom(s: string, i: nat, name: string) {
    exists p :: i <= p <= |s| && MatchAt(s, name, p)
  }

  /** Nothing is found inside a word, nor at the end of the formula. */
  lemma SkipMatches(s: string, i: nat, j: nat, name: string)
    requires i <= j <= |s| && WordName(name) && (WordRun(s, i, j) || j <= i + 1)
    ensures i < j ==> (FoundFrom(s, i, name) <==> MatchAt(s, name, i) || FoundFrom(s, j, name))
    ensures i == |s| ==> !FoundFrom(s, i, name)
  {
  }

  lemma MentionsToken(s: string, name: string)
    requires WordName(name)
    ensures Mentions(s, name) <==> Word(name) in Tokens(s)
  {
    hide MatchAt, Tokens;
    MatchFromIsToken(s, 0, name);
    assert s[0..] == s;
  }

  function RenameName(name: string, old_name: string, new_name: string): string {
    if name == old_name then new_name else name
  }

  /** What a renamed formula mentions: the old name no longer, the new one where it had either, and the others as
      before. */
  lemma SubstituteMentions(s: string, old_name: string, new_name: string, name: string)
    requires WordName(old_name) && WordName(new_name) && WordName(name) && old_name != new_name
    ensures Mentions(Substitute(s, old_name, new_name), name) <==>
      if name == old_name then false
      else if name == new_name then Mentions(s, old_name) || Mentions(s, new_name)
      else Mentions(s, name)
  {
    var ts, rs := Tokens(s), Tokens(Substitute(s, old_name, new_name));
    SubstituteRenames(s, old_name, new_name);
    MentionsToken(Substitute(s, old_name, new_name), name);
    MentionsToken(s, name);
    MentionsToken(s, old_name);
    assert forall i :: 0 <= i < |ts| ==> rs[i] == RenameToken(ts[i], old_name, new_name);
    if Word(name) in ts && name != old_name {
      var i :| 0 <= i < |ts| && ts[i] == Word(name);
      assert rs[i] == Word(name);
    }
    if Word(old_name) in ts {
      var i :| 0 <= i < |ts| && ts[i] == Word(old_name);
      assert rs[i] == Word(new_name);
    }
  }

  // ----- names with periods

  /** The old name, as a pattern, matches somewhere from i on. */
  ghost predicate PatternFrom(s: string, i: int, pattern: string) {
    exists p :: i <= p <= |s| && PatternAt(s, pattern, p)
  }

  /** Replacements that all lengthen, or all shorten, the text do so in total. */
  lemma {:induction false} SubstituteLength(s: string, i: nat, old_name: string, new_name: string)
    requires i <= |s| && |old_name| > 0
    ensures var r := SubstituteFrom(s, i, old_name, new_name);
      && (|new_name| >= |old_name| ==> |r| >= |s| - i) && (|new_name| <= |old_name| ==> |r| <= |s| - i)
    decreases |s| - i
  {
    hide PatternAt;
    if i < |s| {
      if PatternAt(s, old_name, i) {
        PatternFits(s, old_name, i);
        SubstituteLength(s, i + |old_name|, old_name, new_name);
      } else {
        SubstituteLength(s, i + 1, old_name, new_name);
      }
    }
  }

  lemma PatternFits(s: string, pattern: string, i: int)
    requires PatternAt(s, pattern, i)
    ensures 0 <= i <= |s| - |pattern|
  {
  }

  /** A replacement leaves the text as it was only by putting the new name where it stands already. */
  lemma HitChanges(s: string, i: nat, old_name: string, new_name: string)
    requires |old_name| > 0 && PatternAt(s, old_name, i) && !Mentions(s, new_name)
    ensures SubstituteFrom(s, i, old_name, new_name) != s[i..]
  {
    var e := i + |old_name|;
    SubstituteHit(s, i, old_name, new_name);
    SubstituteLength(s, e, old_name, new_name);
    var r := SubstituteFrom(s, i, old_name, new_name);
    if |new_name| == |old_name| {
      assert r[..|new_name|] == new_name && s[i..][..|new_name|] == s[i..e];
      assert s[i..e] != new_name by {
        assert !MatchAt(s, new_name, i);
      }
    } else {
      assert |r| != |s[i..]|;
    }
  }

  lemma {:induction false} SubstituteFromChanges(s: string, i: nat, old_name: string, new_name: string)
    requires i <= |s| && |old_name| > 0 && !Mentions(s, new_name)
    ensures SubstituteFrom(s, i, old_name, new_name) != s[i..] <==> PatternFrom(s, i, old_name)
    decreases |s| - i
  {
    hide PatternAt, Mentions;
    if i == |s| {
      NothingAtEnd(s, old_name);
    } else if PatternAt(s, old_name, i) {
      HitChanges(s, i, old_name, new_name);
    } else {
      SubstituteSkips(s, i, old_name, new_name);
      SubstituteFromChanges(s, i + 1, old_name, new_name);
      var rest := SubstituteFrom(s, i + 1, old_name, new_name);
      assert s[i..] == [s[i]] + s[i + 1..];
      assert ([s[i]] + rest)[1..] == rest;
    }
  }

  lemma NothingAtEnd(s: string, pattern: string)
    requires |pattern| > 0
    ensures !PatternAt(s, pattern, |s|)
  {
  }

  /** The first match at or after position i is at p. */
  ghost predicate FirstMatch(s: string, i: int, p: int, pattern: string) {
    i <= p <= |s| && PatternAt(s, pattern, p) && forall q :: i <= q < p ==> !PatternAt(s, pattern, q)
  }

  /** The matches are replaced from left to right and do not overlap: up to the first one nothing changes, and the rest
      goes on behind it. */
  lemma {:induction false} SubstituteIsLeftToRight(s: string, i: nat, p: nat, old_name: string, new_name: string)
    requires i <= |s| && |old_name| > 0 && FirstMatch(s, i, p, old_name)
    ensures p + |old_name| <= |s|
    ensures SubstituteFrom(s, i, old_name, new_name)
         == s[i..p] + new_name + SubstituteFrom(s, p + |old_name|, old_name, new_name)
    decreases p - i
  {
    assert p + |old_name| <= |s|;
    hide PatternAt, SubstituteFrom;
    if i < p {
      SubstituteSkips(s, i, old_name, new_name);
      SubstituteIsLeftToRight(s, i + 1, p, old_name, new_name);
      assert s[i..p] == [s[i]] + s[i + 1..p];
      Prepended(s[i], s[i + 1..p], new_name, SubstituteFrom(s, p + |old_name|, old_name, new_name));
    } else {
      SubstituteHit(s, i, old_name, new_name);
      assert s[i..p] == [];
    }
  }

  lemma Prepended(c: char, a: string, b: string, r: string)
    ensures [c] + (a + b + r) == [c] + a + b + r
  {
  }

  lemma {:induction false} NoMatchNoChange(s: string, i: nat, old_name: string, new_name: string)
    requires i <= |s| && |old_name| > 0 && !PatternFrom(s, i, old_name)
    ensures SubstituteFrom(s, i, old_name, new_name) == s[i..]
    decreases |s| - i
  {
    hide PatternAt;
    if i < |s| {
      assert !PatternAt(s, old_name, i);
      NoMatchNoChange(s, i + 1, old_name, new_name);
      assert s[i..] == [s[i]] + s[i + 1..];
    }
  }

  /** A renaming to an unused name changes exactly the formulas in which the old name matches as a pattern. */
  lemma SubstituteChanges(s: string, old_name: string, new_name: string)
    requires |old_name| > 0 && !Mentions(s, new_name)
    ensures Substitute(s, old_name, new_name) != s <==> PatternFrom(s, 0, old_name)
  {
    SubstituteFromChanges(s, 0, old_name, new_name);
    assert s[0..] == s;
  }

  /** A name without periods matches exactly where it is mentioned: then only the formulas that mention it change. */
  lemma PatternIsMention(s: string, name: string)
    requires '.' !in name
    ensures PatternFrom(s, 0, name) <==> Mentions(s, name)
  {
    hide PatternAt, MatchAt;
    forall i
      ensures PatternAt(s, name, i) <==> MatchAt(s, name, i)
    {
      PatternIsMatch(s, name, i);
    }
  }

  /** Renaming a.b rewrites the formula a_b, which does not mention it. */
  lemma RenameRewritesUnmentioned()
    ensures !Mentions("a_b", "a.b") && Substitute("a_b", "a.b", "c") != "a_b"
  {
    var s := "a_b";
    assert PatternAt(s, "a.b", 0);
    assert s[0..3] == s;
    assert !MatchAt(s, "a.b", 0);
    assert forall i {:trigger MatchAt(s, "c", i)} :: 0 <= i < 3 ==> s[i..i + 1][0] != 'c';
    assert !Mentions(s, "c");
    SubstituteChanges(s, "a.b", "c");
  }

  // ----- evaluation

  /** What a token contributes to the value of a formula: the value bound to a name, or its own text. */
  datatype Meaning<D> = Known(value: D) | Literal(t: Token)

  ghost function MeaningOf<D>(t: Token, env: map<string, D>): Meaning<D> {
    if t.Word? && IsIdentifier(t.text) && t.text in env then Known(env[t.text]) else Literal(t)
  }

  /** All that the value of a formula depends on. */
  ghost function Meanings<D>(s: string, env: map<string, D>): seq<Meaning<D>> {
    seq(|Tokens(s)|, i requires 0 <= i < |Tokens(s)| => MeaningOf(Tokens(s)[i], env))
  }

  ghost function RenamedSignals<D>(signals: map<string, D>, old_name: string, new_name: string): map<string, D>
    requires old_name in signals
  {
    (signals - {old_name})[new_name := signals[old_name]]
  }

  /** sin is mentioned as a constant: renaming the signal x to sin captures it. */
  lemma RenameCaptures(x: real, sine: real)
    requires x != sine
    ensures var constants, signals := map["sin" := sine], map["x" := x];
      Meanings(Substitute("sin(x)", "x", "sin"), constants + RenamedSignals(signals, "x", "sin"))
      != Meanings("sin(x)", constants + signals)
  {
    var s := "sin(x)";
    assert !IsReserved("sin");
    hide IsReserved;
    assert s[0..3] == "sin" && MatchAt(s, "sin", 0);
    RenameKeepsMeaning(s, map["sin" := sine], map["x" := x], "x", "sin");
  }

  /** The new name may be a reserved word, which sanitizing lets through: renaming x to lambda turns x+1 into a formula
      that no longer reads the signal. */
  lemma RenameToReserved<D>(constants: map<string, D>, signals: map<string, D>)
    requires "x" in signals && "lambda" !in signals
    ensures Substitute("x+1", "x", "lambda") == "lambda+1"
    ensures Meanings("lambda+1", constants + RenamedSignals(signals, "x", "lambda"))
         != Meanings("x+1", constants + signals)
  {
    var s := "x+1";
    assert IsReserved("lambda");
    assert s[0..1] == "x" && MatchAt(s, "x", 0);
    hide IsReserved, Meanings, Substitute;
    LambdaSubstituted();
    RenameKeepsMeaning(s, constants, signals, "x", "lambda");
  }

  lemma LambdaSubstituted()
    ensures Substitute("x+1", "x", "lambda") == "lambda+1"
  {
    var s := "x+1";
    assert PatternAt(s, "x", 0) && !PatternAt(s, "x", 1) && !PatternAt(s, "x", 2);
    hide PatternAt;
    assert SubstituteFrom(s, 3, "x", "lambda") == "";
    assert SubstituteFrom(s, 2, "x", "lambda") == "1";
    assert SubstituteFrom(s, 1, "x", "lambda") == "+1";
  }

  /** A renaming keeps the meaning of a formula, among the constants of the evaluation context, exactly when both
      names are identifiers if the formula mentions the old one, and the formula did not mention the new one
      (unless as a constant of the same value). */
  lemma RenameKeepsMeaning<D>(s: string, constants: map<string, D>, signals: map<string, D>, old_name: string,
                              new_name: string)
    requires WordName(old_name) && WordName(new_name) && old_name in signals && new_name !in signals
    ensures (Meanings(Substitute(s, old_name, new_name), constants + RenamedSignals(signals, old_name, new_name))
             == Meanings(s, constants + signals))
       <==>
         && (Mentions(s, old_name) ==> IsIdentifier(old_name) && IsIdentifier(new_name))
         && (Mentions(s, new_name) && IsIdentifier(new_name) ==>
               new_name in constants && constants[new_name] == signals[old_name])
  {
    hide Tokens, Mentions, WordName, IsReserved, IsIdentifier;
    SubstituteRenames(s, old_name, new_name);
    MentionsToken(s, old_name);
    MentionsToken(s, new_name);
    TokensKept(s, constants, signals, old_name, new_name);
    var ts := Tokens(s);
    if Word(old_name) in ts {
      var i :| 0 <= i < |ts| && ts[i] == Word(old_name);
      assert TokenKept(ts[i], constants, signals, old_name, new_name) <==>
             IsIdentifier(old_name) && IsIdentifier(new_name);
    }
    if Word(new_name) in ts {
      var i :| 0 <= i < |ts| && ts[i] == Word(new_name);
      assert TokenKept(ts[i], constants, signals, old_name, new_name) <==>
        (IsIdentifier(new_name) ==> new_name in constants && constants[new_name] == signals[old_name]);
    }
  }

  /** A renaming keeps the meaning of the formula when it keeps that of every token. */
  lemma TokensKept<D>(s: string, constants: map<string, D>, signals: map<string, D>, old_name: string,
                      new_name: string)
    requires WordName(old_name) && WordName(new_name) && old_name in signals && new_name !in signals
    requires Tokens(Substitute(s, old_name, new_name)) == RenameTokens(Tokens(s), old_name, new_name)
    ensures Meanings(Substitute(s, old_name, new_name), constants + RenamedSignals(signals, old_name, new_name))
         == Meanings(s, constants + signals)
       <==> forall i :: 0 <= i < |Tokens(s)| ==> TokenKept(Tokens(s)[i], constants, signals, old_name, new_name)
  {
    var env, env' := constants + signals, constants + RenamedSignals(signals, old_name, new_name);
    var ts, rs := Tokens(s), Tokens(Substitute(s, old_name, new_name));
    hide Tokens, WordName, IsReserved, IsIdentifier, MeaningOf, TokenKept, RenameToken, RenamedSignals;
    var m, m' := Meanings(s, env), Meanings(Substitute(s, old_name, new_name), env');
    forall i | 0 <= i < |ts|
      ensures m'[i] == m[i] <==> TokenKept(ts[i], constants, signals, old_name, new_name)
    {
      assert rs[i] == RenameToken(ts[i], old_name, new_name);
      OneTokenKept(ts[i], constants, signals, old_name, new_name);
    }
  }

  lemma OneTokenKept<D>(t: Token, constants: map<string, D>, signals: map<string, D>, old_name: string,
                        new_name: string)
    requires WordName(old_name) && WordName(new_name) && old_name in signals && new_name !in signals
    ensures MeaningOf(RenameToken(t, old_name, new_name), constants + RenamedSignals(signals, old_name, new_name))
         == MeaningOf(t, constants + signals)
       <==> TokenKept(t, constants, signals, old_name, new_name)
  {
    hide WordName, IsIdentifier;
  }

  /** Whether the renaming keeps the meaning of one token. */
  ghost predicate TokenKept<D>(t: Token, constants: map<string, D>, signals: map<string, D>, old_name: string,
                               new_name: string)
    requires old_name in signals
  {
    if t == Word(old_name) then IsIdentifier(old_name) && IsIdentifier(new_name)
    else if t == Word(new_name) then
      IsIdentifier(new_name) ==> new_name in constants && constants[new_name] == signals[old_name]
    else true
  }
}
