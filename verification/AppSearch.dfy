/**
 * Searching the installed applications (src/shell-app.c,
 * src/shell-app-system.c) and refining a search while the user types
 * (js/ui/search.js). Strings are already normalized and case-folded.
 */
module AppSearch {
  import opened Wrappers

  // ---- Substrings -----------------------------------------------------------------

  predicate OccursAt(s: string, t: string, i: nat) {
    i + |t| <= |s| && s[i..i + |t|] == t
  }

  predicate Contains(s: string, t: string) {
    exists i :: 0 <= i <= |s| && OccursAt(s, t, i)
  }

  /** strstr: the first occurrence */
  function StrStr(s: string, t: string, start: nat): (r: Option<nat>)
    requires start <= |s|
    ensures r.None? <==> forall i :: start <= i <= |s| ==> !OccursAt(s, t, i)
    ensures r.Some? ==> start <= r.value <= |s| && OccursAt(s, t, r.value)
                        && forall i :: start <= i < r.value ==> !OccursAt(s, t, i)
    decreases |s| - start
  {
    if OccursAt(s, t, start) then Some(start)
    else if start == |s| then None
    else StrStr(s, t, start + 1)
  }

  lemma ContainsTransitive(s: string, u: string, t: string)
    requires Contains(s, u) && Contains(u, t)
    ensures Contains(s, t)
  {
    var i :| 0 <= i <= |s| && OccursAt(s, u, i);
    var j :| 0 <= j <= |u| && OccursAt(u, t, j);
    forall k | 0 <= k < |t| ensures s[i + j + k] == t[k] {
      assert t[k] == u[j..j + |t|][k] == u[j + k] == s[i..i + |u|][j + k];
    }
    assert s[i + j..i + j + |t|] == t;
    assert OccursAt(s, t, i + j);
  }

  lemma ContainsItself(s: string)
    ensures OccursAt(s, s, 0) && Contains(s, s)
  {
    assert s[0..0 + |s|] == s;
    assert OccursAt(s, s, 0);
  }

  lemma StrStrFinds(s: string, t: string)
    ensures StrStr(s, t, 0).Some? <==> Contains(s, t)
    ensures StrStr(s, t, 0).Some? ==> StrStr(s, t, 0).value <= |s|
    ensures (StrStr(s, t, 0).Some? && StrStr(s, t, 0).value == 0) <==> OccursAt(s, t, 0)
  {
    if StrStr(s, t, 0).Some? { assert OccursAt(s, t, StrStr(s, t, 0).value); }
  }

  // ---- Matching one application ------------------------------------------------------

  datatype Match = NoMatch | SubstringMatch | PrefixMatch

  function Rank(m: Match): nat {
    match m case NoMatch => 0 case SubstringMatch => 1 case PrefixMatch => 2
  }

  /** `shown`: the application has a desktop entry, and the entry asks to be shown. */
  datatype App = App(
    id: nat,
    shown: bool,
    name: string,
    exec: Option<string>,
    description: Option<string>,
    keywords: seq<string>)

  /** The first occurrence of the term starts a word, where `separator` separates words. */
  predicate StartsWord(s: string, t: string, separator: char) {
    var p := StrStr(s, t, 0);
    p.Some? && (p.value == 0 || s[p.value - 1] == separator)
  }

  predicate Found(a: App, t: string) {
    || Contains(a.name, t)
    || (a.exec.Some? && Contains(a.exec.value, t))
    || (a.description.Some? && Contains(a.description.value, t))
    || exists k :: 0 <= k < |a.keywords| && Contains(a.keywords[k], t)
  }

  predicate FoundAsPrefix(a: App, t: string) {
    || StartsWord(a.name, t, ' ')
    || (a.exec.Some? && StartsWord(a.exec.value, t, '-'))
    || exists k :: 0 <= k < |a.keywords| && OccursAt(a.keywords[k], t, 0)
  }

  function TermMatch(a: App, t: string): Match {
    if FoundAsPrefix(a, t) then PrefixMatch else if Found(a, t) then SubstringMatch else NoMatch
  }

  /** Every term must be found; one of them as a prefix makes the whole a prefix match. */
  function TermsMatch(a: App, terms: seq<string>): Match {
    if terms == [] || (exists k :: 0 <= k < |terms| && !Found(a, terms[k])) then NoMatch
    else if exists k :: 0 <= k < |terms| && FoundAsPrefix(a, terms[k]) then PrefixMatch
    else SubstringMatch
  }

  lemma PrefixIsFound(a: App, t: string)
    requires FoundAsPrefix(a, t)
    ensures Found(a, t)
  {
    if StartsWord(a.name, t, ' ') {
      assert OccursAt(a.name, t, StrStr(a.name, t, 0).value);
    } else if a.exec.Some? && StartsWord(a.exec.value, t, '-') {
      assert OccursAt(a.exec.value, t, StrStr(a.exec.value, t, 0).value);
    } else {
      var k :| 0 <= k < |a.keywords| && OccursAt(a.keywords[k], t, 0);
      assert Contains(a.keywords[k], t);
    }
  }

  // ---- What the matches mean ---------------------------------------------------------

  /** t stands in s for the first time at p. */
  predicate FirstAt(s: string, t: string, p: nat) {
    OccursAt(s, t, p) && forall i :: 0 <= i < p ==> !OccursAt(s, t, i)
  }

  /** The first t in s is at the beginning or behind the separator. */
  predicate BeginsWord(s: string, t: string, separator: char) {
    exists p :: 0 <= p <= |s| && FirstAt(s, t, p) && (p == 0 || s[p - 1] == separator)
  }

  lemma StartsWordIs(s: string, t: string, separator: char)
    ensures StartsWord(s, t, separator) <==> BeginsWord(s, t, separator)
  {
    var r := StrStr(s, t, 0);
    if r.Some? {
      assert FirstAt(s, t, r.value);
      forall p: nat | p <= |s| && FirstAt(s, t, p) ensures p == r.value {
        assert !(r.value < p) && !(p < r.value);
      }
    }
  }

  /**
   * Where a term counts as the beginning of a word: at the beginning of any
   * text, behind a blank in a name, behind a hyphen in a command, in a keyword
   * only at its beginning, and in a description nowhere. Anywhere else in a
   * text it is a substring.
   */
  lemma WhereWordsBegin(a: App, t: string)
    ensures TermMatch(a, t) == PrefixMatch <==>
              || BeginsWord(a.name, t, ' ')
              || (a.exec.Some? && BeginsWord(a.exec.value, t, '-'))
              || (exists k :: 0 <= k < |a.keywords| && t <= a.keywords[k])
    ensures TermMatch(a, t) != NoMatch <==>
              || Contains(a.name, t)
              || (a.exec.Some? && Contains(a.exec.value, t))
              || (a.description.Some? && Contains(a.description.value, t))
              || (exists k :: 0 <= k < |a.keywords| && Contains(a.keywords[k], t))
  {
    hide StartsWord;
    hide BeginsWord;
    hide Contains;
    StartsWordIs(a.name, t, ' ');
    if a.exec.Some? { StartsWordIs(a.exec.value, t, '-'); }
    forall k | 0 <= k < |a.keywords| ensures OccursAt(a.keywords[k], t, 0) <==> t <= a.keywords[k] {
      if |t| <= |a.keywords[k]| { assert a.keywords[k][0..0 + |t|] == a.keywords[k][..|t|]; }
    }
    if FoundAsPrefix(a, t) { PrefixIsFound(a, t); }
  }

  /** Several terms match as well as the best of them, and only if all of them match; none match nothing. */
  lemma BestTermDecides(a: App, terms: seq<string>)
    ensures TermsMatch(a, terms) == NoMatch <==>
              terms == [] || exists k :: 0 <= k < |terms| && TermMatch(a, terms[k]) == NoMatch
    ensures TermsMatch(a, terms) != NoMatch ==>
              && (forall k :: 0 <= k < |terms| ==> Rank(TermMatch(a, terms[k])) <= Rank(TermsMatch(a, terms)))
              && (exists k :: 0 <= k < |terms| && TermMatch(a, terms[k]) == TermsMatch(a, terms))
  {
    hide Found;
    hide FoundAsPrefix;
    forall k | 0 <= k < |terms| && FoundAsPrefix(a, terms[k]) ensures Found(a, terms[k]) {
      PrefixIsFound(a, terms[k]);
    }
    if TermsMatch(a, terms) == SubstringMatch { assert TermMatch(a, terms[0]) == SubstringMatch; }
  }

  /** The loop body of _shell_app_match_search_terms */
  method MatchTerm(a: App, term: string) returns (current: Match)
    ensures current == TermMatch(a, term)
  {
    hide Contains;
    hide OccursAt;
    hide StrStr;
    current := NoMatch;
    StrStrFinds(a.name, term);
    var p := StrStr(a.name, term, 0);
    if p.Some? {
      current := if p.value == 0 || a.name[p.value - 1] == ' ' then PrefixMatch else SubstringMatch;
    }
    if a.exec.Some? {
      StrStrFinds(a.exec.value, term);
      p := StrStr(a.exec.value, term, 0);
      if p.Some? {
        if p.value == 0 || a.exec.value[p.value - 1] == '-' {
          current := PrefixMatch;
        } else if Rank(current) < Rank(PrefixMatch) {
          current := SubstringMatch;
        }
      }
    }
    if a.description.Some? && Rank(current) < Rank(PrefixMatch) {
      StrStrFinds(a.description.value, term);
      p := StrStr(a.description.value, term, 0);
      if p.Some? { current := SubstringMatch; }
    }
    ghost var before := current;
    var i := 0;
    while i < |a.keywords| && Rank(current) < Rank(PrefixMatch)
      invariant 0 <= i <= |a.keywords|
      invariant current == PrefixMatch <==>
                before == PrefixMatch || exists k :: 0 <= k < i && OccursAt(a.keywords[k], term, 0)
      invariant current == NoMatch <==> before == NoMatch && forall k :: 0 <= k < i ==> !Contains(a.keywords[k], term)
    {
      StrStrFinds(a.keywords[i], term);
      p := StrStr(a.keywords[i], term, 0);
      if p.Some? {
        current := if p.value == 0 then PrefixMatch else SubstringMatch;
      }
      i := i + 1;
    }
    if current == PrefixMatch { PrefixIsFound(a, term); }
  }

  /** _shell_app_match_search_terms */
  method MatchSearchTerms(a: App, terms: seq<string>) returns (m: Match)
    ensures m == TermsMatch(a, terms)
  {
    hide FoundAsPrefix;
    hide Found;
    m := NoMatch;
    var i := 0;
    while i < |terms|
      invariant 0 <= i <= |terms|
      invariant forall k :: 0 <= k < i ==> Found(a, terms[k])
      invariant m == NoMatch <==> i == 0
      invariant m == PrefixMatch <==> exists k :: 0 <= k < i && FoundAsPrefix(a, terms[k])
    {
      var current := MatchTerm(a, terms[i]);
      if current == NoMatch { return NoMatch; }
      if FoundAsPrefix(a, terms[i]) { PrefixIsFound(a, terms[i]); }
      if Rank(current) > Rank(m) { m := current; }
      i := i + 1;
    }
  }

  // ---- Searching a list ---------------------------------------------------------------

  /** The applications of a list that are shown and match in this way, last one first. */
  function Hits(apps: seq<App>, terms: seq<string>, kind: Match): (r: seq<App>) {
    if apps == [] then []
    else
      var a := apps[|apps| - 1];
      var rest := Hits(apps[..|apps| - 1], terms, kind);
      if a.shown && TermsMatch(a, terms) == kind then [a] + rest else rest
  }

  lemma {:induction false} HitsCount(apps: seq<App>, terms: seq<string>, kind: Match, a: App)
    ensures multiset(Hits(apps, terms, kind))[a]
            == if a.shown && TermsMatch(a, terms) == kind then multiset(apps)[a] else 0
  {
    hide TermsMatch;
    if apps != [] {
      var n := |apps| - 1;
      assert apps == apps[..n] + [apps[n]];
      HitsCount(apps[..n], terms, kind, a);
    }
  }

  /** The order in which a table or a list is walked does not matter. */
  lemma HitsPermuted(apps: seq<App>, other: seq<App>, terms: seq<string>, kind: Match)
    requires multiset(apps) == multiset(other)
    ensures multiset(Hits(apps, terms, kind)) == multiset(Hits(other, terms, kind))
  {
    hide Hits;
    forall a ensures multiset(Hits(apps, terms, kind))[a] == multiset(Hits(other, terms, kind))[a] {
      HitsCount(apps, terms, kind, a);
      HitsCount(other, terms, kind, a);
    }
  }

  /** A list holds the prefix matches, then the substring matches, each once for each time it is installed. */
  ghost predicate IsResult(r: seq<App>, installed: seq<App>, terms: seq<string>) {
    var k := |Hits(installed, terms, PrefixMatch)|;
    && k <= |r|
    && multiset(r[..k]) == multiset(Hits(installed, terms, PrefixMatch))
    && multiset(r[k..]) == multiset(Hits(installed, terms, SubstringMatch))
  }

  /** _shell_app_do_match */
  method DoMatch(a: App, terms: seq<string>, prefix: seq<App>, substring: seq<App>)
    returns (prefixResults: seq<App>, substringResults: seq<App>)
    ensures prefixResults == if a.shown && TermsMatch(a, terms) == PrefixMatch then [a] + prefix else prefix
    ensures substringResults == if a.shown && TermsMatch(a, terms) == SubstringMatch then [a] + substring else substring
  {
    prefixResults, substringResults := prefix, substring;
    if !a.shown { return; }
    var m := MatchSearchTerms(a, terms);
    match m
    case NoMatch =>
    case PrefixMatch => prefixResults := [a] + prefix;
    case SubstringMatch => substringResults := [a] + substring;
  }

  /**
   * The loop of search_tree over a table and of shell_app_system_subsearch
   * over a list, then sort_and_concat_results
   */
  method Search(apps: seq<App>, terms: seq<string>, before: (App, App) -> bool) returns (r: seq<App>)
    ensures IsResult(r, apps, terms)
  {
    hide TermsMatch;
    var prefix, substring := [], [];
    var i := 0;
    while i < |apps|
      invariant 0 <= i <= |apps|
      invariant prefix == Hits(apps[..i], terms, PrefixMatch)
      invariant substring == Hits(apps[..i], terms, SubstringMatch)
    {
      assert apps[..i + 1][..i] == apps[..i];
      prefix, substring := DoMatch(apps[i], terms, prefix, substring);
      i := i + 1;
    }
    assert apps[..i] == apps;
    var p := SortBy(prefix, before);
    var s := SortBy(substring, before);
    r := p + s;
    assert |multiset(p)| == |multiset(prefix)|;
    assert r[..|p|] == p && r[|p|..] == s;
  }

  /** Sorting with any comparison, a preorder or not, rearranges the list. */
  method SortBy(list: seq<App>, before: (App, App) -> bool) returns (r: seq<App>)
    ensures multiset(r) == multiset(list)
  {
    r := [];
    var i := 0;
    while i < |list|
      invariant 0 <= i <= |list|
      invariant multiset(r) == multiset(list[..i])
    {
      var j := |r|;
      while j > 0 && before(list[i], r[j - 1])
        invariant 0 <= j <= |r|
      {
        j := j - 1;
      }
      assert r == r[..j] + r[j..];
      assert list[..i + 1] == list[..i] + [list[i]];
      r := r[..j] + [list[i]] + r[j..];
      i := i + 1;
    }
    assert list[..i] == list;
  }

  // ---- Refining a search -----------------------------------------------------------------

  predicate InSome(terms: seq<string>, t: string) {
    exists l :: 0 <= l < |terms| && Contains(terms[l], t)
  }

  /** Every earlier term is contained in some new one. */
  predicate Refines(previous: seq<string>, terms: seq<string>) {
    forall k :: 0 <= k < |previous| ==> InSome(terms, previous[k])
  }

  lemma FoundInPart(a: App, u: string, t: string)
    requires Found(a, u) && Contains(u, t)
    ensures Found(a, t)
  {
    hide Contains;
    if Contains(a.name, u) {
      ContainsTransitive(a.name, u, t);
    } else if a.exec.Some? && Contains(a.exec.value, u) {
      ContainsTransitive(a.exec.value, u, t);
    } else if a.description.Some? && Contains(a.description.value, u) {
      ContainsTransitive(a.description.value, u, t);
    } else {
      var k :| 0 <= k < |a.keywords| && Contains(a.keywords[k], u);
      ContainsTransitive(a.keywords[k], u, t);
    }
  }

  lemma RefinedMatch(a: App, previous: seq<string>, terms: seq<string>)
    requires previous != [] && Refines(previous, terms) && TermsMatch(a, terms) != NoMatch
    ensures TermsMatch(a, previous) != NoMatch
  {
    hide Found;
    hide Contains;
    forall k | 0 <= k < |previous| ensures Found(a, previous[k]) {
      var l :| 0 <= l < |terms| && Contains(terms[l], previous[k]);
      FoundInPart(a, terms[l], previous[k]);
    }
  }

  /** An application made of the new terms alone. */
  function MadeOf(terms: seq<string>): App
    requires terms != []
  {
    App(0, true, terms[0], None, None, terms)
  }

  lemma MadeOfMatches(terms: seq<string>, t: string)
    requires terms != []
    ensures Found(MadeOf(terms), t) <==> InSome(terms, t)
    ensures TermsMatch(MadeOf(terms), terms) == PrefixMatch
  {
    hide Contains;
    var a := MadeOf(terms);
    forall k | 0 <= k < |terms| ensures Found(a, terms[k]) && FoundAsPrefix(a, terms[k]) {
      ContainsItself(terms[k]);
      assert OccursAt(a.keywords[k], terms[k], 0) && Contains(a.keywords[k], terms[k]);
    }
  }

  /**
   * The earlier terms cover the new ones, whatever applications there are, if
   * and only if there are no new terms, or there are earlier terms and each of
   * them is contained in some new one.
   */
  lemma RefinementCovers(previous: seq<string>, terms: seq<string>)
    ensures (forall a :: TermsMatch(a, terms) != NoMatch ==> TermsMatch(a, previous) != NoMatch)
            <==> (terms == [] || (previous != [] && Refines(previous, terms)))
  {
    hide Found;
    hide Contains;
    if terms == [] {
    } else if previous != [] && Refines(previous, terms) {
      forall a | TermsMatch(a, terms) != NoMatch ensures TermsMatch(a, previous) != NoMatch {
        RefinedMatch(a, previous, terms);
      }
    } else {
      var a := MadeOf(terms);
      MadeOfMatches(terms, terms[0]);
      forall k | 0 <= k < |previous| && Found(a, previous[k])
        ensures InSome(terms, previous[k])
      {
        MadeOfMatches(terms, previous[k]);
      }
      assert TermsMatch(a, previous) == NoMatch;
    }
  }

  lemma {:induction false} ResultCount(r: seq<App>, installed: seq<App>, terms: seq<string>, a: App)
    requires IsResult(r, installed, terms)
    ensures multiset(r)[a] == if a.shown && TermsMatch(a, terms) != NoMatch then multiset(installed)[a] else 0
  {
    hide TermsMatch;
    hide Hits;
    var k := |Hits(installed, terms, PrefixMatch)|;
    assert r == r[..k] + r[k..];
    HitsCount(installed, terms, PrefixMatch, a);
    HitsCount(installed, terms, SubstringMatch, a);
  }

  lemma SubsearchHits(installed: seq<App>, results: seq<App>, previous: seq<string>, terms: seq<string>, kind: Match)
    requires previous != [] && Refines(previous, terms) && IsResult(results, installed, previous) && kind != NoMatch
    ensures multiset(Hits(results, terms, kind)) == multiset(Hits(installed, terms, kind))
  {
    hide TermsMatch;
    hide Hits;
    hide IsResult;
    hide Refines;
    forall a ensures multiset(Hits(results, terms, kind))[a] == multiset(Hits(installed, terms, kind))[a] {
      HitsCount(results, terms, kind, a);
      HitsCount(installed, terms, kind, a);
      ResultCount(results, installed, previous, a);
      if TermsMatch(a, terms) == kind { RefinedMatch(a, previous, terms); }
    }
  }

  /**
   * Searching the earlier results gives what searching everything gives, with
   * the same split into prefix and substring matches.
   */
  lemma SubsearchIsSearch(
      installed: seq<App>, results: seq<App>, previous: seq<string>, terms: seq<string>, r: seq<App>)
    requires previous != [] && Refines(previous, terms)
    requires IsResult(results, installed, previous) && IsResult(r, results, terms)
    ensures IsResult(r, installed, terms)
  {
    hide Hits;
    hide Refines;
    SubsearchHits(installed, results, previous, terms, PrefixMatch);
    SubsearchHits(installed, results, previous, terms, SubstringMatch);
    SameLength(Hits(results, terms, PrefixMatch), Hits(installed, terms, PrefixMatch));
  }

  lemma SameLength(s: seq<App>, t: seq<App>)
    requires multiset(s) == multiset(t)
    ensures |s| == |t|
  {
    assert |multiset(s)| == |multiset(t)|;
  }

  /** Where the terms do not refine the earlier ones, some application is lost. */
  lemma SubsearchLoses(previous: seq<string>, terms: seq<string>, results: seq<App>, r: seq<App>)
    requires terms != [] && (previous == [] || !Refines(previous, terms))
    requires IsResult(results, [MadeOf(terms)], previous) && IsResult(r, results, terms)
    ensures !IsResult(r, [MadeOf(terms)], terms)
  {
    var a := MadeOf(terms);
    MadeOfMatches(terms, terms[0]);
    assert TermsMatch(a, previous) == NoMatch by {
      forall k | 0 <= k < |previous| && Found(a, previous[k])
        ensures InSome(terms, previous[k])
      {
        MadeOfMatches(terms, previous[k]);
      }
    }
    ResultCount(results, [a], previous, a);
    ResultCount(r, results, terms, a);
    if IsResult(r, [a], terms) { ResultCount(r, [a], terms, a); }
  }

  // ---- The search system ------------------------------------------------------------------

  class SearchSystem {
    const installed: seq<App>
    var previousTerms: seq<string>
    var previousResults: seq<App>

    ghost predicate Valid()
      reads this
    {
      previousTerms != [] ==> IsResult(previousResults, installed, previousTerms)
    }

    constructor (installed: seq<App>)
      ensures Valid() && this.installed == installed && previousTerms == []
    {
      this.installed := installed;
      previousTerms, previousResults := [], [];
    }

    method Reset()
      modifies this
      ensures Valid() && previousTerms == [] && previousResults == []
    {
      previousTerms, previousResults := [], [];
    }

    /**
     * updateSearchResults with the application provider: whether the earlier
     * results are reused or not, the outcome is that of a full search. The
     * table is walked in any order. updateSearch splits a non-empty string, so
     * there is at least one term.
     */
    method UpdateSearchResults(terms: seq<string>, order: seq<App>, before: (App, App) -> bool)
      returns (results: seq<App>)
      requires Valid() && terms != [] && multiset(order) == multiset(installed)
      modifies this
      ensures Valid() && previousTerms == terms && previousResults == results
      ensures IsResult(results, installed, terms)
    {
      hide IsResult;
      hide Refines;
      var isSubSearch := |terms| == |previousTerms|;
      if isSubSearch {
        var i := 0;
        while i < |terms| && isSubSearch
          invariant 0 <= i <= |terms|
          invariant isSubSearch ==> forall k :: 0 <= k < i ==> OccursAt(terms[k], previousTerms[k], 0)
        {
          if !OccursAt(terms[i], previousTerms[i], 0) { isSubSearch := false; }
          i := i + 1;
        }
      }
      if isSubSearch {
        PrefixesRefine(previousTerms, terms);
        results := Search(previousResults, terms, before);
        SubsearchIsSearch(installed, previousResults, previousTerms, terms, results);
      } else {
        results := Search(order, terms, before);
        ResultPermuted(results, order, installed, terms);
      }
      previousTerms, previousResults := terms, results;
    }
  }

  lemma PrefixesRefine(previous: seq<string>, terms: seq<string>)
    requires |previous| == |terms| && forall k :: 0 <= k < |terms| ==> OccursAt(terms[k], previous[k], 0)
    ensures Refines(previous, terms)
  {
    forall k | 0 <= k < |previous| ensures InSome(terms, previous[k]) {
      assert OccursAt(terms[k], previous[k], 0);
      assert Contains(terms[k], previous[k]);
    }
  }

  lemma ResultPermuted(r: seq<App>, apps: seq<App>, other: seq<App>, terms: seq<string>)
    requires multiset(apps) == multiset(other) && IsResult(r, apps, terms)
    ensures IsResult(r, other, terms)
  {
    hide Hits;
    HitsPermuted(apps, other, terms, PrefixMatch);
    HitsPermuted(apps, other, terms, SubstringMatch);
    SameLength(Hits(apps, terms, PrefixMatch), Hits(other, terms, PrefixMatch));
  }
}
