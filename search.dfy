/**
 * `search_players` of the spreadsheet variant: the names of the players that
 * the lower-cased query picks out, without duplicates, sorted and cut to five.
 */
module Search {
  import opened Text

  /** Python's `<` on strings: lexicographic order by code point. */
  predicate Less(a: string, b: string)
    decreases |a|
  {
    if a == [] then b != []
    else b != [] && (a[0] < b[0] || (a[0] == b[0] && Less(a[1..], b[1..])))
  }

  lemma {:induction false} LessIrreflexive(a: string)
    ensures !Less(a, a)
    decreases |a|
  {
    if a != [] {
      LessIrreflexive(a[1..]);
    }
  }

  lemma {:induction false} LessTransitive(a: string, b: string, c: string)
    requires Less(a, b) && Less(b, c)
    ensures Less(a, c)
    decreases |a|
  {
    if a != [] && a[0] == b[0] && b[0] == c[0] {
      LessTransitive(a[1..], b[1..], c[1..]);
    }
  }

  /** Two different strings are ordered one way or the other. */
  lemma {:induction false} LessTotal(a: string, b: string)
    requires a != b
    ensures Less(a, b) || Less(b, a)
    decreases |a|
  {
    if a != [] && b != [] && a[0] == b[0] {
      assert a == [a[0]] + a[1..] && b == [b[0]] + b[1..];
      LessTotal(a[1..], b[1..]);
    }
  }

  predicate StrictlySorted(s: seq<string>) {
    forall i, j | 0 <= i < j < |s| :: Less(s[i], s[j])
  }

  /** Insert `x` into a strictly sorted list, unless it is already there. */
  function Insert(x: string, s: seq<string>): (r: seq<string>)
    requires StrictlySorted(s)
    ensures StrictlySorted(r)
    ensures forall y :: y in r <==> y == x || y in s
  {
    if s == [] then [x]
    else if x == s[0] then s
    else if Less(x, s[0]) then
      assert forall j | 0 <= j < |s| :: Less(x, s[j]) by {
        forall j | 0 <= j < |s| ensures Less(x, s[j]) {
          if j > 0 { LessTransitive(x, s[0], s[j]); }
        }
      }
      [x] + s
    else
      LessTotal(x, s[0]);
      var t := s[1..];
      assert StrictlySorted(t) by {
        forall i, j | 0 <= i < j < |t| ensures Less(t[i], t[j]) {
          assert t[i] == s[i + 1] && t[j] == s[j + 1];
        }
      }
      var u := Insert(x, t);
      assert forall j | 0 <= j < |t| :: Less(s[0], t[j]) by {
        forall j | 0 <= j < |t| ensures Less(s[0], t[j]) {
          assert t[j] == s[j + 1];
        }
      }
      assert forall j | 0 <= j < |u| :: Less(s[0], u[j]) by {
        forall j | 0 <= j < |u| ensures Less(s[0], u[j]) {
          assert u[j] in u;
          if u[j] != x {
            var k :| 0 <= k < |t| && t[k] == u[j];
          }
        }
      }
      assert s == [s[0]] + t;
      [s[0]] + u
  }

  /** `sorted(list(set(xs)))`: the distinct elements in ascending order. */
  function SortedSet(xs: seq<string>): (r: seq<string>)
    ensures StrictlySorted(r)
    ensures forall y :: y in r <==> y in xs
  {
    if xs == [] then []
    else
      var p := xs[..|xs| - 1];
      assert xs == p + [xs[|xs| - 1]];
      Insert(xs[|xs| - 1], SortedSet(p))
  }

  /**
   * The test on one name: some word of the lower-cased name starts with the
   * query, or the lower-cased name contains it. The word-prefix test adds
   * nothing: a name matches exactly when it contains the query.
   */
  predicate Matches(name: string, query: string)
    ensures Matches(name, query) <==> Contains(Lower(name), query)
  {
    PrefixedWordContained(Lower(name), query);
    (exists w | w in Words(Lower(name)) :: StartsWith(w, query)) || Contains(Lower(name), query)
  }

  /** A word that starts with the query occurs in the string, so the query does too. */
  lemma PrefixedWordContained(s: string, query: string)
    ensures (exists w | w in Words(s) :: StartsWith(w, query)) ==> Contains(s, query)
  {
    if w :| w in Words(s) && StartsWith(w, query) {
      WordsOccur(s, w);
      ContainsPrefixOf(s, w, query);
    }
  }

  /** The `matches` list: the names that match, in sheet order, with repeats. */
  function MatchingNames(names: seq<string>, query: string): (r: seq<string>)
    ensures forall y :: y in r <==> y in names && Matches(y, query)
  {
    if names == [] then []
    else
      var p := names[..|names| - 1];
      var x := names[|names| - 1];
      assert names == p + [x];
      MatchingNames(p, query) + if Matches(x, query) then [x] else []
  }

  /**
   * The first five of a list, or all of it (`[:5]`): a prefix of it, five long
   * unless the list is shorter. Cut from a sorted list, it is sorted, and every
   * element left out sorts after every element kept.
   */
  function TakeFive(s: seq<string>): (r: seq<string>)
    ensures r <= s && |r| == if |s| <= 5 then |s| else 5
    ensures StrictlySorted(s) ==>
              StrictlySorted(r) && forall x, j | x in s && x !in r && 0 <= j < |r| :: Less(r[j], x)
  {
    var r := if |s| <= 5 then s else s[..5];
    assert forall x | x in s && x !in r :: exists k | |r| <= k < |s| :: s[k] == x;
    r
  }

  /**
   * What the route answers on `q` over the sheet's player names: nothing for
   * an empty query; otherwise at most five distinct names in ascending order,
   * each a player whose lower-cased name contains the lower-cased query; and
   * every such player is in it unless five names that all sort before theirs
   * fill it.
   */
  function SearchResult(q: string, names: seq<string>): (r: seq<string>)
    ensures Lower(q) == [] ==> r == []
    ensures StrictlySorted(r) && |r| <= 5
    ensures forall x | x in r :: x in names && Contains(Lower(x), Lower(q))
    ensures forall x | x in names && Contains(Lower(x), Lower(q)) && Lower(q) != [] ::
              x in r || (|r| == 5 && forall j | 0 <= j < 5 :: Less(r[j], x))
  {
    var query := Lower(q);
    if query == [] then [] else TakeFive(SortedSet(MatchingNames(names, query)))
  }

  /** The inner `any(word.startswith(query) ...)` scan, stopping at the first hit. */
  method AnyWordStarts(parts: seq<string>, query: string) returns (prefixed: bool)
    ensures prefixed <==> exists w | w in parts :: StartsWith(w, query)
  {
    var j := 0;
    prefixed := false;
    while j < |parts| && !prefixed
      invariant 0 <= j <= |parts|
      invariant prefixed <==> exists k | 0 <= k < j :: StartsWith(parts[k], query)
    {
      prefixed := StartsWith(parts[j], query);
      j := j + 1;
    }
  }

  /** The search loop over the sheet's rows, then dedupe, sort and cut. */
  method SearchPlayers(q: string, names: seq<string>) returns (res: seq<string>)
    ensures res == SearchResult(q, names)
  {
    var query := Lower(q);
    if query == [] {
      return [];
    }
    var matches: seq<string> := [];
    var i := 0;
    while i < |names|
      invariant 0 <= i <= |names|
      invariant matches == MatchingNames(names[..i], query)
    {
      var name := Lower(names[i]);
      var prefixed := AnyWordStarts(Words(name), query);
      if prefixed || Contains(name, query) {
        matches := matches + [names[i]];
      }
      assert names[..i + 1] == names[..i] + [names[i]];
      i := i + 1;
    }
    assert names[..i] == names;
    res := TakeFive(SortedSet(matches));
  }
}
