/**
 * The Python string operations the server code relies on: `str.strip`,
 * `str.lower`/`str.upper` (on ASCII letters), `sub in s`, `str.replace(c, '')`,
 * `str.split(c)[0]`, `str.startswith` and the whitespace-splitting `str.split()`.
 */
module Text {

  /** Python's `str.isspace` for one character (the set `strip()`, `split()` and `float()` skip). */
  predicate IsSpace(c: char) {
    || c == ' '
    || ('\t' <= c <= '\r')
    || ('\U{1c}' <= c <= '\U{1f}')
    || c == '\U{85}' || c == '\U{a0}' || c == '\U{1680}'
    || ('\U{2000}' <= c <= '\U{200a}')
    || c == '\U{2028}' || c == '\U{2029}' || c == '\U{202f}' || c == '\U{205f}' || c == '\U{3000}'
  }

  /** Drops leading whitespace (see `TrimLeftSpec`). */
  function TrimLeft(s: string): (r: string)
    ensures |r| <= |s| && r == s[|s| - |r|..]
  {
    if |s| > 0 && IsSpace(s[0]) then TrimLeft(s[1..]) else s
  }

  /** The result of `TrimLeft` is the suffix of `s` starting at its first non-space. */
  lemma {:induction false} TrimLeftSpec(s: string)
    ensures forall k | 0 <= k < |s| - |TrimLeft(s)| :: IsSpace(s[k])
    ensures TrimLeft(s) == [] || !IsSpace(TrimLeft(s)[0])
  {
    if |s| > 0 && IsSpace(s[0]) {
      var u := s[1..];
      var r := TrimLeft(u);
      assert TrimLeft(s) == r;
      TrimLeftSpec(u);
      forall k | 0 <= k < |s| - |r| ensures IsSpace(s[k]) {
        if k > 0 {
          assert s[k] == u[k - 1];
        }
      }
    } else {
      assert TrimLeft(s) == s;
    }
  }

  /** Drops trailing whitespace (see `TrimRightSpec`). */
  function TrimRight(s: string): (r: string)
    ensures |r| <= |s| && r == s[..|r|]
  {
    if |s| > 0 && IsSpace(s[|s| - 1]) then TrimRight(s[..|s| - 1]) else s
  }

  /** The result of `TrimRight` is the prefix of `s` ending at its last non-space. */
  lemma {:induction false} TrimRightSpec(s: string)
    ensures forall k | |TrimRight(s)| <= k < |s| :: IsSpace(s[k])
    ensures TrimRight(s) == [] || !IsSpace(TrimRight(s)[|TrimRight(s)| - 1])
  {
    if |s| > 0 && IsSpace(s[|s| - 1]) {
      var t := s[..|s| - 1];
      var r := TrimRight(t);
      assert TrimRight(s) == r;
      TrimRightSpec(t);
      forall k | |r| <= k < |s| ensures IsSpace(s[k]) {
        if k < |s| - 1 {
          assert s[k] == t[k];
        }
      }
    }
  }

  /** Python `s.strip()`: only whitespace is dropped, and nothing is added. */
  function Strip(s: string): (r: string)
    ensures |r| <= |s|
  {
    TrimRight(TrimLeft(s))
  }

  /** A non-space character is not dropped by `TrimLeft`. */
  lemma TrimLeftKeeps(s: string, i: int)
    requires 0 <= i < |s| && !IsSpace(s[i])
    ensures |s| - |TrimLeft(s)| <= i
  {
    TrimLeftSpec(s);
  }

  /** A non-space character is not dropped by `TrimRight`. */
  lemma TrimRightKeeps(s: string, i: int)
    requires 0 <= i < |s| && !IsSpace(s[i])
    ensures i < |TrimRight(s)|
  {
    TrimRightSpec(s);
  }

  /** `strip()` drops only whitespace. */
  lemma StripDropsOnlySpace(s: string)
    ensures forall c | c in s :: IsSpace(c) || c in Strip(s)
  {
    var t := TrimLeft(s);
    var r := TrimRight(t);
    var n := |s| - |t|;
    forall c | c in s ensures IsSpace(c) || c in r {
      if !IsSpace(c) {
        var i :| 0 <= i < |s| && s[i] == c;
        KeptByStrip(s, i);
      }
    }
  }

  /** A non-space character of `s` appears in `Strip(s)`. */
  lemma KeptByStrip(s: string, i: int)
    requires 0 <= i < |s| && !IsSpace(s[i])
    ensures s[i] in Strip(s)
  {
    var t := TrimLeft(s);
    var j := i - (|s| - |t|);
    assert 0 <= j && t[j] == s[i] by { TrimLeftKeeps(s, i); }
    var r := TrimRight(t);
    assert j < |r| && r[j] == s[i] by { TrimRightKeeps(t, j); }
  }

  /** Every character of a slice is a character of the whole. */
  lemma SliceMembers(s: string, a: int, b: int)
    requires 0 <= a <= b <= |s|
    ensures forall c | c in s[a..b] :: c in s
  {
    forall c | c in s[a..b] ensures c in s {
      var k :| 0 <= k < b - a && s[a..b][k] == c;
      assert s[a + k] == c;
    }
  }

  /** `strip()` adds nothing. */
  lemma StripAddsNothing(s: string)
    ensures forall c | c in Strip(s) :: c in s
  {
    var t := TrimLeft(s);
    var n := |s| - |t|;
    var r := TrimRight(t);
    assert r == s[n..n + |r|];
    SliceMembers(s, n, n + |r|);
  }

  /** `strip()` drops only whitespace, and adds nothing. */
  lemma StripKeeps(s: string)
    ensures forall c | c in s :: IsSpace(c) || c in Strip(s)
    ensures forall c | c in Strip(s) :: c in s
  {
    StripDropsOnlySpace(s);
    StripAddsNothing(s);
  }

  /** A string with no whitespace at either end is its own `strip()`. */
  lemma StripNoOp(s: string)
    requires s == [] || (!IsSpace(s[0]) && !IsSpace(s[|s| - 1]))
    ensures Strip(s) == s
  {
    TrimLeftNoOp(s);
    TrimRightNoOp(s);
  }

  lemma TrimLeftNoOp(s: string)
    requires s == [] || !IsSpace(s[0])
    ensures TrimLeft(s) == s
  {
  }

  lemma TrimRightNoOp(s: string)
    requires s == [] || !IsSpace(s[|s| - 1])
    ensures TrimRight(s) == s
  {
  }

  lemma StripIdempotent(s: string)
    ensures Strip(Strip(s)) == Strip(s)
  {
    var t := TrimLeft(s);
    var r := TrimRight(t);
    TrimLeftSpec(s);
    TrimRightSpec(t);
    assert r != [] ==> r[0] == t[0];
    StripNoOp(r);
  }

  function LowerChar(c: char): char {
    if 'A' <= c <= 'Z' then (c as int + 32) as char else c
  }

  function UpperChar(c: char): char {
    if 'a' <= c <= 'z' then (c as int - 32) as char else c
  }

  /** Python `s.lower()` on the ASCII letters. */
  function Lower(s: string): (r: string)
    ensures |r| == |s| && forall i | 0 <= i < |s| :: r[i] == LowerChar(s[i])
  {
    seq(|s|, i requires 0 <= i < |s| => LowerChar(s[i]))
  }

  lemma LowerOfUpper(c: char)
    requires 'A' <= c <= 'Z'
    ensures 'a' <= LowerChar(c) <= 'z'
  {
  }

  lemma LowerIdempotent(s: string)
    ensures Lower(Lower(s)) == Lower(s)
  {
  }

  /** Lower-casing neither creates nor removes whitespace. */
  lemma LowerCharSpace(c: char)
    ensures IsSpace(LowerChar(c)) == IsSpace(c)
  {
  }

  lemma {:induction false} LowerTrimLeft(s: string)
    ensures TrimLeft(Lower(s)) == Lower(TrimLeft(s))
  {
    var l := Lower(s);
    if |s| > 0 {
      assert l[0] == LowerChar(s[0]);
      LowerCharSpace(s[0]);
      if IsSpace(s[0]) {
        assert TrimLeft(l) == TrimLeft(l[1..]);
        assert TrimLeft(s) == TrimLeft(s[1..]);
        assert l[1..] == Lower(s[1..]);
        LowerTrimLeft(s[1..]);
      } else {
        assert TrimLeft(l) == l;
        assert TrimLeft(s) == s;
      }
    } else {
      assert l == [];
    }
  }

  lemma {:induction false} LowerTrimRight(s: string)
    ensures TrimRight(Lower(s)) == Lower(TrimRight(s))
  {
    var l := Lower(s);
    if |s| > 0 {
      var n := |s| - 1;
      assert l[n] == LowerChar(s[n]);
      LowerCharSpace(s[n]);
      if IsSpace(s[n]) {
        assert TrimRight(l) == TrimRight(l[..n]);
        assert TrimRight(s) == TrimRight(s[..n]);
        assert l[..n] == Lower(s[..n]);
        LowerTrimRight(s[..n]);
      } else {
        assert TrimRight(l) == l;
        assert TrimRight(s) == s;
      }
    } else {
      assert l == [];
    }
  }

  /** Lower-casing keeps whitespace where it is, so it commutes with `strip()`. */
  lemma LowerStrip(s: string)
    ensures Strip(Lower(s)) == Lower(Strip(s))
  {
    LowerTrimLeft(s);
    LowerTrimRight(TrimLeft(s));
  }

  /** `lower()` works character by character. */
  lemma LowerCons(x: char, u: string)
    ensures Lower([x] + u) == [LowerChar(x)] + Lower(u)
  {
    var a := Lower([x] + u);
    var b := [LowerChar(x)] + Lower(u);
    assert |a| == |b|;
    forall i | 0 <= i < |a| ensures a[i] == b[i] {
      if i > 0 {
        assert ([x] + u)[i] == u[i - 1];
      }
    }
  }

  /** Removing a character that is not a letter commutes with lower-casing. */
  lemma {:induction false} LowerRemoveAll(s: string, c: char)
    requires !('A' <= c <= 'Z') && !('a' <= c <= 'z')
    ensures RemoveAll(Lower(s), c) == Lower(RemoveAll(s, c))
  {
    if s != [] {
      var t := s[1..];
      var x := LowerChar(s[0]);
      assert Lower(s) == [x] + Lower(t) by {
        assert s == [s[0]] + t;
        LowerCons(s[0], t);
      }
      assert x == c <==> s[0] == c;
      LowerRemoveAll(t, c);
      var u := RemoveAll(t, c);
      if s[0] == c {
        assert RemoveAll([x] + Lower(t), c) == RemoveAll(Lower(t), c);
        assert RemoveAll(s, c) == u;
      } else {
        assert RemoveAll([x] + Lower(t), c) == [x] + RemoveAll(Lower(t), c);
        assert RemoveAll(s, c) == [s[0]] + u;
        LowerCons(s[0], u);
      }
    }
  }

  /** Python `s.upper()` on the ASCII letters. */
  function Upper(s: string): (r: string)
    ensures |r| == |s| && forall i | 0 <= i < |s| :: r[i] == UpperChar(s[i])
  {
    seq(|s|, i requires 0 <= i < |s| => UpperChar(s[i]))
  }

  /** `sub` occurs in `s` starting at index `i`. */
  predicate OccursAt(s: string, sub: string, i: int) {
    0 <= i && i + |sub| <= |s| && s[i..i + |sub|] == sub
  }

  /** Python `sub in s`. */
  predicate Contains(s: string, sub: string) {
    exists i | 0 <= i <= |s| - |sub| :: OccursAt(s, sub, i)
  }

  /** A string of the same length occurs in `s` only as `s` itself. */
  lemma ContainsSameLength(s: string, sub: string)
    requires |s| == |sub|
    ensures Contains(s, sub) <==> s == sub
  {
    if s == sub {
      assert OccursAt(s, sub, 0);
    }
  }

  /** Whatever occurs in a slice of `s` occurs in `s`. */
  lemma ContainsInSlice(s: string, lo: nat, hi: nat, sub: string)
    requires lo <= hi <= |s| && Contains(s[lo..hi], sub)
    ensures Contains(s, sub)
  {
    var t := s[lo..hi];
    var i :| 0 <= i <= |t| - |sub| && OccursAt(t, sub, i);
    forall k | 0 <= k < |sub|
      ensures s[lo + i..lo + i + |sub|][k] == sub[k]
    {
      assert t[i..i + |sub|][k] == t[i + k] == s[lo + i + k];
    }
    assert s[lo + i..lo + i + |sub|] == sub;
    assert OccursAt(s, sub, lo + i);
  }

  /** Python `s.startswith(p)`. */
  predicate StartsWith(s: string, p: string) {
    |p| <= |s| && s[..|p|] == p
  }

  /** The substring relation is transitive through a prefix: if `w` occurs in `s`, so does every prefix of `w`. */
  lemma ContainsPrefixOf(s: string, w: string, q: string)
    requires Contains(s, w) && StartsWith(w, q)
    ensures Contains(s, q)
  {
    var i :| 0 <= i <= |s| - |w| && OccursAt(s, w, i);
    assert s[i..i + |q|] == w[..|q|];
    assert OccursAt(s, q, i);
  }

  /** Python `s.replace(c, '')` for a one-character `c`. */
  function RemoveAll(s: string, c: char): (r: string)
    ensures c !in r
    ensures c !in s ==> r == s
  {
    if s == [] then []
    else if s[0] == c then RemoveAll(s[1..], c)
    else [s[0]] + RemoveAll(s[1..], c)
  }

  /** `replace(c, '')` keeps every other character. */
  lemma {:induction false} RemoveAllKeeps(s: string, c: char, x: char)
    ensures x in RemoveAll(s, c) <==> x in s && x != c
  {
    if s != [] {
      RemoveAllKeeps(s[1..], c, x);
      assert x in s <==> x == s[0] || x in s[1..];
    }
  }

  lemma {:induction false} RemoveAllAppend(a: string, b: string, c: char)
    ensures RemoveAll(a + b, c) == RemoveAll(a, c) + RemoveAll(b, c)
  {
    if a != [] {
      assert (a + b)[1..] == a[1..] + b;
      RemoveAllAppend(a[1..], b, c);
    } else {
      assert a + b == b;
    }
  }

  /** Python `s.split(c)[0]`: the text before the first `c`, or all of `s` when there is none. */
  function BeforeFirst(s: string, c: char): (r: string)
    ensures c !in r
    ensures |r| <= |s| && r == s[..|r|]
    ensures |r| == |s| || s[|r|] == c
  {
    if s == [] || s[0] == c then []
    else [s[0]] + BeforeFirst(s[1..], c)
  }

  /** Without a separator, `split(c)[0]` is the whole string. */
  lemma {:induction false} BeforeFirstAbsent(s: string, c: char)
    requires c !in s
    ensures BeforeFirst(s, c) == s
  {
    if s != [] {
      assert c !in s[1..];
      BeforeFirstAbsent(s[1..], c);
    }
  }

  /** Where the first separator of `a + t` lies. */
  lemma {:induction false} BeforeFirstAppend(a: string, t: string, c: char)
    ensures BeforeFirst(a + t, c) == if c in a then BeforeFirst(a, c) else a + BeforeFirst(t, c)
  {
    if a != [] && a[0] != c {
      assert (a + t)[1..] == a[1..] + t;
      BeforeFirstAppend(a[1..], t, c);
      assert c in a <==> c in a[1..];
    } else if a == [] {
      assert a + t == t;
    } else {
      assert (a + t)[0] == c;
    }
  }

  /** Only the text before the first separator matters to `BeforeFirst`. */
  lemma {:induction false} BeforeFirstOfJoin(a: string, c: char, b: string)
    ensures BeforeFirst(a + [c] + b, c) == BeforeFirst(a, c)
  {
    if a != [] && a[0] != c {
      assert (a + [c] + b)[1..] == a[1..] + [c] + b;
      BeforeFirstOfJoin(a[1..], c, b);
    }
  }

  /** The leading run of non-space characters of `s`. */
  function WordPrefix(s: string): (r: string)
    ensures |r| <= |s| && r == s[..|r|]
    ensures forall i | 0 <= i < |r| :: !IsSpace(r[i])
    ensures |s| > 0 && !IsSpace(s[0]) ==> |r| > 0
  {
    if s == [] || IsSpace(s[0]) then [] else [s[0]] + WordPrefix(s[1..])
  }

  /** Python `s.split()`: the maximal runs of non-space characters, in order. */
  function Words(s: string): seq<string>
    decreases |s|
  {
    if s == [] then []
    else if IsSpace(s[0]) then Words(s[1..])
    else
      var w := WordPrefix(s);
      [w] + Words(s[|w|..])
  }

  /** Every word `split()` returns is a non-empty piece of the string. */
  lemma {:induction false} WordsOccur(s: string, w: string)
    requires w in Words(s)
    ensures w != [] && Contains(s, w)
    decreases |s|
  {
    if IsSpace(s[0]) {
      WordsOccur(s[1..], w);
      assert s[1..|s|] == s[1..];
      ContainsInSlice(s, 1, |s|, w);
    } else {
      var v := WordPrefix(s);
      if w == v {
        assert OccursAt(s, w, 0);
      } else {
        assert w in Words(s[|v|..]);
        WordsOccur(s[|v|..], w);
        assert s[|v|..|s|] == s[|v|..];
        ContainsInSlice(s, |v|, |s|, w);
      }
    }
  }
}
