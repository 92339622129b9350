/** The few Python `str` operations the podcast pipeline is built from,
    written over `seq<char>`: `isspace`, `strip()`, `split(sep)`, `in`,
    `startswith`, `replace`, `lower()` and prefix slicing `s[:n]`. */
module PyStr {

  /** `c.isspace()`: exactly the characters that `str.strip()` with no
      argument removes (ASCII whitespace, the four information separators,
      NEL, NBSP and the Unicode space separators). */
  predicate IsSpace(c: char) {
    ('\t' <= c <= '\r') || ('\U{1C}' <= c <= '\U{1F}') || c == ' '
    || c == '\U{85}' || c == '\U{A0}' || c == '\U{1680}'
    || ('\U{2000}' <= c <= '\U{200A}') || c == '\U{2028}' || c == '\U{2029}'
    || c == '\U{202F}' || c == '\U{205F}' || c == '\U{3000}'
  }

  predicate AllSpace(s: string) {
    forall k :: 0 <= k < |s| ==> IsSpace(s[k])
  }

  /** Number of leading whitespace characters of `s`. */
  function LeadingSpaces(s: string): (n: nat)
    ensures n <= |s|
    ensures forall k :: 0 <= k < n ==> IsSpace(s[k])
    ensures n < |s| ==> !IsSpace(s[n])
  {
    if |s| > 0 && IsSpace(s[0]) then 1 + LeadingSpaces(s[1..]) else 0
  }

  /** Number of trailing whitespace characters of `s`. */
  function TrailingSpaces(s: string): (n: nat)
    ensures n <= |s|
    ensures forall k :: |s| - n <= k < |s| ==> IsSpace(s[k])
    ensures n < |s| ==> !IsSpace(s[|s| - n - 1])
  {
    if |s| > 0 && IsSpace(s[|s| - 1]) then 1 + TrailingSpaces(s[..|s| - 1]) else 0
  }

  /** `s.lstrip()`: what is left after dropping leading whitespace. */
  function TrimStart(s: string): string {
    s[LeadingSpaces(s)..]
  }

  /** `s.rstrip()`: what is left after dropping trailing whitespace. */
  function TrimEnd(s: string): string {
    s[..|s| - TrailingSpaces(s)]
  }

  /** `s.strip()`: the middle of `s` between its leading and its trailing
      whitespace. */
  function Strip(s: string): (r: string)
    ensures |r| <= |s|
    ensures r != [] ==> !IsSpace(r[0]) && !IsSpace(r[|r| - 1])
  {
    TrimEnd(TrimStart(s))
  }

  /** The characterisation of `strip()` that does not mention how it is
      computed: whatever is framed by whitespace on both sides, and starts
      and ends with a non-space character, is what `strip()` returns. */
  lemma {:induction false} StripUnique(a: string, m: string, b: string)
    requires AllSpace(a) && AllSpace(b)
    requires m != [] ==> !IsSpace(m[0]) && !IsSpace(m[|m| - 1])
    ensures Strip(a + m + b) == m
  {
    assert a + m + b == a + (m + b);
    if m == [] {
      assert m + b == b;
      assert AllSpace(a + b);
      assert TrimStart(a + m + b) == [];
    } else {
      TrimStartSkips(a, m + b);
      TrimEndSkips(m, b);
    }
  }

  lemma {:induction false} TrimStartSkips(a: string, t: string)
    requires AllSpace(a)
    requires t != [] ==> !IsSpace(t[0])
    ensures TrimStart(a + t) == t
  {
    if a != [] {
      assert (a + t)[1..] == a[1..] + t;
      TrimStartSkips(a[1..], t);
    } else {
      assert a + t == t;
    }
  }

  lemma {:induction false} TrimEndSkips(m: string, b: string)
    requires AllSpace(b)
    requires m != [] ==> !IsSpace(m[|m| - 1])
    ensures TrimEnd(m + b) == m
  {
    if b != [] {
      assert (m + b)[..|m + b| - 1] == m + b[..|b| - 1];
      TrimEndSkips(m, b[..|b| - 1]);
    } else {
      assert m + b == m;
    }
  }

  /** A string that neither starts nor ends with whitespace is its own
      strip. */
  lemma StripNoEdges(s: string)
    requires s != [] ==> !IsSpace(s[0]) && !IsSpace(s[|s| - 1])
    ensures Strip(s) == s
  {
    StripUnique([], s, []);
    assert [] + s + [] == s;
  }

  /** Leading whitespace before a string with no whitespace at its edges
      is all that `strip()` removes. */
  lemma StripLeading(a: string, m: string)
    requires AllSpace(a)
    requires m != [] ==> !IsSpace(m[0]) && !IsSpace(m[|m| - 1])
    ensures Strip(a + m) == m
  {
    StripUnique(a, m, []);
    assert a + m + [] == a + m;
  }

  /** `strip()` is idempotent. */
  lemma StripIdempotent(s: string)
    ensures Strip(Strip(s)) == Strip(s)
  {
    StripNoEdges(Strip(s));
  }

  /** Index of the first `c` in `s`, or `|s|` when there is none
      (`s.find(c)` with `-1` replaced by the length). */
  function IndexOf(s: string, c: char): (i: nat)
    ensures i <= |s|
    ensures i < |s| ==> s[i] == c
  {
    if |s| == 0 then 0 else if s[0] == c then 0 else 1 + IndexOf(s[1..], c)
  }

  /** `IndexOf` finds a `c` whenever there is one. */
  lemma {:induction false} IndexOfFound(s: string, c: char)
    requires c in s
    ensures IndexOf(s, c) < |s|
  {
    if s[0] != c {
      assert c in s[1..] by {
        var k :| 0 <= k < |s| && s[k] == c;
        assert s[1..][k - 1] == c;
      }
      IndexOfFound(s[1..], c);
    }
  }

  /** No `c` comes before the one `IndexOf` finds. */
  lemma {:induction false} IndexOfFirst(s: string, c: char)
    ensures forall k :: 0 <= k < IndexOf(s, c) ==> s[k] != c
  {
    if |s| > 0 && s[0] != c {
      IndexOfFirst(s[1..], c);
    }
  }

  /** `s.split(c)` for a one-character separator: the pieces between the
      separators, always at least one (`"".split("\n") == [""]`). */
  function Split(s: string, c: char): (r: seq<string>)
    ensures |r| >= 1
    decreases |s|
  {
    var i := IndexOf(s, c);
    if i == |s| then [s] else [s[..i]] + Split(s[i + 1..], c)
  }

  /** `c.join(parts)`, the inverse of `Split`. */
  function JoinWith(parts: seq<string>, c: char): string {
    if |parts| == 0 then ""
    else if |parts| == 1 then parts[0]
    else parts[0] + [c] + JoinWith(parts[1..], c)
  }

  /** Splitting loses nothing: joining the pieces back gives the input. */
  lemma {:induction false} JoinSplit(s: string, c: char)
    ensures JoinWith(Split(s, c), c) == s
    decreases |s|
  {
    var i := IndexOf(s, c);
    if i < |s| {
      var rest := s[i + 1..];
      JoinSplit(rest, c);
      JoinCons(s[..i], Split(rest, c), c);
      CutAt(s, i);
    }
  }

  /** A string is the part before position `i`, the character there, and
      the part after. */
  lemma CutAt(s: string, i: nat)
    requires i < |s|
    ensures s == s[..i] + [s[i]] + s[i + 1..]
  {
  }

  /** Joining puts the separator between the first piece and the join of
      the others. */
  lemma JoinCons(p: string, tail: seq<string>, c: char)
    requires |tail| >= 1
    ensures JoinWith([p] + tail, c) == p + [c] + JoinWith(tail, c)
  {
    assert ([p] + tail)[1..] == tail;
  }

  /** Splitting a join of separator-free pieces gives the pieces back, so a
      script's line structure is exactly what `split('\n')` recovers. */
  lemma {:induction false} SplitJoin(parts: seq<string>, c: char)
    requires |parts| >= 1
    requires forall k :: 0 <= k < |parts| ==> c !in parts[k]
    ensures Split(JoinWith(parts, c), c) == parts
  {
    var p := parts[0];
    if |parts| == 1 {
      IndexOfAbsent(p, c);
    } else {
      var tail := parts[1..];
      var t := JoinWith(tail, c);
      IndexOfPast(p, c, t);
      Pieces(p, c, t);
      SplitJoin(tail, c);
      assert parts == [p] + tail;
    }
  }

  /** Without a `c`, `IndexOf` runs to the end. */
  lemma IndexOfAbsent(s: string, c: char)
    requires c !in s
    ensures IndexOf(s, c) == |s|
  {
  }

  /** The first `c` of `p + [c] + t` is the one after `p` when `p` has none. */
  lemma {:induction false} IndexOfPast(p: string, c: char, t: string)
    requires c !in p
    ensures IndexOf(p + [c] + t, c) == |p|
  {
    if |p| > 0 {
      assert (p + [c] + t)[1..] == p[1..] + [c] + t;
      assert c !in p[1..] by {
        forall k | 0 <= k < |p| - 1
          ensures p[1..][k] != c
        {
          assert p[1..][k] == p[k + 1];
        }
      }
      IndexOfPast(p[1..], c, t);
    }
  }

  /** The two sides of a separator put between `p` and `t`. */
  lemma Pieces(p: string, c: char, t: string)
    ensures var s := p + [c] + t; |s| == |p| + 1 + |t| && s[|p|] == c && s[..|p|] == p && s[|p| + 1..] == t
  {
  }

  /** `s.startswith(p)`. */
  predicate StartsWith(s: string, p: string) {
    |p| <= |s| && s[..|p|] == p
  }

  /** `sub in s`: `s` starts with `sub`, or its tail contains it. */
  predicate Contains(s: string, sub: string)
    ensures Contains(s, sub) ==> |sub| <= |s|
    ensures |sub| == 0 ==> Contains(s, sub)
    decreases |s|
  {
    StartsWith(s, sub) || (|s| > 0 && Contains(s[1..], sub))
  }

  /** `sub in s` holds exactly when some window of `s` equals `sub`. */
  lemma {:induction false} ContainsWindow(s: string, sub: string)
    ensures Contains(s, sub) <==> exists i :: 0 <= i <= |s| - |sub| && StartsWith(s[i..], sub)
    decreases |s|
  {
    assert s[0..] == s;
    if |s| > 0 {
      ContainsWindow(s[1..], sub);
      if Contains(s[1..], sub) {
        var i :| 0 <= i <= |s| - 1 - |sub| && StartsWith(s[1..][i..], sub);
        assert s[1..][i..] == s[i + 1..];
      }
      if exists i :: 0 <= i <= |s| - |sub| && StartsWith(s[i..], sub) {
        var i :| 0 <= i <= |s| - |sub| && StartsWith(s[i..], sub);
        if i > 0 {
          assert s[1..][i - 1..] == s[i..];
          assert StartsWith(s[1..][i - 1..], sub);
          assert Contains(s[1..], sub);
        }
      }
    } else if exists i :: 0 <= i <= |s| - |sub| && StartsWith(s[i..], sub) {
      var i :| 0 <= i <= |s| - |sub| && StartsWith(s[i..], sub);
      assert i == 0;
    }
  }

  /** `s.replace(pat, rep)`: every non-overlapping occurrence of `pat`,
      scanning left to right, is replaced by `rep`; an empty `pat` inserts
      `rep` before every character and at the end. */
  function Replace(s: string, pat: string, rep: string): string
    decreases |s|
  {
    if |pat| == 0 then
      if |s| == 0 then rep else rep + [s[0]] + Replace(s[1..], pat, rep)
    else if |s| < |pat| then s
    else if s[..|pat|] == pat then rep + Replace(s[|pat|..], pat, rep)
    else [s[0]] + Replace(s[1..], pat, rep)
  }

  /** `replace` leaves a string without an occurrence of `pat` unchanged. */
  lemma {:induction false} ReplaceAbsent(s: string, pat: string, rep: string)
    requires |pat| > 0 && !Contains(s, pat)
    ensures Replace(s, pat, rep) == s
    decreases |s|
  {
    if |s| >= |pat| {
      ReplaceAbsent(s[1..], pat, rep);
      assert s == [s[0]] + s[1..];
    }
  }

  /** Deleting with `replace(pat, "")` never lengthens a string. */
  lemma {:induction false} ReplaceShrinks(s: string, pat: string)
    requires |pat| > 0
    ensures |Replace(s, pat, "")| <= |s|
    decreases |s|
  {
    if |s| >= |pat| {
      if s[..|pat|] == pat {
        ReplaceShrinks(s[|pat|..], pat);
      } else {
        ReplaceShrinks(s[1..], pat);
      }
    }
  }

  /** `c.lower()` on the ASCII letters; every other character is left as
      it is. */
  function LowerChar(c: char): (r: char)
    ensures !('A' <= r <= 'Z')
    ensures r == c <==> !('A' <= c <= 'Z')
    ensures 'a' <= r <= 'z' <==> 'a' <= c <= 'z' || 'A' <= c <= 'Z'
    ensures 'A' <= c <= 'Z' ==> r as int - 'a' as int == c as int - 'A' as int
  {
    if 'A' <= c <= 'Z' then (c as int + 32) as char else c
  }

  /** `s.lower()`, character by character. */
  function Lower(s: string): (r: string)
    ensures |r| == |s|
  {
    if |s| == 0 then [] else [LowerChar(s[0])] + Lower(s[1..])
  }

  /** `lower()` maps each character on its own. */
  lemma {:induction false} LowerEach(s: string)
    ensures forall k :: 0 <= k < |s| ==> Lower(s)[k] == LowerChar(s[k])
  {
    if |s| > 0 {
      LowerEach(s[1..]);
      assert forall k :: 1 <= k < |s| ==> Lower(s)[k] == Lower(s[1..])[k - 1];
    }
  }

  /** Python's `s[:n]` for any integer `n`: a negative `n` counts from the
      end, and a bound past either end is clamped. */
  function SliceTo(s: string, n: int): (r: string)
    ensures StartsWith(s, r)
    ensures n >= |s| ==> r == s
    ensures 0 <= n <= |s| ==> |r| == n
    ensures n < 0 ==> |r| == if |s| + n >= 0 then |s| + n else 0
  {
    var k := if n >= 0 then (if n <= |s| then n else |s|)
             else (if |s| + n >= 0 then |s| + n else 0);
    s[..k]
  }
}
