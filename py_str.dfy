/**
  The Python `str` built-ins that the persona code relies on: `lower`,
  `rstrip`, `replace` and `sep.join`, together with `split` on a single
  character as the inverse of `join`.
 */
module PyStr {

  predicate IsUpper(c: char) {
    'A' <= c <= 'Z'
  }

  /** No ASCII upper-case letter occurs in `s`. */
  predicate NoUpper(s: string) {
    forall c :: c in s ==> !IsUpper(c)
  }

  function LowerChar(c: char): char {
    if IsUpper(c) then (c as int + 32) as char else c
  }

  /** `s.lower()`, over ASCII: each upper-case letter becomes the lower-case
      letter at the same place in the alphabet, everything else is kept. */
  function Lower(s: string): (r: string)
    ensures |r| == |s|
    ensures NoUpper(r)
    ensures forall i :: 0 <= i < |s| && !IsUpper(s[i]) ==> r[i] == s[i]
    ensures forall i :: 0 <= i < |s| && IsUpper(s[i]) ==>
      'a' <= r[i] <= 'z' && r[i] as int - 'a' as int == s[i] as int - 'A' as int
  {
    if s == [] then [] else [LowerChar(s[0])] + Lower(s[1..])
  }

  /** `s` is empty or its last character is not in `chars`. */
  predicate EndsOutside(s: string, chars: set<char>) {
    s == [] || s[|s| - 1] !in chars
  }

  /** `s.rstrip(chars)`: the longest prefix of `s` that does not end in one of
      `chars`; everything removed is in `chars`. */
  function RStrip(s: string, chars: set<char>): (r: string)
    ensures r <= s
    ensures EndsOutside(r, chars)
    ensures forall i :: |r| <= i < |s| ==> s[i] in chars
    decreases |s|
  {
    if s != [] && s[|s| - 1] in chars then RStrip(s[..|s| - 1], chars) else s
  }

  /** `rstrip` removes a trailing run of `chars` from a text that otherwise
      ends outside them. */
  lemma {:induction false} RStripRun(x: string, p: string, chars: set<char>)
    requires EndsOutside(x, chars)
    requires forall c :: c in p ==> c in chars
    ensures RStrip(x + p, chars) == x
    decreases |p|
  {
    if p == [] {
      assert x + p == x;
    } else {
      assert (x + p)[|x + p| - 1] == p[|p| - 1];
      assert (x + p)[..|x + p| - 1] == x + p[..|p| - 1];
      assert forall c :: c in p[..|p| - 1] ==> c in p;
      RStripRun(x, p[..|p| - 1], chars);
    }
  }

  /** `pat` occurs in `s` as a contiguous substring. */
  predicate Contains(s: string, pat: string)
    decreases |s|
  {
    pat <= s || (s != [] && Contains(s[1..], pat))
  }

  /** `s.startswith(pat)`, compared character by character. */
  predicate StartsWith(s: string, pat: string)
    ensures StartsWith(s, pat) <==> pat <= s
    decreases |pat|
  {
    pat == [] || (s != [] && s[0] == pat[0] && StartsWith(s[1..], pat[1..]))
  }

  /** `s.replace(pat, rep)`: scan `s` from the left; where `pat` starts, emit
      `rep` and resume after the match, otherwise copy one character. The
      matches are literal and do not overlap. An empty `pat` matches before
      every character and at the end. */
  function ReplaceAll(s: string, pat: string, rep: string): (r: string)
    ensures forall c :: c in r ==> c in s || c in rep
    decreases |s|
  {
    if pat == [] then
      if s == [] then rep else rep + [s[0]] + ReplaceAll(s[1..], pat, rep)
    else if s == [] then []
    else if StartsWith(s, pat) then rep + ReplaceAll(s[|pat|..], pat, rep)
    else [s[0]] + ReplaceAll(s[1..], pat, rep)
  }

  /** With a non-empty replacement, only the empty string can map to the empty string. */
  lemma {:induction false} ReplaceNonEmpty(s: string, pat: string, rep: string)
    requires s != [] && rep != []
    ensures ReplaceAll(s, pat, rep) != []
  {
    if pat == [] || pat <= s {
      assert ReplaceAll(s, pat, rep)[0] == rep[0];
    } else {
      assert ReplaceAll(s, pat, rep)[0] == s[0];
    }
  }

  /** Where `pat` does not occur, `replace` leaves the string as it is. */
  lemma {:induction false} ReplaceAbsent(s: string, pat: string, rep: string)
    requires pat != [] && !Contains(s, pat)
    ensures ReplaceAll(s, pat, rep) == s
    decreases |s|
  {
    if s != [] {
      ReplaceAbsent(s[1..], pat, rep);
    }
  }

  /** If neither `s` nor `rep` ends in one of `chars`, neither does the result. */
  lemma {:induction false} ReplaceEndsOutside(s: string, pat: string, rep: string, chars: set<char>)
    requires rep != [] && EndsOutside(rep, chars)
    requires EndsOutside(s, chars)
    ensures EndsOutside(ReplaceAll(s, pat, rep), chars)
    decreases |s|
  {
    if s == [] {
    } else {
      var rest := if pat == [] || !(pat <= s) then s[1..] else s[|pat|..];
      var tail := ReplaceAll(rest, pat, rep);
      var head := if pat == [] then rep + [s[0]] else if pat <= s then rep else [s[0]];
      assert ReplaceAll(s, pat, rep) == head + tail;
      if rest == [] {
        assert pat == [] ==> tail == rep;
      } else {
        assert rest[|rest| - 1] == s[|s| - 1];
        ReplaceEndsOutside(rest, pat, rep, chars);
        ReplaceNonEmpty(rest, pat, rep);
      }
    }
  }

  /** `pat` and `rep` are such that a replacement can never leave or create an
      occurrence of `pat`: the first character of `pat` is not in `rep`, and no
      proper suffix of `pat` agrees with `rep` on their common length. */
  predicate NonInterfering(pat: string, rep: string) {
    && pat != []
    && pat[0] !in rep
    && forall d :: 1 <= d < |pat| ==> !(pat[d..] <= rep) && !(rep <= pat[d..])
  }

  /** A non-empty `q` starts `[c] + y` exactly when it starts with `c` and the
      rest of `q` starts `y`. */
  lemma PrefixOfCons(q: string, c: char, y: string)
    requires q != []
    ensures q <= [c] + y <==> q[0] == c && q[1..] <= y
  {
    assert ([c] + y)[1..] == y;
    assert q == [q[0]] + q[1..];
  }

  /** A prefix of `a + b` is a prefix of `a` or has `a` as a prefix. */
  lemma PrefixOfConcat(q: string, a: string, b: string)
    ensures q <= a + b ==> q <= a || a <= q
  {
    if |q| <= |a| {
      assert (a + b)[..|q|] == a[..|q|];
    } else {
      assert (a + b)[..|a|] == a;
    }
  }

  /** A proper suffix of `pat` can start the output only where it starts the input. */
  lemma {:induction false} SuffixThroughReplace(t: string, pat: string, rep: string, d: nat)
    requires NonInterfering(pat, rep)
    requires 1 <= d <= |pat|
    ensures pat[d..] <= ReplaceAll(t, pat, rep) ==> pat[d..] <= t
    decreases |t|
  {
    var q := pat[d..];
    if d < |pat| && t != [] {
      if pat <= t {
        var x := ReplaceAll(t[|pat|..], pat, rep);
        assert ReplaceAll(t, pat, rep) == rep + x;
        PrefixOfConcat(q, rep, x);
      } else {
        var y := ReplaceAll(t[1..], pat, rep);
        assert ReplaceAll(t, pat, rep) == [t[0]] + y;
        assert q[1..] == pat[d + 1..];
        SuffixThroughReplace(t[1..], pat, rep, d + 1);
        PrefixOfCons(q, t[0], y);
        PrefixOfCons(q, t[0], t[1..]);
        assert [t[0]] + t[1..] == t;
      }
    }
  }

  /** Prepending a string that cannot start `pat` creates no occurrence of it. */
  lemma {:induction false} PrependKeepsAbsent(x: string, y: string, pat: string)
    requires pat != [] && pat[0] !in x
    requires !Contains(y, pat)
    ensures !Contains(x + y, pat)
    decreases |x|
  {
    if x == [] {
      assert x + y == y;
    } else {
      assert x + y == [x[0]] + (x[1..] + y);
      assert x[0] in x;
      PrefixOfCons(pat, x[0], x[1..] + y);
      PrependKeepsAbsent(x[1..], y, pat);
    }
  }

  /** After `replace`, a non-interfering pattern no longer occurs. */
  lemma {:induction false} ReplaceLeavesNoMatch(s: string, pat: string, rep: string)
    requires NonInterfering(pat, rep)
    ensures !Contains(ReplaceAll(s, pat, rep), pat)
    decreases |s|
  {
    if s == [] {
    } else if pat <= s {
      ReplaceLeavesNoMatch(s[|pat|..], pat, rep);
      PrependKeepsAbsent(rep, ReplaceAll(s[|pat|..], pat, rep), pat);
    } else {
      var y := ReplaceAll(s[1..], pat, rep);
      ReplaceLeavesNoMatch(s[1..], pat, rep);
      assert ([s[0]] + y)[1..] == y;
      SuffixThroughReplace(s[1..], pat, rep, 1);
      PrefixOfCons(pat, s[0], y);
      PrefixOfCons(pat, s[0], s[1..]);
      assert [s[0]] + s[1..] == s;
    }
  }

  /** Replacing a non-interfering pattern twice is the same as replacing it once. */
  lemma ReplaceIdempotent(s: string, pat: string, rep: string)
    requires NonInterfering(pat, rep)
    ensures ReplaceAll(ReplaceAll(s, pat, rep), pat, rep) == ReplaceAll(s, pat, rep)
  {
    ReplaceLeavesNoMatch(s, pat, rep);
    ReplaceAbsent(ReplaceAll(s, pat, rep), pat, rep);
  }

  /** `lower` works character by character, so it distributes over concatenation. */
  lemma {:induction false} LowerConcat(a: string, b: string)
    ensures Lower(a + b) == Lower(a) + Lower(b)
    decreases |a|
  {
    if a != [] {
      assert (a + b)[1..] == a[1..] + b;
      LowerConcat(a[1..], b);
    } else {
      assert a + b == b;
    }
  }

  /** Text without upper-case letters is its own lower-case form. */
  lemma {:induction false} LowerKeeps(s: string)
    requires NoUpper(s)
    ensures Lower(s) == s
    decreases |s|
  {
    if s != [] {
      assert s[0] in s;
      assert forall c :: c in s[1..] ==> c in s;
      LowerKeeps(s[1..]);
      assert s == [s[0]] + s[1..];
    }
  }

  /** A character of `pat` that never occurs in `s` rules out every match. */
  lemma {:induction false} MissingCharAbsent(s: string, pat: string, i: nat)
    requires i < |pat| && pat[i] !in s
    ensures !Contains(s, pat)
    decreases |s|
  {
    if s != [] {
      assert forall c :: c in s[1..] ==> c in s;
      MissingCharAbsent(s[1..], pat, i);
    }
  }

  /** `replace` copies a stretch that cannot start a match. */
  lemma {:induction false} ReplaceSkip(a: string, b: string, pat: string, rep: string)
    requires pat != [] && pat[0] !in a
    ensures ReplaceAll(a + b, pat, rep) == a + ReplaceAll(b, pat, rep)
    decreases |a|
  {
    if a == [] {
      assert a + b == b;
    } else {
      assert a + b == [a[0]] + (a[1..] + b);
      assert a[0] in a;
      ReplaceAtMiss(a[0], a[1..] + b, pat, rep);
      ReplaceSkip(a[1..], b, pat, rep);
      assert a == [a[0]] + a[1..];
    }
  }

  /** At a match, `replace` emits the replacement and resumes after the match. */
  lemma ReplaceAtMatch(pat: string, b: string, rep: string)
    requires pat != []
    ensures ReplaceAll(pat + b, pat, rep) == rep + ReplaceAll(b, pat, rep)
  {
    assert (pat + b)[|pat|..] == b;
  }

  /** Where the pattern does not start, `replace` copies one character. */
  lemma ReplaceAtMiss(c: char, b: string, pat: string, rep: string)
    requires pat != [] && !StartsWith([c] + b, pat)
    ensures ReplaceAll([c] + b, pat, rep) == [c] + ReplaceAll(b, pat, rep)
  {
    assert ([c] + b)[1..] == b;
  }

  /** A character of `pat` missing from `s` leaves `s` unchanged by `replace`. */
  lemma ReplaceMissingChar(s: string, pat: string, rep: string, i: nat)
    requires i < |pat| && pat[i] !in s
    ensures ReplaceAll(s, pat, rep) == s
  {
    MissingCharAbsent(s, pat, i);
    ReplaceAbsent(s, pat, rep);
  }

  /** No `c1` in `s` is followed, `gap` places further on, by `c2`. */
  predicate NoGap(s: string, c1: char, c2: char, gap: nat) {
    forall k :: 0 <= k && k + gap < |s| ==> !(s[k] == c1 && s[k + gap] == c2)
  }

  /** Evidence `(i, j)` that `pat` does not occur in `s`: either its character
      `i` (when `i == j`) is missing from `s`, or its characters `i` and `j`
      never stand at that distance in `s`. */
  predicate Excludes(s: string, pat: string, i: nat, j: nat) {
    i <= j < |pat| && if i == j then pat[i] !in s else NoGap(s, pat[i], pat[j], j - i)
  }

  /** Such evidence rules out every occurrence of `pat`. */
  lemma {:induction false} ExcludesAbsent(s: string, pat: string, i: nat, j: nat)
    requires Excludes(s, pat, i, j)
    ensures !Contains(s, pat)
    decreases |s|
  {
    if i == j {
      MissingCharAbsent(s, pat, i);
    } else {
      if j < |s| {
        assert !(s[i] == pat[i] && s[i + (j - i)] == pat[j]);
      }
      if s != [] {
        assert NoGap(s[1..], pat[i], pat[j], j - i) by {
          forall k | 0 <= k && k + (j - i) < |s[1..]|
            ensures !(s[1..][k] == pat[i] && s[1..][k + (j - i)] == pat[j])
          {
            assert s[1..][k] == s[k + 1] && s[1..][k + (j - i)] == s[k + 1 + (j - i)];
          }
        }
        ExcludesAbsent(s[1..], pat, i, j);
      }
    }
  }

  /** With such evidence, `replace` leaves `s` unchanged. */
  lemma ReplaceExcluded(s: string, pat: string, rep: string, i: nat, j: nat)
    requires Excludes(s, pat, i, j)
    ensures ReplaceAll(s, pat, rep) == s
  {
    ExcludesAbsent(s, pat, i, j);
    ReplaceAbsent(s, pat, rep);
  }

  /** A text with exactly one occurrence of `pat`, after a stretch that cannot
      start one and before a stretch that does not contain one, has that
      occurrence replaced and nothing else. */
  lemma ReplaceOnce(a: string, b: string, pat: string, rep: string)
    requires pat != [] && pat[0] !in a
    requires !Contains(b, pat)
    ensures ReplaceAll(a + pat + b, pat, rep) == a + rep + b
  {
    assert a + pat + b == a + (pat + b);
    ReplaceSkip(a, pat + b, pat, rep);
    ReplaceAtMatch(pat, b, rep);
    ReplaceAbsent(b, pat, rep);
    assert a + (rep + b) == a + rep + b;
  }

  /** `sep.join(parts)`. */
  function Join(parts: seq<string>, sep: string): (r: string)
    decreases |parts|
  {
    if |parts| == 0 then []
    else if |parts| == 1 then parts[0]
    else parts[0] + sep + Join(parts[1..], sep)
  }

  /** `s.split(sep)` for a one-character separator: the pieces between
      separators, always at least one. */
  function Split(s: string, sep: char): (r: seq<string>)
    ensures |r| >= 1
    ensures forall i :: 0 <= i < |r| ==> sep !in r[i]
    decreases |s|
  {
    if s == [] then [[]]
    else
      var rest := Split(s[1..], sep);
      if s[0] == sep then [[]] + rest
      else [[s[0]] + rest[0]] + rest[1..]
  }

  /** A separator-free string splits to itself. */
  lemma {:induction false} SplitNoSep(x: string, sep: char)
    requires sep !in x
    ensures Split(x, sep) == [x]
    decreases |x|
  {
    if x != [] {
      SplitNoSep(x[1..], sep);
      assert [x[0]] + x[1..] == x;
    }
  }

  /** Splitting at the first separator peels off the text before it. */
  lemma {:induction false} SplitAtSep(x: string, y: string, sep: char)
    requires sep !in x
    ensures Split(x + [sep] + y, sep) == [x] + Split(y, sep)
    decreases |x|
  {
    if x == [] {
      assert ([sep] + y)[1..] == y;
    } else {
      assert (x + [sep] + y)[1..] == x[1..] + [sep] + y;
      SplitAtSep(x[1..], y, sep);
      assert [x[0]] + x[1..] == x;
    }
  }

  /** Joining separator-free pieces and splitting again gives the pieces back. */
  lemma {:induction false} SplitJoin(parts: seq<string>, sep: char)
    requires |parts| >= 1
    requires forall i :: 0 <= i < |parts| ==> sep !in parts[i]
    ensures Split(Join(parts, [sep]), sep) == parts
    decreases |parts|
  {
    if |parts| == 1 {
      SplitNoSep(parts[0], sep);
    } else {
      SplitJoin(parts[1..], sep);
      SplitAtSep(parts[0], Join(parts[1..], [sep]), sep);
      assert [parts[0]] + parts[1..] == parts;
    }
  }

  /** Splitting and joining again gives the string back. */
  lemma {:induction false} JoinSplit(s: string, sep: char)
    ensures Join(Split(s, sep), [sep]) == s
    decreases |s|
  {
    if s != [] {
      var rest := Split(s[1..], sep);
      JoinSplit(s[1..], sep);
      if s[0] == sep {
        assert ([[]] + rest)[1..] == rest;
      } else if |rest| == 1 {
        assert [s[0]] + s[1..] == s;
      } else {
        var r := [[s[0]] + rest[0]] + rest[1..];
        assert r[1..] == rest[1..];
        assert Join(rest, [sep]) == rest[0] + [sep] + Join(rest[1..], [sep]);
        assert [s[0]] + s[1..] == s;
      }
    }
  }
}
