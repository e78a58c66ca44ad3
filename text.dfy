/** Python string primitives the task runner relies on: `in`, `str.replace`,
    `" ".join`, `str(int)` and the `\s` character class. */
module Text {

  datatype Option<+T> = None | Some(value: T)

  /** Python's `\s` for str patterns: ASCII whitespace, the information
      separators 0x1C-0x1F and the Unicode space characters. */
  predicate IsSpace(c: char) {
    var n := c as int;
    (9 <= n <= 13) || (28 <= n <= 32) || n == 0x85 || n == 0xA0 || n == 0x1680
    || (0x2000 <= n <= 0x200A) || n == 0x2028 || n == 0x2029 || n == 0x202F
    || n == 0x205F || n == 0x3000
  }

  predicate IsPrefix<T(==)>(p: seq<T>, s: seq<T>) {
    |p| <= |s| && s[..|p|] == p
  }

  /** `t` starts at position `i` of `s`. */
  predicate OccursAt(s: string, t: string, i: int) {
    0 <= i <= |s| - |t| && s[i..i + |t|] == t
  }

  /** `t in s` for Python strings. */
  predicate Contains(s: string, t: string) {
    exists i | 0 <= i <= |s| - |t| :: OccursAt(s, t, i)
  }

  lemma ContainsAt(s: string, t: string, i: int)
    requires OccursAt(s, t, i)
    ensures Contains(s, t)
  {
  }

  /** A string holding `t` holds every prefix of `t`. */
  lemma ContainsPrefixOf(s: string, t: string, u: string)
    requires Contains(s, t) && IsPrefix(u, t)
    ensures Contains(s, u)
  {
    var i :| 0 <= i <= |s| - |t| && OccursAt(s, t, i);
    assert s[i..i + |u|] == t[..|u|];
    assert OccursAt(s, u, i);
  }

  /** A string without `u` holds no string that starts with `u`. */
  lemma Unextended(s: string, t: string, u: string)
    requires IsPrefix(u, t)
    ensures !Contains(s, u) ==> !Contains(s, t)
  {
    if Contains(s, t) {
      ContainsPrefixOf(s, t, u);
    }
  }

  lemma ContainsTail(s: string, t: string)
    requires |s| > 0 && Contains(s[1..], t)
    ensures Contains(s, t)
  {
    var i :| 0 <= i <= |s[1..]| - |t| && OccursAt(s[1..], t, i);
    assert s[i + 1..i + 1 + |t|] == t;
    assert OccursAt(s, t, i + 1);
  }

  /** `s.replace(pat, rep)`: every non-overlapping occurrence of `pat`,
      scanning from the left, is replaced by `rep`. */
  function ReplaceAll(s: string, pat: string, rep: string): string
    requires |pat| > 0
    decreases |s|
  {
    if |s| < |pat| then s
    else if s[..|pat|] == pat then rep + ReplaceAll(s[|pat|..], pat, rep)
    else [s[0]] + ReplaceAll(s[1..], pat, rep)
  }

  /** A string without the pattern comes back unchanged. */
  lemma {:induction false} ReplaceAbsent(s: string, pat: string, rep: string)
    requires |pat| > 0 && !Contains(s, pat)
    ensures ReplaceAll(s, pat, rep) == s
    decreases |s|
  {
    if |s| >= |pat| {
      if s[..|pat|] == pat {
        ContainsAt(s, pat, 0);
      } else {
        if Contains(s[1..], pat) {
          ContainsTail(s, pat);
        }
        ReplaceAbsent(s[1..], pat, rep);
      }
    }
  }

  /** Replacing a whole string that is the pattern yields the replacement. */
  lemma ReplaceWhole(pat: string, rep: string)
    requires |pat| > 0
    ensures ReplaceAll(pat, pat, rep) == rep
  {
    assert pat[..|pat|] == pat;
    assert pat[|pat|..] == [];
  }

  /** A prefix in which no occurrence of the pattern starts is kept as it
      is, and the replacement goes on after it. */
  lemma {:induction false} ReplaceAfterPrefix(p: string, t: string, pat: string, rep: string)
    requires |pat| > 0
    requires forall i :: 0 <= i < |p| ==> !OccursAt(p + t, pat, i)
    ensures ReplaceAll(p + t, pat, rep) == p + ReplaceAll(t, pat, rep)
    decreases |p|
  {
    if p != [] {
      var s := p + t;
      if |s| >= |pat| {
        assert !OccursAt(s, pat, 0);
        assert s[1..] == p[1..] + t;
        forall i | 0 <= i < |p[1..]| ensures !OccursAt(p[1..] + t, pat, i) {
          assert !OccursAt(s, pat, i + 1);
          if i + |pat| <= |s[1..]| {
            assert s[1..][i..i + |pat|] == s[i + 1..i + 1 + |pat|];
          }
        }
        ReplaceAfterPrefix(p[1..], t, pat, rep);
        assert ReplaceAll(s, pat, rep) == [s[0]] + ReplaceAll(s[1..], pat, rep);
        assert p == [p[0]] + p[1..] && s[0] == p[0];
      } else {
        assert ReplaceAll(t, pat, rep) == t;
      }
    } else {
      assert p + t == t;
    }
  }

  /** Where the pattern occurs, the replacement occurs in the result. */
  lemma {:induction false} ReplaceIntroduces(s: string, pat: string, rep: string)
    requires |pat| > 0 && Contains(s, pat)
    ensures Contains(ReplaceAll(s, pat, rep), rep)
    decreases |s|
  {
    var i :| 0 <= i <= |s| - |pat| && OccursAt(s, pat, i);
    if s[..|pat|] == pat {
      var r := ReplaceAll(s, pat, rep);
      assert r == rep + ReplaceAll(s[|pat|..], pat, rep);
      assert r[0..|rep|] == rep;
      ContainsAt(r, rep, 0);
    } else {
      assert i > 0;
      assert s[1..][i - 1..i - 1 + |pat|] == pat;
      ContainsAt(s[1..], pat, i - 1);
      ReplaceIntroduces(s[1..], pat, rep);
      var tail := ReplaceAll(s[1..], pat, rep);
      var j :| 0 <= j <= |tail| - |rep| && OccursAt(tail, rep, j);
      var r := [s[0]] + tail;
      assert r[j + 1..j + 1 + |rep|] == rep;
      ContainsAt(r, rep, j + 1);
    }
  }

  /** `sep.join(xs)`. */
  function Join(xs: seq<string>, sep: string): string {
    if |xs| == 0 then ""
    else if |xs| == 1 then xs[0]
    else xs[0] + sep + Join(xs[1..], sep)
  }

  /** Joining one more string puts the separator between it and the rest. */
  lemma {:induction false} JoinAppend(xs: seq<string>, x: string, sep: string)
    requires |xs| > 0
    ensures Join(xs + [x], sep) == Join(xs, sep) + sep + x
    decreases |xs|
  {
    if |xs| > 1 {
      assert (xs + [x])[1..] == xs[1..] + [x];
      JoinAppend(xs[1..], x, sep);
    }
  }

  /** `s.replace(".", "_")`. */
  function Underscored(s: string): (r: string)
    ensures |r| == |s| && '.' !in r
    ensures '.' !in s ==> r == s
  {
    if s == [] then [] else [if s[0] == '.' then '_' else s[0]] + Underscored(s[1..])
  }

  function Digit(d: nat): char
    requires d < 10
  {
    "0123456789"[d]
  }

  /** `str(n)` for a non-negative int. */
  function NatToDecimal(n: nat): (r: string)
    ensures |r| >= 1
    ensures n >= 10 <==> |r| >= 2
    decreases n
  {
    if n < 10 then [Digit(n)] else NatToDecimal(n / 10) + [Digit(n % 10)]
  }

  /** `str(i)` for any int. */
  function IntToDecimal(i: int): string {
    if i < 0 then "-" + NatToDecimal(-i) else NatToDecimal(i)
  }

  /** Distinct numbers are printed differently, so a printed index names one
      position at most. */
  lemma {:induction false} DecimalInjective(a: nat, b: nat)
    requires NatToDecimal(a) == NatToDecimal(b)
    ensures a == b
    decreases a
  {
    var s := NatToDecimal(a);
    if a < 10 && b < 10 {
      assert Digit(a) == s[0] == Digit(b);
    } else if a >= 10 && b >= 10 {
      assert NatToDecimal(a / 10) == s[..|s| - 1] == NatToDecimal(b / 10);
      assert Digit(a % 10) == s[|s| - 1] == Digit(b % 10);
      DecimalInjective(a / 10, b / 10);
    }
  }

  /** The `i` with `str(i) == answer` and `i < n`, searching from `from`. */
  function DecimalIndex(answer: string, n: nat, from: nat): (r: Option<nat>)
    requires from <= n
    ensures r.Some? ==> from <= r.value < n && NatToDecimal(r.value) == answer
    ensures r.None? ==> forall i :: from <= i < n ==> NatToDecimal(i) != answer
    decreases n - from
  {
    if from == n then None
    else if NatToDecimal(from) == answer then Some(from)
    else DecimalIndex(answer, n, from + 1)
  }
}
