/** The reference scanner of the resolution passes: Python's
    `re.findall(r"(?<=\$\{P).*?(?=\s*})", s)` for a fixed prefix `${P`.
    A match starts right after an occurrence of the prefix and is the
    shortest run of non-newline characters followed by optional whitespace
    and a `}`. As in CPython, the search resumes at the end of each match,
    and after an empty match the next match may start at the same position
    only if it is non-empty. */
module Lookaround {
  import opened Text

  /** The lookahead `(?=\s*})` holds at position `j`. */
  predicate ClosesAt(s: string, j: nat)
    decreases |s| - j
  {
    j < |s| && (s[j] == '}' || (IsSpace(s[j]) && ClosesAt(s, j + 1)))
  }

  /** The lookbehind `(?<=prefix)` holds at position `i`. */
  predicate FollowsPrefix(s: string, prefix: string, i: nat) {
    |prefix| <= i <= |s| && s[i - |prefix|..i] == prefix
  }

  /** The lazy `.*?` started at `i`, having tried the lengths below `k`:
      the least length `>= min` after which the lookahead holds. */
  function LazyLength(s: string, i: nat, k: nat, min: nat): (r: Option<nat>)
    requires i + k <= |s|
    ensures r.Some? ==> k <= r.value && min <= r.value && i + r.value < |s|
    ensures r.Some? ==> ClosesAt(s, i + r.value)
    decreases |s| - (i + k)
  {
    if k >= min && ClosesAt(s, i + k) then Some(k)
    else if i + k == |s| || s[i + k] == '\n' then None
    else LazyLength(s, i, k + 1, min)
  }

  /** The length found is the least one allowed, and the match holds no
      newline. */
  lemma {:induction false} LazyLengthLeast(s: string, i: nat, k: nat, min: nat)
    requires i + k <= |s| && LazyLength(s, i, k, min).Some?
    ensures var n := LazyLength(s, i, k, min).value;
      && (forall j :: i + k <= j < i + n && i + min <= j ==> !ClosesAt(s, j))
      && (forall j :: i + k <= j < i + n ==> s[j] != '\n')
    decreases |s| - (i + k)
  {
    if !(k >= min && ClosesAt(s, i + k)) {
      LazyLengthLeast(s, i, k + 1, min);
    }
  }

  /** The matches found by searching from `i`; `mustAdvance` is set right
      after an empty match at `i`. */
  function Scan(s: string, prefix: string, i: nat, mustAdvance: bool): seq<string>
    requires i <= |s|
    decreases |s| - i, if mustAdvance then 0 else 1
  {
    var m := if FollowsPrefix(s, prefix, i) then LazyLength(s, i, 0, if mustAdvance then 1 else 0) else None;
    if m.Some? then
      var k := m.value;
      [s[i..i + k]] + (if k == 0 then Scan(s, prefix, i, true) else Scan(s, prefix, i + k, false))
    else if i == |s| then []
    else Scan(s, prefix, i + 1, false)
  }

  function FindAll(s: string, prefix: string): seq<string> {
    Scan(s, prefix, 0, false)
  }

  /** A name that can stand between the prefix and the closing brace and
      be found whole: no `$`, no `}` and no whitespace. */
  predicate RefName(n: string) {
    forall j :: 0 <= j < |n| ==> n[j] != '$' && n[j] != '}' && !IsSpace(n[j])
  }

  /** A reference prefix such as `${env:`: it starts with the only `$`. */
  predicate RefPrefix(prefix: string) {
    |prefix| >= 1 && prefix[0] == '$' && forall j :: 1 <= j < |prefix| ==> prefix[j] != '$'
  }

  lemma {:induction false} ScanWithoutPrefix(s: string, prefix: string, i: nat, mustAdvance: bool)
    requires i <= |s| && !Contains(s, prefix)
    ensures Scan(s, prefix, i, mustAdvance) == []
    decreases |s| - i, if mustAdvance then 0 else 1
  {
    if FollowsPrefix(s, prefix, i) {
      ContainsAt(s, prefix, i - |prefix|);
    }
    if i < |s| {
      ScanWithoutPrefix(s, prefix, i + 1, false);
    }
  }

  /** A string without the prefix yields no match. */
  lemma NoMatchWithoutPrefix(s: string, prefix: string)
    requires !Contains(s, prefix)
    ensures FindAll(s, prefix) == []
  {
    ScanWithoutPrefix(s, prefix, 0, false);
  }

  lemma {:induction false} SkipPositions(s: string, prefix: string, i: nat, j: nat)
    requires i <= j <= |s|
    requires forall p :: i <= p < j ==> !FollowsPrefix(s, prefix, p)
    ensures Scan(s, prefix, i, false) == Scan(s, prefix, j, false)
    decreases j - i
  {
    if i < j {
      SkipPositions(s, prefix, i + 1, j);
    }
  }

  lemma {:induction false} LazyOverName(s: string, i: nat, n: string, k: nat)
    requires RefName(n) && k <= |n|
    requires i + |n| < |s| && s[i..i + |n|] == n && s[i + |n|] == '}'
    ensures LazyLength(s, i, k, 0) == Some(|n|)
    decreases |n| - k
  {
    if k < |n| {
      assert s[i + k] == n[k];
      assert !ClosesAt(s, i + k);
      LazyOverName(s, i, n, k + 1);
    }
  }

  /** In `${P` + name + `}` the lookbehind holds right after the prefix
      and nowhere else. */
  lemma OnlyAfterPrefix(prefix: string, n: string)
    requires RefPrefix(prefix) && RefName(n)
    ensures forall p :: 0 <= p <= |prefix + n + "}"| && p != |prefix| ==> !FollowsPrefix(prefix + n + "}", prefix, p)
  {
    var s := prefix + n + "}";
    var P := |prefix|;
    forall p | 0 <= p <= |s| && p != P
      ensures !FollowsPrefix(s, prefix, p)
    {
      if P <= p {
        var q := p - P;
        assert s[q] != '$' by {
          if q < P {
            assert s[q] == prefix[q];
          } else if q < P + |n| {
            assert s[q] == n[q - P];
          }
        }
        assert s[q..p][0] == s[q];
      }
    }
  }

  /** In `${P}` the empty match right after the prefix is not followed by
      another one at the same position. */
  lemma NoSecondEmptyMatch(s: string, prefix: string)
    requires |prefix| >= 1 && s == prefix + "}"
    ensures Scan(s, prefix, |prefix|, true) == []
  {
    var P := |prefix|;
    assert s[P] == '}';
    assert LazyLength(s, P, 1, 1) == None;
    assert LazyLength(s, P, 0, 1) == None;
    assert Scan(s, prefix, P, true) == Scan(s, prefix, P + 1, false);
  }

  /** `${P` + name + `}` yields exactly the name. */
  lemma SingleReference(prefix: string, n: string)
    requires RefPrefix(prefix) && RefName(n)
    ensures FindAll(prefix + n + "}", prefix) == [n]
  {
    var s := prefix + n + "}";
    var P := |prefix|;
    OnlyAfterPrefix(prefix, n);
    SkipPositions(s, prefix, 0, P);
    var rest := AfterName(prefix, n);
    assert s[P..P + |n|] == n;
    assert s[..P] == prefix;
    LazyOverName(s, P, n, 0);
    MatchAt(s, prefix, P, n);
  }

  /** A match of `n` right after the prefix at `i`, then the search goes on. */
  lemma MatchAt(s: string, prefix: string, i: nat, n: string)
    requires |prefix| <= i && i + |n| < |s| && s[i - |prefix|..i] == prefix && s[i..i + |n|] == n
    requires LazyLength(s, i, 0, 0) == Some(|n|)
    ensures Scan(s, prefix, i, false) == [n] + (if |n| == 0 then Scan(s, prefix, i, true) else Scan(s, prefix, i + |n|, false))
  {
    assert FollowsPrefix(s, prefix, i);
  }

  /** What the search finds after the name in `${P` + name + `}`: nothing. */
  lemma AfterName(prefix: string, n: string) returns (rest: seq<string>)
    requires RefPrefix(prefix) && RefName(n)
    ensures var s := prefix + n + "}";
      rest == (if |n| == 0 then Scan(s, prefix, |prefix|, true) else Scan(s, prefix, |prefix| + |n|, false))
    ensures rest == []
  {
    var s := prefix + n + "}";
    var P := |prefix|;
    if |n| == 0 {
      NoSecondEmptyMatch(s, prefix);
      rest := Scan(s, prefix, P, true);
    } else {
      OnlyAfterPrefix(prefix, n);
      SkipPositions(s, prefix, P + |n|, |s|);
      assert !FollowsPrefix(s, prefix, |s|);
      rest := Scan(s, prefix, P + |n|, false);
    }
  }
}
