/** String operations the scripts use: `lower()`/`toLowerCase()`, `startswith`/`startsWith`,
    `endswith`/`endsWith`, `in`/`includes` and `str.replace`. */
module Text {

  /** ASCII lower-casing of one character. */
  function LowerChar(c: char): (r: char)
    ensures 'A' <= c <= 'Z' ==> 'a' <= r <= 'z'
    ensures !('A' <= c <= 'Z') ==> r == c
  {
    if 'A' <= c <= 'Z' then (c as int + 32) as char else c
  }

  /** `s.lower()`: the same length, every upper-case ASCII letter replaced by its lower-case form. */
  function Lower(s: string): (r: string)
    ensures |r| == |s|
    ensures forall i :: 0 <= i < |s| ==> r[i] == LowerChar(s[i])
  {
    seq(|s|, i requires 0 <= i < |s| => LowerChar(s[i]))
  }

  predicate StartsWith(s: string, prefix: string)
  {
    |prefix| <= |s| && s[..|prefix|] == prefix
  }

  predicate EndsWith(s: string, suffix: string)
  {
    |suffix| <= |s| && s[|s| - |suffix|..] == suffix
  }

  /** `t in s` for strings: `t` occurs somewhere in `s`. */
  predicate Contains(s: string, t: string)
    decreases |s|
  {
    StartsWith(s, t) || (|s| > 0 && Contains(s[1..], t))
  }

  /** `t` occurs in `s` starting at position `i`. */
  predicate OccursAt(s: string, t: string, i: int)
  {
    0 <= i <= |s| - |t| && s[i..i + |t|] == t
  }

  /** `Contains` agrees with the positional definition of a substring occurrence. */
  lemma {:induction false} ContainsAt(s: string, t: string)
    ensures Contains(s, t) <==> exists i :: OccursAt(s, t, i)
  {
    if StartsWith(s, t) {
      assert OccursAt(s, t, 0);
    } else if |s| == 0 {
    } else {
      ContainsAt(s[1..], t);
      if Contains(s[1..], t) {
        var i :| OccursAt(s[1..], t, i);
        assert s[i + 1..i + 1 + |t|] == s[1..][i..i + |t|];
        assert OccursAt(s, t, i + 1);
      }
      if exists i :: OccursAt(s, t, i) {
        var i :| OccursAt(s, t, i);
        assert i != 0;
        assert s[1..][i - 1..i - 1 + |t|] == s[i..i + |t|];
        assert OccursAt(s[1..], t, i - 1);
      }
    }
  }

  /** An occurrence inside a part is an occurrence inside the whole. */
  lemma ContainsInMiddle(a: string, s: string, b: string, t: string)
    requires Contains(s, t)
    ensures Contains(a + s + b, t)
  {
    ContainsAt(s, t);
    var i :| OccursAt(s, t, i);
    assert (a + s + b)[|a| + i..|a| + i + |t|] == s[i..i + |t|];
    assert OccursAt(a + s + b, t, |a| + i);
    ContainsAt(a + s + b, t);
  }

  /** Python's `s.replace(pattern, replacement)`: every leftmost non-overlapping occurrence. */
  function ReplaceAll(s: string, pattern: string, replacement: string): string
    requires |pattern| > 0
    decreases |s|
  {
    if |s| < |pattern| then s
    else if s[..|pattern|] == pattern then replacement + ReplaceAll(s[|pattern|..], pattern, replacement)
    else [s[0]] + ReplaceAll(s[1..], pattern, replacement)
  }

  /** `s.replace(pattern, '')`. */
  function Remove(s: string, pattern: string): string
    requires |pattern| > 0
  {
    ReplaceAll(s, pattern, "")
  }

  /** Removing never introduces a character, never lengthens the text, and leaves a text
      without the pattern unchanged. */
  lemma {:induction false} RemoveShrinks(s: string, pattern: string)
    requires |pattern| > 0
    ensures |Remove(s, pattern)| <= |s|
    ensures forall c :: c in Remove(s, pattern) ==> c in s
    ensures !Contains(s, pattern) ==> Remove(s, pattern) == s
  {
    if |s| < |pattern| {
    } else if s[..|pattern|] == pattern {
      RemoveShrinks(s[|pattern|..], pattern);
      forall c | c in Remove(s, pattern) ensures c in s {
        assert c in Remove(s[|pattern|..], pattern);
        assert c in s[|pattern|..];
      }
    } else {
      RemoveShrinks(s[1..], pattern);
      assert Remove(s, pattern) == [s[0]] + Remove(s[1..], pattern);
      forall c | c in Remove(s, pattern) ensures c in s {
        if c != s[0] {
          assert c in Remove(s[1..], pattern);
        }
      }
      if !Contains(s, pattern) {
        assert !StartsWith(s, pattern);
      }
    }
  }

  /** A character that cannot start the pattern is kept. */
  lemma RemoveKeeps(c: char, rest: string, pattern: string)
    requires |pattern| > 0 && pattern[0] != c
    ensures Remove([c] + rest, pattern) == [c] + Remove(rest, pattern)
  {
    var s := [c] + rest;
    assert s[1..] == rest;
    if |s| >= |pattern| {
      assert s[..|pattern|][0] == c;
    }
  }

  /** A leading occurrence of the pattern is dropped, wherever the text ends. */
  lemma RemoveDrops(pattern: string, rest: string)
    requires |pattern| > 0
    ensures Remove(pattern + rest, pattern) == Remove(rest, pattern)
  {
    var s := pattern + rest;
    assert s[..|pattern|] == pattern && s[|pattern|..] == rest;
  }

  /** Removing a one-character pattern removes every occurrence of that character. */
  lemma {:induction false} RemoveCharGone(s: string, c: char)
    ensures c !in Remove(s, [c])
  {
    if |s| >= 1 {
      RemoveCharGone(s[1..], c);
      if s[..1] == [c] {
        assert Remove(s, [c]) == Remove(s[1..], [c]);
      } else {
        assert s[0] != c;
        assert Remove(s, [c]) == [s[0]] + Remove(s[1..], [c]);
      }
    }
  }

  /** Python's `a < b` on strings: code point by code point, a proper prefix first. */
  predicate Below(a: string, b: string)
    decreases |a|
  {
    if a == [] then b != []
    else if b == [] then false
    else a[0] < b[0] || (a[0] == b[0] && Below(a[1..], b[1..]))
  }

  lemma {:induction false} BelowIrreflexive(a: string)
    ensures !Below(a, a)
  {
    if a != [] {
      BelowIrreflexive(a[1..]);
    }
  }

  lemma {:induction false} BelowTransitive(a: string, b: string, c: string)
    requires Below(a, b) && Below(b, c)
    ensures Below(a, c)
    decreases |a|
  {
    if a != [] && a[0] == b[0] && b[0] == c[0] {
      BelowTransitive(a[1..], b[1..], c[1..]);
    }
  }

  lemma {:induction false} BelowTotal(a: string, b: string)
    requires a != b
    ensures Below(a, b) || Below(b, a)
    decreases |a|
  {
    if a != [] && b != [] && a[0] == b[0] {
      assert a == [a[0]] + a[1..] && b == [b[0]] + b[1..];
      BelowTotal(a[1..], b[1..]);
    }
  }

  /** `m` comes first among the strings of `s`. */
  ghost predicate IsLeast(m: string, s: set<string>)
  {
    m in s && forall x :: x in s && x != m ==> Below(m, x)
  }

  lemma {:induction false} LeastExists(s: set<string>)
    requires s != {}
    ensures exists m :: IsLeast(m, s)
    decreases |s|
  {
    var x :| x in s;
    if s != {x} {
      var rest := s - {x};
      LeastExists(rest);
      var y :| IsLeast(y, rest);
      if Below(x, y) {
        forall z | z in s && z != x ensures Below(x, z) {
          if z != y {
            BelowTransitive(x, y, z);
          }
        }
        assert IsLeast(x, s);
      } else {
        BelowTotal(x, y);
        assert IsLeast(y, s);
      }
    } else {
      assert IsLeast(x, s);
    }
  }

  lemma LeastUnique(m: string, n: string, s: set<string>)
    requires IsLeast(m, s) && IsLeast(n, s)
    ensures m == n
  {
    if m != n {
      BelowTransitive(m, n, m);
      BelowIrreflexive(m);
    }
  }

  /** The first string of a non-empty set in Python's order. */
  ghost function Least(s: set<string>): (m: string)
    requires s != {}
    ensures IsLeast(m, s)
  {
    LeastExists(s);
    var m :| IsLeast(m, s); m
  }

  /** `sorted(s)` for a set of strings. */
  ghost function SortedSet(s: set<string>): seq<string>
    decreases |s|
  {
    if s == {} then [] else [Least(s)] + SortedSet(s - {Least(s)})
  }

  /** Strictly increasing in Python's order (hence without repeats). */
  ghost predicate StrictlySorted(r: seq<string>)
  {
    forall i, j :: 0 <= i < j < |r| ==> Below(r[i], r[j])
  }

  /** `sorted` lists each string of the set exactly once, in increasing order. */
  lemma {:induction false} SortedSetSpec(s: set<string>)
    ensures StrictlySorted(SortedSet(s))
    ensures forall x :: x in SortedSet(s) <==> x in s
    ensures |SortedSet(s)| == |s|
    decreases |s|
  {
    if s != {} {
      var m := Least(s);
      var rest := SortedSet(s - {m});
      SortedSetSpec(s - {m});
      var r := [m] + rest;
      assert SortedSet(s) == r;
      forall i, j | 0 <= i < j < |r| ensures Below(r[i], r[j]) {
        if i > 0 {
          assert r[i] == rest[i - 1] && r[j] == rest[j - 1];
        } else {
          assert r[j] == rest[j - 1];
          assert r[j] in s - {m};
        }
      }
    }
  }
}
