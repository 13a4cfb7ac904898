/**
 * The small part of the JavaScript runtime that the route guard and the two
 * form handlers rely on: optional values, thrown values, the outcome of an
 * awaited remote call, and the string builtins `startsWith`, `endsWith`,
 * `includes` and `split(sep)[0]`.
 */
module Js {

  /** `null` / `undefined` versus a present value. */
  datatype Option<T> = None | Some(value: T)

  /** A value that reaches a `catch` block: an `Error` object (anything for which
      `instanceof Error` holds, such as an AuthError) with its message, or any
      other thrown value. */
  datatype Thrown = Error(message: string) | NonError

  /** The outcome of one awaited remote call: the promise resolves to a value or
      rejects with a thrown value. */
  datatype Reply<T> = Resolved(value: T) | Rejected(thrown: Thrown)

  /** JavaScript truthiness of a string: only the empty string is falsy. */
  predicate Truthy(s: string) {
    s != ""
  }

  /** `s.startsWith(prefix)` */
  predicate StartsWith(s: string, prefix: string) {
    |prefix| <= |s| && s[..|prefix|] == prefix
  }

  /** `s.endsWith(suffix)` */
  predicate EndsWith(s: string, suffix: string) {
    |suffix| <= |s| && s[|s| - |suffix|..] == suffix
  }

  /** `s.includes(t)`, scanning the start positions of `s` from left to right. */
  predicate Includes(s: string, t: string)
    decreases |s|
  {
    StartsWith(s, t) || (|s| > 0 && Includes(s[1..], t))
  }

  /** `t` occurs in `s` at position `i`. */
  ghost predicate OccursAt(s: string, t: string, i: int) {
    0 <= i && i + |t| <= |s| && s[i..i + |t|] == t
  }

  /** Shifting the start position by one is dropping the first character. */
  lemma OccursShift(s: string, t: string, i: int)
    requires |s| > 0 && 1 <= i
    ensures OccursAt(s, t, i) <==> OccursAt(s[1..], t, i - 1)
  {
    if i + |t| <= |s| {
      assert s[1..][i - 1..i - 1 + |t|] == s[i..i + |t|];
    }
  }

  /** The scan agrees with the textbook definition of a substring occurrence. */
  lemma {:induction false} IncludesIff(s: string, t: string)
    ensures Includes(s, t) <==> exists i :: OccursAt(s, t, i)
    decreases |s|
  {
    if StartsWith(s, t) {
      assert OccursAt(s, t, 0);
    } else if |s| == 0 {
      assert |t| > 0;
    } else {
      IncludesIff(s[1..], t);
      if Includes(s[1..], t) {
        var i :| OccursAt(s[1..], t, i);
        OccursShift(s, t, i + 1);
      } else {
        forall i ensures !OccursAt(s, t, i) {
          if i >= 1 {
            OccursShift(s, t, i);
          }
        }
      }
    }
  }

  /** If `s` includes `t`, so does every extension of `s` on either side. */
  lemma {:induction false} IncludesInContext(pre: string, t: string, post: string)
    ensures Includes(pre + t + post, t)
  {
    var s := pre + t + post;
    assert s[|pre|..|pre| + |t|] == t;
    assert OccursAt(s, t, |pre|);
    IncludesIff(s, t);
  }

  /** `s.split(sep)[0]` for a one-character separator: everything before the
      first `sep`, or the whole of `s` when it has none. */
  function SplitHead(s: string, sep: char): (r: string)
    ensures |r| <= |s| && r == s[..|r|]
    ensures sep !in r
    ensures |r| < |s| ==> s[|r|] == sep
    decreases |s|
  {
    if |s| == 0 || s[0] == sep then [] else [s[0]] + SplitHead(s[1..], sep)
  }

  /** The three facts in SplitHead's contract determine its result. */
  lemma {:induction false} SplitHeadUnique(s: string, sep: char, r: string)
    requires |r| <= |s| && r == s[..|r|]
    requires sep !in r
    requires |r| < |s| ==> s[|r|] == sep
    ensures r == SplitHead(s, sep)
    decreases |s|
  {
    if |s| > 0 && s[0] != sep {
      assert |r| > 0 && r[0] == s[0];
      SplitHeadUnique(s[1..], sep, r[1..]);
      assert r == [s[0]] + r[1..];
    }
  }

  /** Without a separator, `split(sep)[0]` is the whole string; with one, it
      stops before the first occurrence. */
  lemma {:induction false} SplitHeadCases(s: string, sep: char)
    ensures sep !in s ==> SplitHead(s, sep) == s
    ensures sep in s ==> |SplitHead(s, sep)| < |s|
  {
    var h := SplitHead(s, sep);
    if |h| == |s| {
      assert h == s;
    }
  }

  /** A string lacking some character of a pattern does not include it. */
  lemma MissingCharacter(s: string, t: string, j: nat)
    requires j < |t| && t[j] !in s
    ensures !Includes(s, t)
  {
    forall i ensures !OccursAt(s, t, i) {
      if 0 <= i && i + |t| <= |s| {
        assert s[i..i + |t|][j] == s[i + j];
      }
    }
    IncludesIff(s, t);
  }

  /** A string that differs from `prefix` at some position of `prefix` does
      not start with it. */
  lemma DiffersAt(s: string, prefix: string, k: nat)
    requires k < |prefix| && (k < |s| ==> s[k] != prefix[k])
    ensures !StartsWith(s, prefix)
  {
    if |prefix| <= |s| {
      assert s[..|prefix|][k] == s[k];
    }
  }

  /** A string whose last character differs from that of `suffix` does not
      end with it. */
  lemma LastDiffers(s: string, suffix: string)
    requires |s| > 0 && |suffix| > 0 && s[|s| - 1] != suffix[|suffix| - 1]
    ensures !EndsWith(s, suffix)
  {
    if |suffix| <= |s| {
      assert s[|s| - |suffix|..][|suffix| - 1] == s[|s| - 1];
    }
  }

  /** Two prefixes of one string agree on their common length. */
  lemma PrefixesAgree(s: string, a: string, b: string, k: nat)
    requires StartsWith(s, a) && StartsWith(s, b)
    requires k < |a| && k < |b|
    ensures a[k] == b[k]
  {
    assert a[k] == s[..|a|][k] == s[k];
    assert b[k] == s[..|b|][k] == s[k];
  }
}
