/**
 * The handful of Python string operations the upload pipeline relies on:
 * `str.isspace`/`str.strip`, `str.split(sep)`, `sub in s`, `str.lower`
 * and `str.endswith`, each over `seq<char>`.
 */
module Strings {

  /** Python's `str.isspace()` on a single character. */
  predicate IsSpace(c: char) {
    || ('\t' <= c <= '\r')              // \t \n \v \f \r
    || ('\U{1c}' <= c <= '\U{1f}')      // file, group, record and unit separators
    || c == ' ' || c == '\U{85}' || c == '\U{a0}' || c == '\U{1680}'
    || ('\U{2000}' <= c <= '\U{200a}')
    || c == '\U{2028}' || c == '\U{2029}' || c == '\U{202f}' || c == '\U{205f}'
    || c == '\U{3000}'
  }

  /** `s.lstrip()`: drop leading whitespace. */
  function TrimStart(s: string): (r: string)
    ensures |r| <= |s| && r == s[|s| - |r|..]
    ensures forall k :: 0 <= k < |s| - |r| ==> IsSpace(s[k])
    ensures r == [] || !IsSpace(r[0])
  {
    if |s| > 0 && IsSpace(s[0]) then TrimStart(s[1..]) else s
  }

  /** `s.rstrip()`: drop trailing whitespace. */
  function TrimEnd(s: string): (r: string)
    ensures |r| <= |s| && r == s[..|r|]
    ensures forall k :: |r| <= k < |s| ==> IsSpace(s[k])
    ensures r == [] || !IsSpace(r[|r| - 1])
  {
    if |s| > 0 && IsSpace(s[|s| - 1]) then TrimEnd(s[..|s| - 1]) else s
  }

  /**
   * `r` is `s[i..i+|r|]` and everything of `s` outside that range is
   * whitespace.
   */
  ghost predicate Trimmed(s: string, i: int, r: string) {
    && 0 <= i <= |s| - |r| && r == s[i..i + |r|]
    && (forall k :: 0 <= k < i ==> IsSpace(s[k]))
    && (forall k :: i + |r| <= k < |s| ==> IsSpace(s[k]))
  }

  /**
   * `s.strip()`: what remains once the whitespace around it is removed; it
   * neither starts nor ends with whitespace.
   */
  function Strip(s: string): (r: string)
    ensures exists i :: Trimmed(s, i, r)
    ensures r == [] || (!IsSpace(r[0]) && !IsSpace(r[|r| - 1]))
  {
    var t := TrimStart(s);
    var r := TrimEnd(t);
    var i := |s| - |t|;
    assert r == t[..|r|];
    assert r == s[i..i + |r|];
    assert Trimmed(s, i, r);
    r
  }

  /** Stripping twice is stripping once. */
  lemma {:induction false} StripIdempotent(s: string)
    ensures Strip(Strip(s)) == Strip(s)
  {
    var r := Strip(s);
    assert TrimStart(r) == r;
    assert TrimEnd(r) == r;
  }

  /** A string that starts and ends with a printing character is its own strip. */
  lemma {:induction false} StripUnchanged(line: string)
    requires |line| > 0 && !IsSpace(line[0]) && !IsSpace(line[|line| - 1])
    ensures Strip(line) == line
  {
    assert TrimStart(line) == line;
    assert TrimEnd(line) == line;
  }

  /** Stripping adds no character. */
  lemma {:induction false} StripKeepsCharacters(s: string)
    ensures forall c :: c in Strip(s) ==> c in s
  {
    var r := Strip(s);
    var i :| Trimmed(s, i, r);
    assert forall k :: 0 <= k < |r| ==> r[k] == s[i + k];
  }

  /** Python's `sub in s`, checked position by position. */
  predicate Contains(s: string, sub: string)
    decreases |s|
  {
    sub <= s || (|s| > 0 && Contains(s[1..], sub))
  }

  /** `sub` occurs in `s` starting at position `i`. */
  ghost predicate OccursAt(s: string, sub: string, i: int) {
    0 <= i <= |s| - |sub| && s[i..i + |sub|] == sub
  }

  /** An occurrence of `sub` at position `i` makes `sub in s` hold. */
  lemma {:induction false} OccursContains(s: string, sub: string, i: int)
    requires OccursAt(s, sub, i)
    ensures Contains(s, sub)
    decreases i
  {
    if i == 0 {
      assert s[..|sub|] == sub;
    } else {
      assert s[1..][i - 1..i - 1 + |sub|] == s[i..i + |sub|];
      OccursContains(s[1..], sub, i - 1);
    }
  }

  /** When `sub in s` holds, `sub` occurs at some position of `s`. */
  lemma {:induction false} ContainsOccurs(s: string, sub: string)
    requires Contains(s, sub)
    ensures exists i :: OccursAt(s, sub, i)
    decreases |s|
  {
    if sub <= s {
      assert s[0..|sub|] == sub;
      assert OccursAt(s, sub, 0);
    } else {
      ContainsOccurs(s[1..], sub);
      var i :| OccursAt(s[1..], sub, i);
      assert s[i + 1..i + 1 + |sub|] == s[1..][i..i + |sub|];
      assert OccursAt(s, sub, i + 1);
    }
  }

  /** An occurrence in `c` is an occurrence in `a + c`, shifted by `|a|`. */
  lemma {:induction false} OccursAfterPrefix(a: string, c: string, sub: string, j: int)
    requires OccursAt(c, sub, j)
    ensures OccursAt(a + c, sub, |a| + j)
  {
    assert (a + c)[|a| + j..|a| + j + |sub|] == c[j..j + |sub|];
  }

  /** An occurrence that ends within a prefix `r` of `s` is an occurrence in `r`. */
  lemma {:induction false} OccursInPrefix(s: string, r: string, sub: string, i: int)
    requires |r| <= |s| && r == s[..|r|] && OccursAt(s, sub, i) && i + |sub| <= |r|
    ensures OccursAt(r, sub, i)
  {
    assert r[i..i + |sub|] == s[i..i + |sub|];
  }

  /** `sub in s` holds exactly when `sub` occurs at some position of `s`. */
  lemma {:induction false} ContainsIff(s: string, sub: string)
    ensures Contains(s, sub) <==> exists i :: OccursAt(s, sub, i)
  {
    if Contains(s, sub) {
      ContainsOccurs(s, sub);
    }
    if exists i :: OccursAt(s, sub, i) {
      var i :| OccursAt(s, sub, i);
      OccursContains(s, sub, i);
    }
  }

  /** Whatever a substring of `s` contains, `s` contains too. */
  lemma {:induction false} ContainsWithin(s: string, i: nat, j: nat, sub: string)
    requires i <= j <= |s|
    ensures Contains(s[i..j], sub) ==> Contains(s, sub)
  {
    ContainsIff(s[i..j], sub);
    ContainsIff(s, sub);
    if k :| OccursAt(s[i..j], sub, k) {
      forall m | 0 <= m < |sub| ensures s[i + k..i + k + |sub|][m] == sub[m] {
        assert sub[m] == s[i..j][k + m];
      }
      assert OccursAt(s, sub, i + k);
    }
  }

  /** A slice of a string that lacks `sub` lacks it too. */
  lemma {:induction false} MissingFromSlice(s: string, i: nat, j: nat, r: string, sub: string)
    requires i <= j <= |s| && r == s[i..j] && !Contains(s, sub)
    ensures !Contains(r, sub)
  {
    ContainsWithin(s, i, j, sub);
  }

  /** Stripping cannot make a substring appear. */
  lemma {:induction false} StripKeepsMissing(s: string, sub: string)
    requires !Contains(s, sub)
    ensures !Contains(Strip(s), sub)
  {
    var r := Strip(s);
    var i :| Trimmed(s, i, r);
    MissingFromSlice(s, i, i + |r|, r, sub);
  }

  /** The middle part of a concatenation occurs in it. */
  lemma {:induction false} ContainsInfix(a: string, b: string, c: string)
    ensures Contains(a + b + c, b)
  {
    assert (a + b + c)[|a|..|a| + |b|] == b;
    assert OccursAt(a + b + c, b, |a|);
    ContainsIff(a + b + c, b);
  }

  /** A string that lacks the first character of `sub` does not contain `sub`. */
  lemma {:induction false} MissingFirstChar(s: string, sub: string)
    requires |sub| > 0 && sub[0] !in s
    ensures !Contains(s, sub)
    decreases |s|
  {
    if |s| > 0 {
      assert s[0] != sub[0];
      assert sub[0] !in s[1..];
      MissingFirstChar(s[1..], sub);
    }
  }

  /**
   * A prefix that lacks the first character of `sub` cannot start an
   * occurrence of it: every occurrence in `a + c` lies inside `c`.
   */
  lemma {:induction false} PrefixAddsNone(a: string, c: string, sub: string)
    requires |sub| > 0 && sub[0] !in a
    ensures Contains(a + c, sub) ==> Contains(c, sub)
  {
    ContainsIff(a + c, sub);
    ContainsIff(c, sub);
    forall i | OccursAt(a + c, sub, i) ensures OccursAt(c, sub, i - |a|) {
      assert (a + c)[i] == sub[0];
      assert i >= |a|;
      assert c[i - |a|..i - |a| + |sub|] == (a + c)[i..i + |sub|];
    }
  }

  /** Glue pieces back together with `sep` between them: Python's `sep.join(ps)`. */
  function Join(ps: seq<string>, sep: char): string
    requires |ps| >= 1
  {
    if |ps| == 1 then ps[0] else ps[0] + [sep] + Join(ps[1..], sep)
  }

  /**
   * Python's `s.split(sep)` with an explicit one-character separator: one
   * piece more than there are separators, possibly empty pieces, none of
   * them holding `sep`, and joining them with `sep` gives `s` back.
   */
  function Split(s: string, sep: char): (r: seq<string>)
    ensures |r| >= 1
    ensures forall p :: p in r ==> sep !in p
    ensures Join(r, sep) == s
    decreases |s|
  {
    if |s| == 0 then [""]
    else
      var rest := Split(s[1..], sep);
      if s[0] == sep then
        [""] + rest
      else
        var r := [[s[0]] + rest[0]] + rest[1..];
        assert r[1..] == rest[1..];
        r
  }

  /** Splitting what was joined gives the pieces back. */
  lemma {:induction false} SplitJoin(ps: seq<string>, sep: char)
    requires |ps| >= 1
    requires forall p :: p in ps ==> sep !in p
    ensures Split(Join(ps, sep), sep) == ps
    decreases |ps|, |ps[0]|
  {
    if |ps| == 1 {
      SplitNoSeparator(ps[0], sep);
    } else if ps[0] == [] {
      assert Join(ps, sep) == [sep] + Join(ps[1..], sep);
      assert Join(ps, sep)[1..] == Join(ps[1..], sep);
      SplitJoin(ps[1..], sep);
    } else {
      var c := ps[0][0];
      var ps' := [ps[0][1..]] + ps[1..];
      assert ps'[0] == ps[0][1..] && ps'[1..] == ps[1..];
      assert ps[0] == [c] + ps[0][1..];
      assert ps[0] in ps;
      assert c != sep;
      assert sep !in ps[0][1..] by {
        forall m | 0 <= m < |ps[0]| - 1 ensures ps[0][1..][m] != sep {
          assert ps[0][1..][m] == ps[0][m + 1];
        }
      }
      SplitJoin(ps', sep);
      var j := Join(ps, sep);
      assert Join(ps', sep) == ps[0][1..] + [sep] + Join(ps[1..], sep);
      assert j == [c] + Join(ps', sep);
      assert j[0] == c && j[1..] == Join(ps', sep);
      assert [c] + ps[0][1..] == ps[0];
      assert ps == [[c] + ps'[0]] + ps'[1..];
    }
  }

  /** A string without the separator splits into itself alone. */
  lemma {:induction false} SplitNoSeparator(s: string, sep: char)
    requires sep !in s
    ensures Split(s, sep) == [s]
    decreases |s|
  {
    if |s| > 0 {
      assert sep !in s[1..];
      SplitNoSeparator(s[1..], sep);
    }
  }

  /** The last piece of `Join(ps, sep)` is a suffix, preceded by `sep` when there are several pieces. */
  lemma {:induction false} JoinLast(ps: seq<string>, sep: char)
    requires |ps| >= 1
    ensures var s, l := Join(ps, sep), ps[|ps| - 1];
            |l| <= |s| && s[|s| - |l|..] == l
            && (|ps| > 1 ==> |l| < |s| && s[|s| - |l| - 1] == sep)
    decreases |ps|
  {
    if |ps| > 1 {
      JoinLast(ps[1..], sep);
      assert ps[1..][|ps| - 2] == ps[|ps| - 1];
    }
  }

  /** A split into one piece means there was no separator. */
  lemma {:induction false} SingleSplitHasNoSeparator(s: string, sep: char)
    ensures |Split(s, sep)| == 1 ==> sep !in s
  {
    var ps := Split(s, sep);
    if |ps| == 1 {
      assert s == ps[0];
    }
  }

  /**
   * `s.split(sep)[-1]`: the text after the last `sep`, or all of `s` when
   * `s` holds no `sep`.
   */
  function AfterLast(s: string, sep: char): (r: string)
    ensures sep !in r
    ensures |r| <= |s| && s[|s| - |r|..] == r
    ensures sep in s ==> |r| < |s| && s[|s| - |r| - 1] == sep
    ensures sep !in s ==> r == s
  {
    var ps := Split(s, sep);
    JoinLast(ps, sep);
    if sep !in s then
      SplitNoSeparator(s, sep);
      ps[|ps| - 1]
    else
      SingleSplitHasNoSeparator(s, sep);
      ps[|ps| - 1]
  }

  predicate IsDigit(c: char) {
    '0' <= c <= '9'
  }

  /** One character of Python's `str.lower()`, restricted to ASCII letters. */
  function LowerChar(c: char): char {
    if 'A' <= c <= 'Z' then (c as int + 32) as char else c
  }

  /** `s.lower()`, character by character. */
  function Lower(s: string): (r: string)
    ensures |r| == |s|
    ensures forall k :: 0 <= k < |s| ==> r[k] == LowerChar(s[k])
  {
    if s == [] then [] else [LowerChar(s[0])] + Lower(s[1..])
  }

  /** `s.endswith(suffix)`. */
  predicate EndsWith(s: string, suffix: string) {
    |suffix| <= |s| && s[|s| - |suffix|..] == suffix
  }
}
