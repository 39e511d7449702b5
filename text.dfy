/**
 * The Python string operations the dashboard relies on (`in`, `lower()`,
 * `strip()`, `split()`, `splitlines()`, `replace(x, "")`), over seq<char>.
 */
module Text {

  /** str.isspace() for one character: the characters str.strip() removes. */
  predicate IsSpace(c: char)
  {
    var n := c as int;
    (9 <= n <= 13) || (28 <= n <= 32) || n == 0x85 || n == 0xA0 || n == 0x1680
    || (0x2000 <= n <= 0x200A) || n == 0x2028 || n == 0x2029 || n == 0x202F
    || n == 0x205F || n == 0x3000
  }

  predicate AllSpace(s: string)
  {
    forall i :: 0 <= i < |s| ==> IsSpace(s[i])
  }

  /** A string that str.strip() leaves as it is. */
  predicate IsStripped(s: string)
  {
    s == [] || (!IsSpace(s[0]) && !IsSpace(s[|s| - 1]))
  }

  /** str.lower() on one character; only ASCII letters are folded. */
  function LowerChar(c: char): char
  {
    if 'A' <= c <= 'Z' then (c as int + 32) as char else c
  }

  /** str.lower(), ASCII letters only. */
  function Lower(s: string): string
  {
    seq(|s|, i requires 0 <= i < |s| => LowerChar(s[i]))
  }

  /** A string without ASCII capitals is its own lower case; a leading capital is folded alone. */
  lemma LowerCapitalised(c: char, rest: string)
    requires forall i :: 0 <= i < |rest| ==> !('A' <= rest[i] <= 'Z')
    ensures Lower(rest) == rest
    ensures Lower([c] + rest) == [LowerChar(c)] + rest
  {
  }

  /** str.lstrip(): the longest suffix of s that does not start with whitespace. */
  function TrimStart(s: string): (r: string)
    ensures |r| <= |s| && r == s[|s| - |r|..]
    ensures forall i :: 0 <= i < |s| - |r| ==> IsSpace(s[i])
    ensures r == [] || !IsSpace(r[0])
  {
    if s != [] && IsSpace(s[0]) then TrimStart(s[1..]) else s
  }

  /** str.rstrip(): the longest prefix of s that does not end with whitespace. */
  function TrimEnd(s: string): (r: string)
    ensures |r| <= |s| && r == s[..|r|]
    ensures forall i :: |r| <= i < |s| ==> IsSpace(s[i])
    ensures r == [] || !IsSpace(r[|r| - 1])
  {
    if s != [] && IsSpace(s[|s| - 1]) then TrimEnd(s[..|s| - 1]) else s
  }

  /** str.strip() */
  function Strip(s: string): (r: string)
    ensures IsStripped(r)
  {
    TrimStart(TrimEnd(s))
  }

  /** Whitespace added around a stripped string is exactly what strip() takes away. */
  lemma StripPadded(pre: string, x: string, post: string)
    requires AllSpace(pre) && AllSpace(post) && IsStripped(x)
    ensures Strip(pre + x + post) == x
  {
    var s := pre + x + post;
    var n := |pre| + |x|;
    assert forall i :: n <= i < |s| ==> s[i] == post[i - n];
    assert forall i :: 0 <= i < |pre| ==> s[i] == pre[i];
    var e := TrimEnd(s);
    if x == [] {
      assert AllSpace(s);
    } else {
      assert s[n - 1] == x[|x| - 1];
      assert |e| == n;
      assert e == pre + x;
      var b := TrimStart(e);
      assert e[|pre|] == x[0];
      assert |b| == |x|;
      assert b == x;
    }
  }

  /** A stripped string is its own strip(). */
  lemma StripStripped(x: string)
    requires IsStripped(x)
    ensures Strip(x) == x
  {
    StripPadded([], x, []);
    assert [] + x + [] == x;
  }

  /** part occurs in s at position i. */
  predicate OccursAt(s: string, part: string, i: int)
  {
    0 <= i <= |s| - |part| && s[i..i + |part|] == part
  }

  predicate StartsWith(s: string, prefix: string)
  {
    |prefix| <= |s| && s[..|prefix|] == prefix
  }

  /** Python's `part in s` on strings: part occurs at some position of s. */
  predicate Contains(s: string, part: string)
  {
    exists i :: 0 <= i <= |s| - |part| && OccursAt(s, part, i)
  }

  /** The search `part in s` performs: try position 0, else look in s[1..]. */
  lemma {:induction false} ContainsScan(s: string, part: string)
    ensures Contains(s, part) <==> StartsWith(s, part) || (s != [] && Contains(s[1..], part))
  {
    if StartsWith(s, part) {
      assert OccursAt(s, part, 0);
    }
    if s != [] && Contains(s[1..], part) {
      var i :| 0 <= i <= |s| - 1 - |part| && OccursAt(s[1..], part, i);
      assert s[1..][i..i + |part|] == s[i + 1..i + 1 + |part|];
      assert OccursAt(s, part, i + 1);
    }
    if Contains(s, part) {
      var i :| 0 <= i <= |s| - |part| && OccursAt(s, part, i);
      if i == 0 {
        assert StartsWith(s, part);
      } else {
        assert s[1..][i - 1..i - 1 + |part|] == s[i..i + |part|];
        assert OccursAt(s[1..], part, i - 1);
      }
    }
  }

  /** Any string occurs in a concatenation that has it in the middle. */
  lemma ContainsInfix(a: string, b: string, c: string)
    ensures Contains(a + b + c, b)
  {
    var s := a + b + c;
    assert s[|a|..|a| + |b|] == b;
    assert OccursAt(s, b, |a|);
  }

  /** A string that lacks one character of part cannot contain part. */
  lemma ContainsNeedsChar(s: string, part: string, c: char)
    requires c in part && c !in s
    ensures !Contains(s, part)
  {
    var k :| 0 <= k < |part| && part[k] == c;
    forall i | 0 <= i <= |s| - |part|
      ensures !OccursAt(s, part, i)
    {
      assert s[i..i + |part|][k] == s[i + k] != part[k];
    }
  }

  /** A string in which two adjacent characters of part never appear side by side cannot contain part. */
  lemma ContainsNeedsPair(s: string, part: string, k: nat)
    requires k + 1 < |part|
    requires forall i :: 0 <= i < |s| - 1 ==> !(s[i] == part[k] && s[i + 1] == part[k + 1])
    ensures !Contains(s, part)
  {
    forall i | 0 <= i <= |s| - |part|
      ensures !OccursAt(s, part, i)
    {
      assert s[i..i + |part|][k] == s[i + k];
      assert s[i..i + |part|][k + 1] == s[i + k + 1];
    }
  }

  /** First position of c in s. */
  function IndexOf(s: string, c: char): (i: nat)
    requires c in s
    ensures i < |s| && s[i] == c && c !in s[..i]
  {
    if s[0] == c then 0 else 1 + IndexOf(s[1..], c)
  }

  /** The first c in a text that has none before a given c is that one. */
  lemma IndexOfAfter(a: string, c: char, b: string)
    requires c !in a
    ensures IndexOf(a + [c] + b, c) == |a|
  {
    var s := a + [c] + b;
    assert s[..|a|] == a;
    var i := IndexOf(s, c);
    assert s[|a|] == c;
    assert forall j :: 0 <= j < |a| ==> s[j] == a[j];
  }

  /** str.split(sep) for a one-character separator: the pieces between separators. */
  function Split(s: string, sep: char): (parts: seq<string>)
    ensures |parts| >= 1
    ensures forall k :: 0 <= k < |parts| ==> sep !in parts[k]
    decreases |s|
  {
    if sep !in s then [s]
    else
      var i := IndexOf(s, sep);
      [s[..i]] + Split(s[i + 1..], sep)
  }

  /** sep.join(parts) */
  function Join(parts: seq<string>, sep: string): string
  {
    if parts == [] then ""
    else if |parts| == 1 then parts[0]
    else parts[0] + sep + Join(parts[1..], sep)
  }

  /** Joining the pieces of a split with its separator gives the text back. */
  lemma {:induction false} JoinSplit(s: string, sep: char)
    ensures Join(Split(s, sep), [sep]) == s
    decreases |s|
  {
    if sep in s {
      var i := IndexOf(s, sep);
      var rest := Split(s[i + 1..], sep);
      assert Split(s, sep) == [s[..i]] + rest;
      assert ([s[..i]] + rest)[1..] == rest;
      JoinSplit(s[i + 1..], sep);
      assert s == s[..i] + [sep] + s[i + 1..];
    }
  }

  /** Splitting a join of separator-free pieces gives the pieces back. */
  lemma {:induction false} SplitJoin(parts: seq<string>, sep: char)
    requires |parts| >= 1
    requires forall k :: 0 <= k < |parts| ==> sep !in parts[k]
    ensures Split(Join(parts, [sep]), sep) == parts
    decreases |parts|
  {
    if |parts| > 1 {
      var rest := Join(parts[1..], [sep]);
      var s := parts[0] + [sep] + rest;
      assert s[|parts[0]|] == sep;
      assert s[..|parts[0]|] == parts[0];
      assert IndexOf(s, sep) == |parts[0]|;
      assert s[|parts[0]| + 1..] == rest;
      SplitJoin(parts[1..], sep);
    }
  }

  /**
   * str.splitlines() for text whose only line break is '\n': the lines
   * between breaks, where a break at the very end opens no further line.
   */
  function SplitLines(s: string): (lines: seq<string>)
    ensures forall k :: 0 <= k < |lines| ==> '\n' !in lines[k]
  {
    if s == [] then []
    else if s[|s| - 1] == '\n' then Split(s[..|s| - 1], '\n')
    else Split(s, '\n')
  }

  /** The lines, joined by '\n', give the text back up to one final line break. */
  lemma SplitLinesJoin(s: string)
    ensures s == Join(SplitLines(s), "\n") + (if s != [] && s[|s| - 1] == '\n' then "\n" else "")
  {
    if s != [] {
      if s[|s| - 1] == '\n' {
        JoinSplit(s[..|s| - 1], '\n');
        assert s == s[..|s| - 1] + "\n";
      } else {
        JoinSplit(s, '\n');
      }
    }
  }

  /**
   * s.replace(part, ""): removes the occurrences of part found scanning left
   * to right, each search resuming after the occurrence just removed.
   */
  function RemoveAll(s: string, part: string): (r: string)
    requires part != []
    ensures |r| <= |s|
    decreases |s|
  {
    if |s| < |part| then s
    else if s[..|part|] == part then RemoveAll(s[|part|..], part)
    else [s[0]] + RemoveAll(s[1..], part)
  }

  /** Removal only takes characters away. */
  lemma {:induction false} RemoveAllShrinks(s: string, part: string)
    requires part != []
    ensures multiset(RemoveAll(s, part)) <= multiset(s)
    decreases |s|
  {
    if |s| >= |part| {
      if s[..|part|] == part {
        RemoveAllShrinks(s[|part|..], part);
        assert s == s[..|part|] + s[|part|..];
      } else {
        RemoveAllShrinks(s[1..], part);
        assert s == [s[0]] + s[1..];
      }
    }
  }

  /** Without an occurrence there is nothing to remove. */
  lemma {:induction false} RemoveAbsent(s: string, part: string)
    requires part != [] && !Contains(s, part)
    ensures RemoveAll(s, part) == s
    decreases |s|
  {
    if |s| >= |part| {
      ContainsScan(s, part);
      RemoveAbsent(s[1..], part);
      assert s == [s[0]] + s[1..];
    }
  }

  /** Removing a character from text that ends in it, and holds it nowhere else, drops that end. */
  lemma {:induction false} RemoveCharTrailing(w: string, c: char)
    requires c !in w
    ensures RemoveAll(w + [c], [c]) == w
    decreases |w|
  {
    if w != [] {
      assert (w + [c])[..1] == [w[0]];
      assert (w + [c])[1..] == w[1..] + [c];
      RemoveCharTrailing(w[1..], c);
    }
  }

  /** Removing a character that only encloses the text gives the text back. */
  lemma RemoveCharAround(w: string, c: char)
    requires c !in w
    ensures RemoveAll([c] + w + [c], [c]) == w
  {
    var s := [c] + w + [c];
    assert s[..1] == [c];
    assert s[1..] == w + [c];
    RemoveCharTrailing(w, c);
  }

  /** Removing a one-character string removes every copy of that character. */
  lemma {:induction false} RemoveCharGone(s: string, c: char)
    ensures c !in RemoveAll(s, [c])
    decreases |s|
  {
    if |s| >= 1 {
      RemoveCharGone(s[1..], c);
      if s[..1] != [c] {
        assert s[0] != c;
      }
    }
  }
}
