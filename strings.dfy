/**
  The string operations the tools and the view rely on: Python's
  str.lower(), str.strip(), str.replace(), str.split(sep) and
  str.split(sep, 1), and JavaScript's toUpperCase() and Array.join().
  Case mapping covers the ASCII letters only; whitespace is Python's.
*/
module Strings {
  import opened Wrappers

  /** Python's str.isspace(): tab, line feed, vertical tab, form feed,
      carriage return, the separators 0x1C-0x1F, space, next line (0x85),
      no-break space (0xA0), and the Unicode spaces and separators 0x1680,
      0x2000-0x200A, 0x2028, 0x2029, 0x202F, 0x205F and 0x3000. */
  predicate IsSpace(c: char) {
    var n := c as int;
    9 <= n <= 13 || 28 <= n <= 32 || n == 0x85 || n == 0xA0 || n == 0x1680
    || 0x2000 <= n <= 0x200A || n == 0x2028 || n == 0x2029 || n == 0x202F
    || n == 0x205F || n == 0x3000
  }

  predicate IsUpper(c: char) { 'A' <= c <= 'Z' }

  predicate IsLower(c: char) { 'a' <= c <= 'z' }

  function ToLower(c: char): (r: char)
    ensures !IsUpper(r)
    ensures !IsUpper(c) ==> r == c
  {
    if IsUpper(c) then (c as int + 32) as char else c
  }

  function ToUpper(c: char): (r: char)
    ensures !IsLower(r)
    ensures !IsLower(c) ==> r == c
  {
    if IsLower(c) then (c as int - 32) as char else c
  }

  /** str.lower() */
  function Lower(s: string): (r: string)
    ensures |r| == |s|
    ensures forall i :: 0 <= i < |s| ==> r[i] == ToLower(s[i])
  {
    seq(|s|, i requires 0 <= i < |s| => ToLower(s[i]))
  }

  /** What str.lower() promises: no upper-case letter is left, every other
      character is kept, each letter keeps its identity up to case, and
      lower-casing twice is lower-casing once. */
  lemma LowerSpec(s: string)
    ensures forall i :: 0 <= i < |s| ==> !IsUpper(Lower(s)[i])
    ensures forall i :: 0 <= i < |s| && !IsUpper(s[i]) ==> Lower(s)[i] == s[i]
    ensures forall i :: 0 <= i < |s| && IsUpper(s[i]) ==> IsLower(Lower(s)[i]) && ToUpper(Lower(s)[i]) == s[i]
    ensures Lower(Lower(s)) == Lower(s)
  {
  }

  /** String.prototype.toUpperCase() */
  function Upper(s: string): (r: string)
    ensures |r| == |s|
    ensures forall i :: 0 <= i < |s| ==> r[i] == ToUpper(s[i])
  {
    seq(|s|, i requires 0 <= i < |s| => ToUpper(s[i]))
  }

  /** str.replace(from, to) for single characters */
  function ReplaceChar(s: string, from: char, to: char): (r: string)
    ensures |r| == |s|
    ensures forall i :: 0 <= i < |s| ==> r[i] == if s[i] == from then to else s[i]
  {
    seq(|s|, i requires 0 <= i < |s| => if s[i] == from then to else s[i])
  }

  /** str.lstrip(): the suffix left after dropping leading whitespace. */
  function StripStart(s: string): (r: string)
    ensures |r| <= |s| && r == s[|s| - |r|..]
    ensures forall i :: 0 <= i < |s| - |r| ==> IsSpace(s[i])
    ensures r == [] || !IsSpace(r[0])
    decreases |s|
  {
    if |s| > 0 && IsSpace(s[0]) then StripStart(s[1..]) else s
  }

  /** str.rstrip(): the prefix left after dropping trailing whitespace. */
  function StripEnd(s: string): (r: string)
    ensures |r| <= |s| && r == s[..|r|]
    ensures forall i :: |r| <= i < |s| ==> IsSpace(s[i])
    ensures r == [] || !IsSpace(r[|r| - 1])
    decreases |s|
  {
    if |s| > 0 && IsSpace(s[|s| - 1]) then StripEnd(s[..|s| - 1]) else s
  }

  /** Neither end of s is whitespace. */
  predicate Stripped(s: string) {
    s == [] || (!IsSpace(s[0]) && !IsSpace(s[|s| - 1]))
  }

  /** str.strip(): what is left of lstrip() after dropping trailing whitespace. */
  function Strip(s: string): (r: string)
    ensures Stripped(r)
    ensures |r| <= |StripStart(s)| && r == StripStart(s)[..|r|]
    ensures forall i :: |r| <= i < |StripStart(s)| ==> IsSpace(StripStart(s)[i])
  {
    var t := StripStart(s);
    var r := StripEnd(t);
    assert r != [] ==> r[0] == t[0];
    r
  }

  /** The i-th character of s.strip() is a character of s. */
  lemma StripIndex(s: string, i: int)
    requires 0 <= i < |Strip(s)|
    ensures Strip(s)[i] == s[|s| - |StripStart(s)| + i]
  {
    assert Strip(s)[i] == StripStart(s)[i];
  }

  lemma StripOfStripped(s: string)
    requires Stripped(s)
    ensures Strip(s) == s
  {
  }

  /** Python's s.startswith(prefix). */
  predicate StartsWith(s: string, prefix: string) {
    |prefix| <= |s| && s[..|prefix|] == prefix
  }

  /** Number of occurrences of c in s. */
  function Count(s: string, c: char): nat
  {
    if s == [] then 0 else (if s[0] == c then 1 else 0) + Count(s[1..], c)
  }

  /** pat occurs in s at position i. */
  predicate OccursAt(s: string, pat: string, i: int) {
    0 <= i && i + |pat| <= |s| && s[i..i + |pat|] == pat
  }

  ghost predicate Contains(s: string, pat: string) {
    exists i :: OccursAt(s, pat, i)
  }

  /** Python's str.split(sep) for a non-empty separator: the pieces between the
      occurrences of sep found scanning left to right, without overlap. */
  function Split(s: string, sep: string): (parts: seq<string>)
    requires sep != []
    ensures |parts| >= 1
    decreases |s|
  {
    if |s| < |sep| then [s]
    else if s[..|sep|] == sep then [""] + Split(s[|sep|..], sep)
    else
      var rest := Split(s[1..], sep);
      [[s[0]] + rest[0]] + rest[1..]
  }

  /** Python's sep.join(parts), JavaScript's parts.join(sep). */
  function Join(parts: seq<string>, sep: string): string
  {
    if |parts| == 0 then ""
    else if |parts| == 1 then parts[0]
    else parts[0] + sep + Join(parts[1..], sep)
  }

  /** Python's str.replace(pat, rep): a left-to-right scan that replaces every
      non-overlapping occurrence. */
  function ReplaceAll(s: string, pat: string, rep: string): string
    requires pat != []
    decreases |s|
  {
    if |s| < |pat| then s
    else if s[..|pat|] == pat then rep + ReplaceAll(s[|pat|..], pat, rep)
    else [s[0]] + ReplaceAll(s[1..], pat, rep)
  }

  lemma JoinConsHead(x: string, parts: seq<string>, sep: string)
    requires |parts| >= 1
    ensures Join([x + parts[0]] + parts[1..], sep) == x + Join(parts, sep)
  {
    var p := [x + parts[0]] + parts[1..];
    if |parts| > 1 {
      assert p[1..] == parts[1..];
    }
  }

  /** Joining the pieces of a split with the same separator gives back the string. */
  lemma {:induction false} JoinOfSplit(s: string, sep: string)
    requires sep != []
    ensures Join(Split(s, sep), sep) == s
    decreases |s|
  {
    if |s| < |sep| {
    } else if s[..|sep|] == sep {
      var rest := Split(s[|sep|..], sep);
      JoinOfSplit(s[|sep|..], sep);
      assert ([""] + rest)[1..] == rest;
      assert Join([""] + rest, sep) == "" + sep + Join(rest, sep);
      assert s == "" + sep + s[|sep|..];
    } else {
      var rest := Split(s[1..], sep);
      JoinOfSplit(s[1..], sep);
      JoinConsHead([s[0]], rest, sep);
      assert s == [s[0]] + s[1..];
    }
  }

  /** The first piece of a split is a prefix of the string. */
  lemma {:induction false} SplitHeadIsPrefix(s: string, sep: string)
    requires sep != []
    ensures |Split(s, sep)[0]| <= |s| && s[..|Split(s, sep)[0]|] == Split(s, sep)[0]
    decreases |s|
  {
    if |s| < |sep| {
    } else if s[..|sep|] == sep {
    } else {
      var t := s[1..];
      var rest := Split(t, sep);
      SplitHeadIsPrefix(t, sep);
      var h := [s[0]] + rest[0];
      assert Split(s, sep)[0] == h;
      assert t[..|rest[0]|] == rest[0];
      assert s[..|h|] == [s[0]] + t[..|rest[0]|];
    }
  }

  /** Putting a character in front of a string free of sep keeps it free,
      unless sep now starts at position 0. */
  lemma ConsKeepsFree(c: char, x: string, sep: string)
    requires !Contains(x, sep) && !OccursAt([c] + x, sep, 0)
    ensures !Contains([c] + x, sep)
  {
    var y := [c] + x;
    forall i | 0 < i && i + |sep| <= |y| ensures !OccursAt(y, sep, i) {
      assert y[i..i + |sep|] == x[i - 1..i - 1 + |sep|];
      assert !OccursAt(x, sep, i - 1);
    }
  }

  /** The k-th piece of a split does not contain the separator. */
  lemma {:induction false} SplitPieceIsFree(s: string, sep: string, k: nat)
    requires sep != [] && k < |Split(s, sep)|
    ensures !Contains(Split(s, sep)[k], sep)
    decreases |s|
  {
    var parts := Split(s, sep);
    if |s| < |sep| {
      forall i | OccursAt(s, sep, i) ensures false { }
    } else if s[..|sep|] == sep {
      if k == 0 {
        forall i | OccursAt(parts[0], sep, i) ensures false { }
      } else {
        SplitPieceIsFree(s[|sep|..], sep, k - 1);
      }
    } else if k == 0 {
      var rest := Split(s[1..], sep);
      SplitPieceIsFree(s[1..], sep, 0);
      SplitHeadIsPrefix(s[1..], sep);
      var head := [s[0]] + rest[0];
      assert s[..|head|] == head;
      if |head| >= |sep| {
        assert head[..|sep|] == s[..|sep|];
      }
      ConsKeepsFree(s[0], rest[0], sep);
    } else {
      SplitPieceIsFree(s[1..], sep, k);
    }
  }

  /** No piece of a split contains the separator. */
  lemma SplitPiecesAreFree(s: string, sep: string)
    requires sep != []
    ensures forall k :: 0 <= k < |Split(s, sep)| ==> !Contains(Split(s, sep)[k], sep)
  {
    forall k | 0 <= k < |Split(s, sep)| {
      SplitPieceIsFree(s, sep, k);
    }
  }

  /** A split of a string of n copies of c yields n + 1 pieces. */
  lemma {:induction false} SplitCount(s: string, c: char)
    ensures |Split(s, [c])| == Count(s, c) + 1
    decreases |s|
  {
    if |s| < 1 {
    } else if s[..1] == [c] {
      SplitCount(s[1..], c);
    } else {
      SplitCount(s[1..], c);
    }
  }

  /** Splitting a string whose prefix x holds no first-character of sep:
      x sticks to the first piece. */
  lemma {:induction false} SplitAfterFreePrefix(x: string, t: string, sep: string)
    requires sep != [] && sep[0] !in x
    ensures Split(x + t, sep) == [x + Split(t, sep)[0]] + Split(t, sep)[1..]
    decreases |x|
  {
    if x == [] {
      assert x + t == t;
      assert x + Split(t, sep)[0] == Split(t, sep)[0];
      assert [x + Split(t, sep)[0]] + Split(t, sep)[1..] == Split(t, sep);
    } else {
      var s := x + t;
      var h, rest := Split(t, sep)[0], Split(t, sep)[1..];
      assert s[0] != sep[0];
      SplitAfterFreePrefix(x[1..], t, sep);
      assert s[1..] == x[1..] + t;
      if |s| >= |sep| {
        assert s[..|sep|] != sep;
        var r := Split(s[1..], sep);
        assert r[0] == x[1..] + h && r[1..] == rest;
        assert [s[0]] + (x[1..] + h) == x + h;
      } else {
        assert Split(t, sep) == [t];
        assert rest == [];
      }
    }
  }

  /** Splitting a join recovers the pieces, when no piece holds the first
      character of the separator. */
  lemma {:induction false} SplitOfJoin(parts: seq<string>, sep: string)
    requires sep != [] && |parts| >= 1
    requires forall k :: 0 <= k < |parts| ==> sep[0] !in parts[k]
    ensures Split(Join(parts, sep), sep) == parts
    decreases |parts|
  {
    if |parts| == 1 {
      SplitAfterFreePrefix(parts[0], "", sep);
      assert Split("", sep) == [""];
      assert parts[0] + "" == parts[0];
    } else {
      var tail := Join(parts[1..], sep);
      SplitOfJoin(parts[1..], sep);
      var u := sep + tail;
      assert u[..|sep|] == sep && u[|sep|..] == tail;
      assert Split(u, sep) == [""] + parts[1..];
      SplitAfterFreePrefix(parts[0], u, sep);
      assert parts[0] + sep + tail == parts[0] + u;
      assert parts[0] + "" == parts[0];
      assert [parts[0]] + parts[1..] == parts;
    }
  }

  /** Python's replace is split-then-join: every piece between occurrences is
      kept, and each occurrence becomes rep. */
  lemma {:induction false} ReplaceAllIsSplitJoin(s: string, pat: string, rep: string)
    requires pat != []
    ensures ReplaceAll(s, pat, rep) == Join(Split(s, pat), rep)
    decreases |s|
  {
    if |s| < |pat| {
    } else if s[..|pat|] == pat {
      var rest := Split(s[|pat|..], pat);
      ReplaceAllIsSplitJoin(s[|pat|..], pat, rep);
      assert ([""] + rest)[1..] == rest;
    } else {
      var rest := Split(s[1..], pat);
      ReplaceAllIsSplitJoin(s[1..], pat, rep);
      JoinConsHead([s[0]], rest, rep);
    }
  }

  /** Replacing a pattern that does not occur changes nothing. */
  lemma {:induction false} ReplaceAllOfFree(s: string, pat: string, rep: string)
    requires pat != [] && !Contains(s, pat)
    ensures ReplaceAll(s, pat, rep) == s
    decreases |s|
  {
    if |s| >= |pat| {
      assert !OccursAt(s, pat, 0);
      forall i | OccursAt(s[1..], pat, i) ensures false {
        assert s[1..][i..i + |pat|] == s[i + 1..i + 1 + |pat|];
        assert OccursAt(s, pat, i + 1);
      }
      ReplaceAllOfFree(s[1..], pat, rep);
      assert [s[0]] + s[1..] == s;
    }
  }

  /** When the first occurrence of pat starts right after a, the text before
      it is kept and that occurrence becomes rep. */
  lemma {:induction false} ReplaceAllAtFirst(a: string, t: string, pat: string, rep: string)
    requires pat != []
    requires forall i :: 0 <= i < |a| ==> !OccursAt(a + pat + t, pat, i)
    ensures ReplaceAll(a + pat + t, pat, rep) == a + rep + ReplaceAll(t, pat, rep)
    decreases |a|
  {
    var s := a + pat + t;
    if a == [] {
      assert s == pat + t && s[..|pat|] == pat && s[|pat|..] == t;
    } else {
      assert !OccursAt(s, pat, 0);
      assert s[1..] == a[1..] + pat + t;
      forall i | 0 <= i < |a[1..]| ensures !OccursAt(a[1..] + pat + t, pat, i) {
        assert !OccursAt(s, pat, i + 1);
        assert s[i + 1..i + 1 + |pat|] == s[1..][i..i + |pat|];
      }
      ReplaceAllAtFirst(a[1..], t, pat, rep);
      assert [a[0]] + (a[1..] + rep + ReplaceAll(t, pat, rep)) == a + rep + ReplaceAll(t, pat, rep);
    }
  }

  /** When neither a nor b holds c, a + [c] is a prefix of b + [c] + rest
      only if a == b. */
  lemma PrefixUpToSeparator(a: string, b: string, rest: string, c: char)
    requires c !in a && c !in b
    requires StartsWith(b + [c] + rest, a + [c])
    ensures a == b
  {
    var f := b + [c] + rest;
    assert f[|a|] == (a + [c])[|a|] == c;
    assert f[|b|] == c;
    if |a| != |b| {
      assert false;
    }
    assert a == f[..|a|] == b;
  }

  /** Index of the first c in s. */
  function IndexOf(s: string, c: char): (i: nat)
    requires c in s
    ensures i < |s| && s[i] == c && c !in s[..i]
  {
    if s[0] == c then 0
    else
      var j := IndexOf(s[1..], c);
      assert s[..j + 1] == [s[0]] + s[1..][..j];
      j + 1
  }

  /** Python's s.split(c, 1) when c occurs, None when it does not. */
  function SplitFirst(s: string, c: char): (r: Option<(string, string)>)
    ensures r.None? <==> c !in s
    ensures r.Some? ==> s == r.value.0 + [c] + r.value.1 && c !in r.value.0
  {
    if c !in s then None
    else
      var i := IndexOf(s, c);
      assert s == s[..i] + [c] + s[i + 1..];
      Some((s[..i], s[i + 1..]))
  }

  /** The split happens at the FIRST c: any decomposition around a c with no
      earlier c is the one SplitFirst returns. */
  lemma SplitFirstIsUnique(s: string, c: char, a: string, b: string)
    requires s == a + [c] + b && c !in a
    ensures SplitFirst(s, c) == Some((a, b))
  {
    var r := SplitFirst(s, c);
    assert c in s by { assert s[|a|] == c; }
    var a', b' := r.value.0, r.value.1;
    assert s[|a|] == c && s[|a'|] == c;
    assert a' == s[..|a'|] && a == s[..|a|];
    if |a'| < |a| {
      assert false;
    } else if |a| < |a'| {
      assert false;
    }
    assert a' == s[..|a|] == a;
    assert b' == s[|a| + 1..] == b;
  }
}
