/** The Kotlin standard-library string operations the forwarder relies on:
    Char.isWhitespace, CharSequence.isBlank, indexOf, lastIndexOf,
    split(",") and trim(). Strings are sequences of characters. */
module Text {

  /** Kotlin's Char.isWhitespace on the JVM: Java's Character.isWhitespace
      or Character.isSpaceChar, i.e. the ASCII controls TAB..CR and FS..US,
      and every space, line or paragraph separator of Unicode. */
  predicate IsWhitespace(c: char)
    ensures c == ' ' || c == '\t' || c == '\n' || c == '\r' ==> IsWhitespace(c)
    ensures IsWhitespace(c) ==> c != ',' && c != '@' && c != '+'
  {
    var n := c as int;
    || 0x09 <= n <= 0x0D
    || 0x1C <= n <= 0x20
    || n == 0xA0 || n == 0x1680
    || 0x2000 <= n <= 0x200A
    || n == 0x2028 || n == 0x2029 || n == 0x202F || n == 0x205F || n == 0x3000
  }

  /** CharSequence.isBlank: empty, or whitespace only. */
  predicate IsBlank(s: string)
    decreases |s|
  {
    s == [] || (IsWhitespace(s[0]) && IsBlank(s[1..]))
  }

  /** Blank means every character is whitespace. */
  lemma {:induction false} BlankIffAllWhitespace(s: string)
    ensures IsBlank(s) <==> forall i :: 0 <= i < |s| ==> IsWhitespace(s[i])
    decreases |s|
  {
    if s != [] {
      BlankIffAllWhitespace(s[1..]);
      assert forall i :: 1 <= i < |s| ==> s[i] == s[1..][i - 1];
    }
  }

  /** A concatenation is blank exactly when both halves are. */
  lemma {:induction false} BlankAppend(a: string, b: string)
    ensures IsBlank(a + b) <==> IsBlank(a) && IsBlank(b)
    decreases |a|
  {
    if a == [] {
      assert a + b == b;
    } else {
      assert (a + b)[1..] == a[1..] + b;
      BlankAppend(a[1..], b);
    }
  }

  /** Neither end of s is whitespace: what trim() leaves behind. */
  predicate IsTrimmed(s: string) {
    s != [] ==> !IsWhitespace(s[0]) && !IsWhitespace(s[|s| - 1])
  }

  /** i is the first index of c in s. */
  predicate IsFirst(s: string, c: char, i: int) {
    0 <= i < |s| && s[i] == c && c !in s[..i]
  }

  /** i is the last index of c in s. */
  predicate IsLast(s: string, c: char, i: int) {
    0 <= i < |s| && s[i] == c && c !in s[i + 1..]
  }

  /** String.indexOf(Char): the first index of c, or -1 when c is absent. */
  function IndexOf(s: string, c: char): (r: int)
    ensures -1 <= r < |s|
    ensures r >= 0 <==> c in s
    ensures r >= 0 ==> IsFirst(s, c, r)
    decreases |s|
  {
    if s == [] then -1
    else if s[0] == c then 0
    else
      var k := IndexOf(s[1..], c);
      if k < 0 then -1
      else
        assert s[..k + 1] == [s[0]] + s[1..][..k];
        k + 1
  }

  /** String.lastIndexOf(Char): the last index of c, or -1 when c is absent. */
  function LastIndexOf(s: string, c: char): (r: int)
    ensures -1 <= r < |s|
    ensures r >= 0 <==> c in s
    ensures r >= 0 ==> IsLast(s, c, r)
    decreases |s|
  {
    if s == [] then -1
    else if s[|s| - 1] == c then |s| - 1
    else
      var k := LastIndexOf(s[..|s| - 1], c);
      assert k >= 0 ==> s[k + 1..] == s[..|s| - 1][k + 1..] + [s[|s| - 1]];
      assert s == s[..|s| - 1] + [s[|s| - 1]];
      k
  }

  /** The first index of a character is unique. */
  lemma FirstIsUnique(s: string, c: char, i: int, j: int)
    requires IsFirst(s, c, i) && IsFirst(s, c, j)
    ensures i == j
  {
  }

  /** The last index of a character is unique. */
  lemma LastIsUnique(s: string, c: char, i: int, j: int)
    requires IsLast(s, c, i) && IsLast(s, c, j)
    ensures i == j
  {
  }

  /** Number of occurrences of c in s. */
  function Count(s: string, c: char): nat
    decreases |s|
  {
    if s == [] then 0 else (if s[0] == c then 1 else 0) + Count(s[1..], c)
  }

  lemma {:induction false} CountAppend(a: string, b: string, c: char)
    ensures Count(a + b, c) == Count(a, c) + Count(b, c)
    decreases |a|
  {
    if a == [] {
      assert a + b == b;
    } else {
      assert (a + b)[1..] == a[1..] + b;
      CountAppend(a[1..], b, c);
    }
  }

  lemma {:induction false} CountAbsent(s: string, c: char)
    requires c !in s
    ensures Count(s, c) == 0
    decreases |s|
  {
    if s != [] {
      assert c !in s[1..];
      CountAbsent(s[1..], c);
    }
  }

  /** The inverse of Split: the pieces glued back with the separator. */
  function Join(pieces: seq<string>, sep: char): string
    decreases |pieces|
  {
    if |pieces| == 0 then ""
    else if |pieces| == 1 then pieces[0]
    else pieces[0] + [sep] + Join(pieces[1..], sep)
  }

  /** String.split(sep) with no limit: every separator cuts, empty pieces are
      kept, so the result has one piece more than s has separators, no piece
      contains the separator, and joining the pieces gives s back. */
  function Split(s: string, sep: char): (r: seq<string>)
    ensures |r| == Count(s, sep) + 1
    ensures forall i :: 0 <= i < |r| ==> sep !in r[i]
    ensures Join(r, sep) == s
    decreases |s|
  {
    var k := IndexOf(s, sep);
    if k < 0 then
      CountAbsent(s, sep);
      [s]
    else
      var rest := Split(s[k + 1..], sep);
      SplitStep(s, sep, k, rest);
      [s[..k]] + rest
  }

  /** One step of Split: the piece before the first separator followed by
      the pieces of what comes after it. */
  lemma SplitStep(s: string, sep: char, k: int, rest: seq<string>)
    requires IsFirst(s, sep, k)
    requires |rest| == Count(s[k + 1..], sep) + 1
    requires forall i :: 0 <= i < |rest| ==> sep !in rest[i]
    requires Join(rest, sep) == s[k + 1..]
    ensures |[s[..k]] + rest| == Count(s, sep) + 1
    ensures forall i :: 0 <= i < |[s[..k]] + rest| ==> sep !in ([s[..k]] + rest)[i]
    ensures Join([s[..k]] + rest, sep) == s
  {
    var r := [s[..k]] + rest;
    assert r[1..] == rest;
    assert s == s[..k] + ([sep] + s[k + 1..]);
    CountAppend(s[..k], [sep] + s[k + 1..], sep);
    assert ([sep] + s[k + 1..])[1..] == s[k + 1..];
    CountAbsent(s[..k], sep);
  }

  /** Split undoes Join on separator-free pieces: together with Split's own
      contract, Split and Join are inverse bijections. */
  lemma {:induction false} SplitJoin(pieces: seq<string>, sep: char)
    requires |pieces| >= 1
    requires forall i :: 0 <= i < |pieces| ==> sep !in pieces[i]
    ensures Split(Join(pieces, sep), sep) == pieces
    decreases |pieces|
  {
    if |pieces| > 1 {
      var s := Join(pieces, sep);
      var p := pieces[0];
      assert s == p + [sep] + Join(pieces[1..], sep);
      assert IsFirst(s, sep, |p|) by {
        assert s[..|p|] == p;
      }
      FirstIsUnique(s, sep, |p|, IndexOf(s, sep));
      assert s[|p| + 1..] == Join(pieces[1..], sep);
      assert s[..|p|] == p;
      SplitJoin(pieces[1..], sep);
    }
  }

  /** trimStart(): drops the leading whitespace. */
  function TrimStart(s: string): (r: string)
    ensures |r| <= |s| && r == s[|s| - |r|..]
    ensures IsBlank(s[..|s| - |r|])
    ensures r != [] ==> !IsWhitespace(r[0])
    decreases |s|
  {
    if s != [] && IsWhitespace(s[0]) then
      var r := TrimStart(s[1..]);
      assert s[..|s| - |r|][1..] == s[1..][..|s| - 1 - |r|];
      r
    else s
  }

  /** trimEnd(): drops the trailing whitespace. */
  function TrimEnd(s: string): (r: string)
    ensures |r| <= |s| && r == s[..|r|]
    ensures IsBlank(s[|r|..])
    ensures r != [] ==> !IsWhitespace(r[|r| - 1])
    decreases |s|
  {
    if s != [] && IsWhitespace(s[|s| - 1]) then
      var r := TrimEnd(s[..|s| - 1]);
      assert s[|r|..] == s[..|s| - 1][|r|..] + [s[|s| - 1]];
      BlankAppend(s[..|s| - 1][|r|..], [s[|s| - 1]]);
      r
    else s
  }

  /** String.trim(): the text between the leading and the trailing
      whitespace. The result is trimmed and is empty exactly when s is
      blank; TrimPadded below shows that it is exactly what remains once the
      whitespace padding on both sides is removed. */
  function Trim(s: string): (r: string)
    ensures IsTrimmed(r)
    ensures r == [] <==> IsBlank(s)
  {
    var t := TrimStart(s);
    var r := TrimEnd(t);
    assert r != [] ==> r[0] == t[0];
    TrimEmptyIffBlank(s, t, r);
    r
  }

  lemma TrimEmptyIffBlank(s: string, t: string, r: string)
    requires t == TrimStart(s) && r == TrimEnd(t)
    ensures r == [] <==> IsBlank(s)
  {
    if IsBlank(s) {
      BlankTrimStart(s);
    }
    if r == [] {
      assert t[|r|..] == t;
      assert s == s[..|s| - |t|] + t;
      BlankAppend(s[..|s| - |t|], t);
    }
  }

  lemma {:induction false} BlankTrimStart(s: string)
    requires IsBlank(s)
    ensures TrimStart(s) == []
    decreases |s|
  {
    if s != [] {
      BlankTrimStart(s[1..]);
    }
  }

  /** Every character of a blank string is whitespace. */
  lemma {:induction false} BlankAt(s: string, i: int)
    requires IsBlank(s) && 0 <= i < |s|
    ensures IsWhitespace(s[i])
    decreases i
  {
    if i > 0 {
      BlankAt(s[1..], i - 1);
    }
  }

  /** trimStart() removes exactly a blank prefix in front of text that
      does not start with whitespace. */
  lemma {:induction false} TrimStartPadded(pre: string, t: string)
    requires IsBlank(pre) && t != [] && !IsWhitespace(t[0])
    ensures TrimStart(pre + t) == t
    decreases |pre|
  {
    if pre == [] {
      assert pre + t == t;
    } else {
      assert (pre + t)[1..] == pre[1..] + t;
      TrimStartPadded(pre[1..], t);
    }
  }

  /** trimEnd() removes exactly a blank suffix behind text that does not
      end with whitespace. */
  lemma {:induction false} TrimEndPadded(t: string, post: string)
    requires IsBlank(post) && t != [] && !IsWhitespace(t[|t| - 1])
    ensures TrimEnd(t + post) == t
    decreases |post|
  {
    if post == [] {
      assert t + post == t;
    } else {
      var n := |post| - 1;
      BlankAt(post, n);
      assert post == post[..n] + [post[n]];
      BlankAppend(post[..n], [post[n]]);
      assert (t + post)[..|t + post| - 1] == t + post[..n];
      TrimEndPadded(t, post[..n]);
    }
  }

  /** trim() removes exactly the whitespace padding around a trimmed,
      non-empty core. */
  lemma {:induction false} TrimPadded(pre: string, core: string, post: string)
    requires IsBlank(pre) && IsBlank(post) && core != [] && IsTrimmed(core)
    ensures Trim(pre + core + post) == core
  {
    var s := pre + core + post;
    assert s == pre + (core + post);
    TrimStartPadded(pre, core + post);
    TrimEndPadded(core, post);
    assert TrimEnd(TrimStart(s)) == core;
  }

  /** A character absent from s is absent from every slice of s. */
  lemma SliceKeepsAbsence(s: string, c: char, i: int, j: int)
    requires 0 <= i <= j <= |s| && c !in s
    ensures c !in s[i..j]
  {
  }

  /** trim() only removes characters. */
  lemma TrimKeepsAbsence(s: string, c: char)
    requires c !in s
    ensures c !in Trim(s)
  {
    var t := TrimStart(s);
    SliceKeepsAbsence(s, c, |s| - |t|, |s|);
    SliceKeepsAbsence(t, c, 0, |TrimEnd(t)|);
  }

  /** Kotlin's split(",").map { it.trim() }, as Config.kt applies it to a
      comma-separated environment value: one entry per comma-separated
      piece, each entry trimmed and free of commas. */
  function SplitAndTrim(s: string): (r: seq<string>)
    ensures |r| == Count(s, ',') + 1
    ensures forall i :: 0 <= i < |r| ==> r[i] == Trim(Split(s, ',')[i])
    ensures forall i :: 0 <= i < |r| ==> IsTrimmed(r[i]) && ',' !in r[i]
  {
    var pieces := Split(s, ',');
    var r := seq(|pieces|, i requires 0 <= i < |pieces| => Trim(pieces[i]));
    TrimmedPieces(pieces, r);
    r
  }

  lemma TrimmedPieces(pieces: seq<string>, r: seq<string>)
    requires forall i :: 0 <= i < |pieces| ==> ',' !in pieces[i]
    requires |r| == |pieces| && forall i :: 0 <= i < |r| ==> r[i] == Trim(pieces[i])
    ensures forall i :: 0 <= i < |r| ==> IsTrimmed(r[i]) && ',' !in r[i]
  {
    forall i | 0 <= i < |r|
      ensures ',' !in r[i]
    {
      TrimKeepsAbsence(pieces[i], ',');
    }
  }

  /** Two comma-free items joined by a comma split back into the two. */
  lemma SplitPair(first: string, second: string)
    requires ',' !in first && ',' !in second
    ensures Split(first + [','] + second, ',') == [first, second]
  {
    assert Join([first, second], ',') == first + [','] + second;
    SplitJoin([first, second], ',');
  }

  /** trim() leaves a trimmed string as it is. */
  lemma TrimKeepsTrimmed(t: string)
    requires t != [] && IsTrimmed(t)
    ensures Trim(t) == t
  {
    assert [] + t + [] == t;
    TrimPadded([], t, []);
  }

  /** trim() strips a single leading space. */
  lemma TrimDropsSpace(t: string)
    requires t != [] && IsTrimmed(t)
    ensures Trim([' '] + t) == t
  {
    assert [' '] + t + [] == [' '] + t;
    assert IsBlank([' '][1..]);
    TrimPadded([' '], t, []);
  }

  /** split(",").map { it.trim() } is read off piece by piece. */
  lemma SplitAndTrimOf(s: string, trimmed: seq<string>)
    requires |trimmed| == |Split(s, ',')|
    requires forall i :: 0 <= i < |trimmed| ==> Trim(Split(s, ',')[i]) == trimmed[i]
    ensures SplitAndTrim(s) == trimmed
  {
  }

  /** Two trimmed, comma-free items joined by a comma split back into the
      two items. */
  lemma {:induction false} SplitAndTrimJoined(first: string, second: string)
    requires first != [] && IsTrimmed(first) && ',' !in first
    requires second != [] && IsTrimmed(second) && ',' !in second
    ensures SplitAndTrim(first + [','] + second) == [first, second]
  {
    var s := first + [','] + second;
    SplitPair(first, second);
    assert Split(s, ',')[0] == first && Split(s, ',')[1] == second;
    TrimKeepsTrimmed(first);
    TrimKeepsTrimmed(second);
    SplitAndTrimOf(s, [first, second]);
  }

  /** Two trimmed, comma-free items joined by a comma and a space split
      back into the two items. */
  lemma {:induction false} SplitAndTrimPair(first: string, second: string)
    requires first != [] && IsTrimmed(first) && ',' !in first
    requires second != [] && IsTrimmed(second) && ',' !in second
    ensures SplitAndTrim(first + [',', ' '] + second) == [first, second]
  {
    var s := first + [',', ' '] + second;
    var padded := [' '] + second;
    assert s == first + [','] + padded;
    SplitPair(first, padded);
    assert Split(s, ',')[0] == first && Split(s, ',')[1] == padded;
    TrimKeepsTrimmed(first);
    TrimDropsSpace(second);
    SplitAndTrimOf(s, [first, second]);
  }
}
