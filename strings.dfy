// The parts of Go's `strings` and `sort` packages that the normalisers use,
// on `string` = `seq<char>`.
module Strings {

  /** strings.HasPrefix */
  predicate HasPrefix(s: string, p: string) {
    |p| <= |s| && s[..|p|] == p
  }

  /** Putting the same text in front keeps a prefix a prefix. */
  lemma HasPrefixAppend(a: string, b: string, c: string)
    requires HasPrefix(b, c)
    ensures HasPrefix(a + b, a + c)
  {
    assert (a + b)[..|a + c|] == a + b[..|c|];
  }

  /** Two patterns that differ at some position cannot both start a string. */
  lemma PrefixesDiffer(s: string, a: string, b: string, i: nat)
    requires i < |a| && i < |b| && a[i] != b[i]
    ensures !(HasPrefix(s, a) && HasPrefix(s, b))
  {
  }

  /** Index of the first `c` in `s`, or |s| when there is none (strings.IndexByte). */
  function IndexOf(s: string, c: char): (i: nat)
    ensures i <= |s|
    ensures forall j :: 0 <= j < i ==> s[j] != c
    ensures i < |s| ==> s[i] == c
    ensures i == |s| <==> c !in s
  {
    if |s| == 0 then 0 else if s[0] == c then 0 else 1 + IndexOf(s[1..], c)
  }

  /** Index of the last `c` in `s`, or -1 when there is none (strings.LastIndexByte). */
  function LastIndex(s: string, c: char): (i: int)
    ensures -1 <= i < |s|
    ensures forall j :: i < j < |s| ==> s[j] != c
    ensures i >= 0 ==> s[i] == c
    ensures i == -1 <==> c !in s
  {
    if |s| == 0 then -1
    else if s[|s| - 1] == c then |s| - 1
    else
      assert s == s[..|s| - 1] + [s[|s| - 1]];
      LastIndex(s[..|s| - 1], c)
  }

  /** strings.Cut with a one-character separator: the text before the first `c`,
      the text after it, and whether there was one. */
  function Cut(s: string, c: char): (r: (string, string, bool))
    ensures r.2 == (c in s)
    ensures c !in r.0
    ensures r.2 ==> s == r.0 + [c] + r.1
    ensures !r.2 ==> r.0 == s && r.1 == ""
  {
    var i := IndexOf(s, c);
    if i < |s| then
      assert s == s[..i] + [c] + s[i + 1..];
      (s[..i], s[i + 1..], true)
    else (s, "", false)
  }

  /** strings.Cut finds the first separator: any split around a separator
      with none before it is the one Cut returns. */
  lemma CutUnique(s: string, c: char, x: string, y: string)
    requires c !in x && s == x + [c] + y
    ensures Cut(s, c) == (x, y, true)
  {
    var i := IndexOf(s, c);
    assert s[|x|] == c;
    assert forall j :: 0 <= j < |x| ==> s[j] == x[j];
    assert i == |x|;
    assert s[..i] == x && s[i + 1..] == y;
  }

  /** strings.Split with a one-character separator. */
  function Split(s: string, sep: char): (parts: seq<string>)
    ensures |parts| >= 1
    ensures forall i :: 0 <= i < |parts| ==> sep !in parts[i]
    decreases |s|
  {
    if |s| == 0 then [""]
    else
      var rest := Split(s[1..], sep);
      if s[0] == sep then [""] + rest
      else [[s[0]] + rest[0]] + rest[1..]
  }

  /** strings.Join with a one-character separator. */
  function Join(parts: seq<string>, sep: char): string
  {
    if |parts| == 0 then ""
    else if |parts| == 1 then parts[0]
    else parts[0] + [sep] + Join(parts[1..], sep)
  }

  /** Splitting and joining on the same separator gives the string back. */
  lemma {:induction false} JoinSplit(s: string, sep: char)
    ensures Join(Split(s, sep), sep) == s
    decreases |s|
  {
    if |s| > 0 {
      var rest := Split(s[1..], sep);
      JoinSplit(s[1..], sep);
      if s[0] != sep {
        assert s == [s[0]] + s[1..];
      } else {
        assert s == [sep] + s[1..];
      }
    }
  }

  /** A prefix free of the separator extends the first piece. */
  lemma {:induction false} SplitPrefix(a: string, b: string, sep: char)
    requires sep !in a
    ensures Split(a + b, sep) == [a + Split(b, sep)[0]] + Split(b, sep)[1..]
    decreases |a|
  {
    if |a| > 0 {
      assert (a + b)[1..] == a[1..] + b;
      SplitPrefix(a[1..], b, sep);
      var sb := Split(b, sep);
      var rest := Split((a + b)[1..], sep);
      assert rest[0] == a[1..] + sb[0] && rest[1..] == sb[1..];
      assert (a + b)[0] == a[0];
      assert Split(a + b, sep) == [[a[0]] + rest[0]] + rest[1..];
      assert [a[0]] + (a[1..] + sb[0]) == a + sb[0];
    } else {
      assert a + b == b && a + Split(b, sep)[0] == Split(b, sep)[0];
      assert Split(b, sep) == [Split(b, sep)[0]] + Split(b, sep)[1..];
    }
  }

  /** A string free of the separator is one piece. */
  lemma SplitNone(a: string, sep: char)
    requires sep !in a
    ensures Split(a, sep) == [a]
  {
    SplitPrefix(a, "", sep);
    assert a + "" == a;
  }

  /** The first piece of strings.Split is what strings.Cut finds before the
      first separator. */
  lemma SplitFirstCut(s: string, sep: char)
    ensures Split(s, sep)[0] == Cut(s, sep).0
  {
    var (x, y, found) := Cut(s, sep);
    if found {
      var t := [sep] + y;
      assert s == x + t;
      SplitPrefix(x, t, sep);
      assert t[0] == sep && t[1..] == y;
      assert Split(t, sep) == [""] + Split(y, sep);
      assert x + "" == x;
    } else {
      SplitNone(s, sep);
    }
  }

  /** Joining pieces free of the separator and splitting again gives the pieces back. */
  lemma {:induction false} SplitJoin(parts: seq<string>, sep: char)
    requires |parts| >= 1
    requires forall i :: 0 <= i < |parts| ==> sep !in parts[i]
    ensures Split(Join(parts, sep), sep) == parts
  {
    if |parts| == 1 {
      SplitNone(parts[0], sep);
    } else {
      var tail := Join(parts[1..], sep);
      SplitJoin(parts[1..], sep);
      SplitPrefix(parts[0], [sep] + tail, sep);
      assert parts[0] + [sep] + tail == parts[0] + ([sep] + tail);
      assert ([sep] + tail)[1..] == tail;
      assert Split([sep] + tail, sep) == [""] + Split(tail, sep);
      assert parts[0] + "" == parts[0];
      assert parts == [parts[0]] + parts[1..];
    }
  }

  /** Join of two and of three pieces, spelt out. */
  lemma JoinThree(a: string, b: string, c: string, sep: char)
    ensures Join([a, b], sep) == a + [sep] + b
    ensures Join([a, b, c], sep) == a + [sep] + b + [sep] + c
  {
    assert [a, b][1..] == [b];
    assert [b, c][1..] == [c];
    assert Join([b, c], sep) == b + [sep] + c;
    assert [a, b, c][1..] == [b, c];
    assert Join([a, b, c], sep) == a + [sep] + (b + [sep] + c);
  }

  /** Join of five pieces, spelt out. */
  lemma JoinFive(a: string, b: string, c: string, d: string, e: string, sep: char)
    ensures Join([a, b, c, d, e], sep) == a + [sep] + b + [sep] + c + [sep] + d + [sep] + e
  {
    assert [d, e][1..] == [e];
    assert Join([d, e], sep) == d + [sep] + e;
    assert [c, d, e][1..] == [d, e];
    assert Join([c, d, e], sep) == c + [sep] + (d + [sep] + e);
    assert [b, c, d, e][1..] == [c, d, e];
    assert Join([b, c, d, e], sep) == b + [sep] + (c + [sep] + (d + [sep] + e));
    assert [a, b, c, d, e][1..] == [b, c, d, e];
    assert Join([a, b, c, d, e], sep) == a + [sep] + (b + [sep] + (c + [sep] + (d + [sep] + e)));
  }

  /** strings.Replace(s, pat, rep, 1): the first occurrence of `pat` replaced. */
  function ReplaceFirst(s: string, pat: string, rep: string): string
    requires |pat| > 0
    decreases |s|
  {
    if |s| < |pat| then s
    else if s[..|pat|] == pat then rep + s[|pat|..]
    else [s[0]] + ReplaceFirst(s[1..], pat, rep)
  }

  /** Is `pat` found in `s` starting at `i`? */
  predicate OccursAt(s: string, pat: string, i: nat) {
    i + |pat| <= |s| && s[i..i + |pat|] == pat
  }

  /** The leftmost position at which `pat` occurs in `s`, or |s| when it does not occur. */
  function FindFirst(s: string, pat: string): (i: nat)
    requires |pat| > 0
    ensures i <= |s|
    ensures i < |s| ==> OccursAt(s, pat, i)
    ensures forall j: nat :: j < i ==> !OccursAt(s, pat, j)
    decreases |s|
  {
    if |s| < |pat| then |s|
    else if s[..|pat|] == pat then 0
    else
      var k := FindFirst(s[1..], pat);
      assert forall j: nat :: OccursAt(s, pat, j + 1) ==> OccursAt(s[1..], pat, j) by {
        forall j: nat | OccursAt(s, pat, j + 1) ensures OccursAt(s[1..], pat, j) {
          TailSlice(s, j, |pat|);
        }
      }
      assert k < |s| - 1 ==> OccursAt(s, pat, k + 1) by {
        if k < |s| - 1 {
          TailSlice(s, k, |pat|);
        }
      }
      assert forall j: nat :: j < k + 1 ==> !OccursAt(s, pat, j) by {
        forall j: nat | j < k + 1 ensures !OccursAt(s, pat, j) {
          if j > 0 {
            assert !OccursAt(s[1..], pat, j - 1);
          }
        }
      }
      k + 1
  }

  lemma TailSlice(s: string, j: nat, n: nat)
    requires j + 1 + n <= |s|
    ensures s[1..][j..j + n] == s[j + 1..j + 1 + n]
  {
    var a := s[1..][j..j + n];
    assert forall t :: 0 <= t < n ==> a[t] == s[j + 1 + t];
  }

  /** `s` with the `n` characters at `i` replaced by `rep`, or `s` itself when
      they do not fit. */
  function ReplaceAt(s: string, i: nat, n: nat, rep: string): string {
    if i + n <= |s| then s[..i] + rep + s[i + n..] else s
  }

  /** ReplaceFirst rewrites exactly the leftmost occurrence of `pat`, and
      leaves a string in which `pat` does not occur unchanged. */
  lemma {:induction false} ReplaceFirstSpec(s: string, pat: string, rep: string)
    requires |pat| > 0
    ensures ReplaceFirst(s, pat, rep) == ReplaceAt(s, FindFirst(s, pat), |pat|, rep)
    decreases |s|
  {
    if |s| < |pat| {
      ReplaceFirstShort(s, pat, rep);
    } else if s[..|pat|] == pat {
      ReplaceFirstFront(s, pat, rep);
    } else {
      var t := s[1..];
      ReplaceFirstSpec(t, pat, rep);
      FindFirstShift(s, pat);
      ReplaceFirstCons(s, pat, rep);
      ReplaceAtCons(s, FindFirst(t, pat), |pat|, rep);
    }
  }

  /** A string without the first character of `pat` is left as it is. */
  lemma {:induction false} ReplaceFirstAbsent(s: string, pat: string, rep: string)
    requires |pat| > 0 && pat[0] !in s
    ensures ReplaceFirst(s, pat, rep) == s
    decreases |s|
  {
    if |s| >= |pat| {
      assert s[..|pat|][0] == s[0];
      assert pat[0] !in s[1..] by {
        assert forall i :: 0 <= i < |s[1..]| ==> s[1..][i] == s[i + 1];
      }
      ReplaceFirstAbsent(s[1..], pat, rep);
      assert s == [s[0]] + s[1..];
    }
  }

  /** A string in which `pat` does not occur is left as it is. */
  lemma ReplaceFirstNone(s: string, pat: string, rep: string)
    requires |pat| > 0 && forall i: nat :: !OccursAt(s, pat, i)
    ensures ReplaceFirst(s, pat, rep) == s
  {
    ReplaceFirstSpec(s, pat, rep);
  }

  lemma ReplaceFirstShort(s: string, pat: string, rep: string)
    requires |s| < |pat|
    ensures ReplaceFirst(s, pat, rep) == ReplaceAt(s, FindFirst(s, pat), |pat|, rep)
  {
  }

  lemma ReplaceFirstFront(s: string, pat: string, rep: string)
    requires 0 < |pat| <= |s| && s[..|pat|] == pat
    ensures ReplaceFirst(s, pat, rep) == ReplaceAt(s, FindFirst(s, pat), |pat|, rep)
  {
    assert FindFirst(s, pat) == 0;
    assert s[..0] == "";
  }

  lemma FindFirstShift(s: string, pat: string)
    requires 0 < |pat| <= |s| && s[..|pat|] != pat
    ensures FindFirst(s, pat) == FindFirst(s[1..], pat) + 1
  {
  }

  lemma ReplaceFirstCons(s: string, pat: string, rep: string)
    requires 0 < |pat| <= |s| && s[..|pat|] != pat
    ensures ReplaceFirst(s, pat, rep) == [s[0]] + ReplaceFirst(s[1..], pat, rep)
  {
  }

  /** Replacing one position further on keeps the first character. */
  lemma ReplaceAtCons(s: string, k: nat, n: nat, rep: string)
    requires |s| > 0
    ensures ReplaceAt(s, k + 1, n, rep) == [s[0]] + ReplaceAt(s[1..], k, n, rep)
  {
    if k + 1 + n <= |s| {
      ConsSlices(s, k, n, rep);
    } else {
      assert [s[0]] + s[1..] == s;
    }
  }

  /** An occurrence of `pat` at the front is the one replaced. */
  lemma ConsSlices(s: string, k: nat, n: nat, rep: string)
    requires k + 1 + n <= |s|
    ensures [s[0]] + (s[1..][..k] + rep + s[1..][k + n..]) == s[..k + 1] + rep + s[k + 1 + n..]
  {
    assert s[..k + 1] == [s[0]] + s[1..][..k];
    assert s[k + 1 + n..] == s[1..][k + n..];
  }

  lemma ReplaceFirstHere(s: string, pat: string, rep: string)
    requires |pat| > 0 && HasPrefix(s, pat)
    ensures ReplaceFirst(s, pat, rep) == rep + s[|pat|..]
  {
  }

  /** A first character that cannot start `pat` is kept. */
  lemma ReplaceFirstSkip(s: string, pat: string, rep: string)
    requires |pat| > 0 && |s| > 0 && s[0] != pat[0]
    ensures ReplaceFirst(s, pat, rep) == [s[0]] + ReplaceFirst(s[1..], pat, rep)
  {
    if |s| >= |pat| {
      assert s[..|pat|][0] == s[0];
    }
  }

  /** When no character before an occurrence of `pat` can start it, that
      occurrence is the one replaced. */
  lemma {:induction false} ReplaceFirstPast(a: string, b: string, pat: string, rep: string)
    requires |pat| > 0 && pat[0] !in a
    ensures ReplaceFirst(a + pat + b, pat, rep) == a + rep + b
    decreases |a|
  {
    if |a| == 0 {
      ReplaceFirstHere(pat + b, pat, rep);
      assert a + pat + b == pat + b && a + rep + b == rep + b;
    } else {
      ReplaceFirstPast(a[1..], b, pat, rep);
      ReplaceFirstSkip(a + pat + b, pat, rep);
      assert (a + pat + b)[1..] == a[1..] + pat + b;
      assert a + rep + b == [a[0]] + (a[1..] + rep + b);
    }
  }

  /** The ASCII upper-case letters lowered, everything else kept (strings.ToLower
      restricted to ASCII). */
  function ToLower(s: string): (r: string)
    ensures |r| == |s|
    ensures forall i :: 0 <= i < |s| ==> r[i] == LowerChar(s[i])
  {
    if |s| == 0 then "" else [LowerChar(s[0])] + ToLower(s[1..])
  }

  function LowerChar(c: char): char {
    if 'A' <= c <= 'Z' then (c as int + 32) as char else c
  }

  /** Byte-wise lexicographic order of Go's string comparison (`<=`), on code points. */
  predicate LexLe(a: string, b: string)
    decreases |a|
  {
    |a| == 0 || (|b| > 0 && (a[0] < b[0] || (a[0] == b[0] && LexLe(a[1..], b[1..]))))
  }

  lemma {:induction false} LexLeReflexive(a: string)
    ensures LexLe(a, a)
    decreases |a|
  {
    if |a| > 0 {
      LexLeReflexive(a[1..]);
    }
  }

  lemma {:induction false} LexLeAntisymmetric(a: string, b: string)
    requires LexLe(a, b) && LexLe(b, a)
    ensures a == b
    decreases |a|
  {
    if |a| > 0 {
      LexLeAntisymmetric(a[1..], b[1..]);
      assert a == [a[0]] + a[1..] && b == [b[0]] + b[1..];
    }
  }

  lemma {:induction false} LexLeTotal(a: string, b: string)
    ensures LexLe(a, b) || LexLe(b, a)
    decreases |a|
  {
    if |a| > 0 && |b| > 0 && a[0] == b[0] {
      LexLeTotal(a[1..], b[1..]);
    }
  }

  lemma {:induction false} LexLeTransitive(a: string, b: string, c: string)
    requires LexLe(a, b) && LexLe(b, c)
    ensures LexLe(a, c)
    decreases |a|
  {
    if |a| > 0 && a[0] == b[0] && b[0] == c[0] {
      LexLeTransitive(a[1..], b[1..], c[1..]);
    }
  }

  // ------------------------------------------------------ control bytes

  /** A byte below 0x20, or DEL: what net/url's stringContainsCTLByte looks for. */
  predicate IsControl(c: char) {
    c < ' ' || c as int == 127
  }

  predicate NoControl(s: string) {
    forall c | c in s :: !IsControl(c)
  }

  /** A concatenation holds no control byte exactly when neither half does. */
  lemma NoControlAppend(a: string, b: string)
    ensures NoControl(a + b) <==> NoControl(a) && NoControl(b)
  {
    if NoControl(a + b) {
      forall c | c in a
        ensures !IsControl(c)
      {
        assert c in a + b;
      }
      forall c | c in b
        ensures !IsControl(c)
      {
        assert c in a + b;
      }
    }
  }

  /** What follows a position, and the two sides of a cut, hold no control
      byte when the whole does not. */
  lemma DropNoControl(s: string, k: nat)
    requires NoControl(s) && k <= |s|
    ensures NoControl(s[k..])
  {
    assert s == s[..k] + s[k..];
    NoControlAppend(s[..k], s[k..]);
  }

  lemma CutNoControl(s: string, c: char)
    requires NoControl(s)
    ensures NoControl(Cut(s, c).0) && NoControl(Cut(s, c).1)
  {
    var (x, y, found) := Cut(s, c);
    if found {
      NoControlAppend(x + [c], y);
      NoControlAppend(x, [c]);
    }
  }

  /** The pieces of a string without control bytes have none either. */
  lemma {:induction false} SplitNoControl(s: string, sep: char)
    requires NoControl(s)
    ensures forall i :: 0 <= i < |Split(s, sep)| ==> NoControl(Split(s, sep)[i])
    decreases |s|
  {
    if |s| > 0 {
      assert s == [s[0]] + s[1..];
      SplitNoControl(s[1..], sep);
    }
  }

  /** A control byte anywhere in a piece is one in the whole. */
  lemma ControlInside(pre: string, s: string, post: string)
    requires !NoControl(s)
    ensures !NoControl(pre + s + post)
  {
    var c :| c in s && IsControl(c);
    assert c in pre + s + post;
  }

  /** The membership form of NoControl from a fact about each position. */
  lemma IndexedNoControl(s: string)
    requires forall i :: 0 <= i < |s| ==> !IsControl(s[i])
    ensures NoControl(s)
  {
    forall c | c in s
      ensures !IsControl(c)
    {
      var i :| 0 <= i < |s| && s[i] == c;
    }
  }

  /** Joining pieces without control bytes on a separator that is none gives
      a string without control bytes. */
  lemma {:induction false} JoinNoControl(parts: seq<string>, sep: char)
    requires !IsControl(sep) && forall i :: 0 <= i < |parts| ==> NoControl(parts[i])
    ensures NoControl(Join(parts, sep))
    decreases |parts|
  {
    if |parts| > 1 {
      JoinNoControl(parts[1..], sep);
      NoControlAppend(parts[0], [sep]);
      NoControlAppend(parts[0] + [sep], Join(parts[1..], sep));
    }
  }
}
