// path.Join as the normalisers call it: always with "/" as the first element,
// so the result is a rooted path cleaned by path.Clean.
module Paths {
  import opened Strings

  /** The `/`-separated segments of all the parts, in order. */
  function Segments(parts: seq<string>): (segs: seq<string>)
    ensures forall i :: 0 <= i < |segs| ==> '/' !in segs[i]
  {
    if |parts| == 0 then [] else Split(parts[0], '/') + Segments(parts[1..])
  }

  /** A segment that path.Clean keeps as it is. */
  predicate Plain(s: string) {
    s != "" && s != "." && s != ".." && '/' !in s
  }

  /** path.Clean on the segments of a rooted path, left to right onto `kept`:
      empty and `.` segments vanish, `..` removes the last kept segment and
      stops at the root. */
  function Clean(segs: seq<string>, kept: seq<string>): (r: seq<string>)
    requires forall i :: 0 <= i < |segs| ==> '/' !in segs[i]
    requires forall i :: 0 <= i < |kept| ==> Plain(kept[i])
    ensures forall i :: 0 <= i < |r| ==> Plain(r[i])
    decreases |segs|
  {
    if |segs| == 0 then kept
    else if segs[0] == "" || segs[0] == "." then Clean(segs[1..], kept)
    else if segs[0] == ".." then Clean(segs[1..], if |kept| > 0 then kept[..|kept| - 1] else [])
    else Clean(segs[1..], kept + [segs[0]])
  }

  /** path.Join("/", parts...). */
  function RootedJoin(parts: seq<string>): string
  {
    "/" + Join(Clean(Segments(parts), []), '/')
  }

  /** Plain segments pass through Clean unchanged. */
  lemma {:induction false} CleanPlain(segs: seq<string>, kept: seq<string>)
    requires forall i :: 0 <= i < |kept| ==> Plain(kept[i])
    requires forall i :: 0 <= i < |segs| ==> Plain(segs[i]) && '/' !in segs[i]
    ensures Clean(segs, kept) == kept + segs
    decreases |segs|
  {
    if |segs| > 0 {
      CleanPlain(segs[1..], kept + [segs[0]]);
      assert kept + [segs[0]] + segs[1..] == kept + segs;
    } else {
      assert kept + segs == kept;
    }
  }

  /** The segments of plain parts are the parts themselves. */
  lemma {:induction false} SegmentsPlain(parts: seq<string>)
    requires forall i :: 0 <= i < |parts| ==> Plain(parts[i])
    ensures Segments(parts) == parts
  {
    if |parts| > 0 {
      SplitNone(parts[0], '/');
      SegmentsPlain(parts[1..]);
      assert parts == [parts[0]] + parts[1..];
    }
  }

  /** Joining plain segments only puts `/` in between. */
  lemma RootedJoinPlain(parts: seq<string>)
    requires forall i :: 0 <= i < |parts| ==> Plain(parts[i])
    ensures RootedJoin(parts) == "/" + Join(parts, '/')
  {
    SegmentsPlain(parts);
    CleanPlain(parts, []);
    assert [] + parts == parts;
  }

  /** strings.Split of `/` followed by plain segments: the empty piece before
      the root, then the segments. */
  lemma SplitRooted(segs: seq<string>)
    requires forall i :: 0 <= i < |segs| ==> Plain(segs[i])
    ensures Split("/" + Join(segs, '/'), '/') == [""] + (if segs == [] then [""] else segs)
  {
    var tail := Join(segs, '/');
    assert ("/" + tail)[1..] == tail;
    assert Split("/" + tail, '/') == [""] + Split(tail, '/');
    if segs != [] {
      SplitJoin(segs, '/');
    }
  }

  lemma SegmentsPair(first: string, rest: string)
    requires '/' !in first
    ensures Segments([first, rest]) == [first] + Split(rest, '/')
  {
    SplitNone(first, '/');
    assert [first, rest][1..] == [rest];
    assert [rest][1..] == [];
    assert Segments([rest]) == Split(rest, '/') + Segments([]);
    assert Split(rest, '/') + [] == Split(rest, '/');
    assert Segments([first, rest]) == Split(first, '/') + Segments([rest]);
  }

  /** A plain segment put in front of a rooted path of plain segments (or of
      the empty path): path.Join("/", first, rest) is the rooted path of all
      of them. */
  lemma RootedJoinFront(first: string, rest: string, segs: seq<string>)
    requires Plain(first) && forall i :: 0 <= i < |segs| ==> Plain(segs[i])
    requires rest == "/" + Join(segs, '/') || (rest == "" && segs == [])
    ensures RootedJoin([first, rest]) == "/" + Join([first] + segs, '/')
  {
    SegmentsPair(first, rest);
    CleanFront(first, Split(rest, '/'), []);
    assert [] + [first] == [first];
    CleanRest(first, rest, segs);
    assert Clean(Segments([first, rest]), []) == [first] + segs;
  }

  /** A plain first segment is kept. */
  lemma CleanFront(x: string, segs: seq<string>, kept: seq<string>)
    requires Plain(x) && forall i :: 0 <= i < |segs| ==> '/' !in segs[i]
    requires forall i :: 0 <= i < |kept| ==> Plain(kept[i])
    ensures Clean([x] + segs, kept) == Clean(segs, kept + [x])
  {
    assert ([x] + segs)[0] == x;
    assert ([x] + segs)[1..] == segs;
  }

  lemma CleanRest(first: string, rest: string, segs: seq<string>)
    requires Plain(first) && forall i :: 0 <= i < |segs| ==> Plain(segs[i])
    requires rest == "/" + Join(segs, '/') || (rest == "" && segs == [])
    ensures Clean(Split(rest, '/'), [first]) == [first] + segs
  {
    if rest == "" {
      assert Split(rest, '/') == [""];
      assert Clean([""], [first]) == [first] by {
        assert [""][1..] == [];
      }
    } else if segs == [] {
      SplitRooted(segs);
      assert Split(rest, '/') == ["", ""];
      assert Clean(["", ""], [first]) == [first] by {
        assert ["", ""][1..] == [""];
        assert [""][1..] == [];
      }
    } else {
      SplitRooted(segs);
      assert Clean([""] + segs, [first]) == Clean(segs, [first]) by {
        assert ([""] + segs)[1..] == segs;
      }
      CleanPlain(segs, [first]);
    }
  }

  /** strings.Split of a joined path: the empty piece before the root, then the
      cleaned segments, or a single empty piece for the bare root "/". */
  lemma SplitRootedJoin(parts: seq<string>)
    ensures var segs := Clean(Segments(parts), []);
      Split(RootedJoin(parts), '/') == if segs == [] then ["", ""] else [""] + segs
  {
    var segs := Clean(Segments(parts), []);
    var tail := Join(segs, '/');
    assert ([ '/' ] + tail)[1..] == tail;
    assert Split([ '/' ] + tail, '/') == [""] + Split(tail, '/');
    if segs == [] {
      assert tail == "";
    } else {
      SplitJoin(segs, '/');
    }
  }

  /** path.Clean is idempotent: joining the result of a join again changes nothing. */
  lemma RootedJoinIdempotent(parts: seq<string>)
    ensures RootedJoin([RootedJoin(parts)]) == RootedJoin(parts)
  {
    var segs := Clean(Segments(parts), []);
    SplitRootedJoin(parts);
    var pieces := Split(RootedJoin(parts), '/');
    assert Segments([RootedJoin(parts)]) == pieces + [] by {
      assert [RootedJoin(parts)][1..] == [];
    }
    assert pieces + [] == pieces;
    if segs == [] {
      assert Clean(["", ""], []) == [];
    } else {
      assert Clean([""] + segs, []) == Clean(segs, []) by {
        assert ([""] + segs)[1..] == segs;
      }
      CleanPlain(segs, []);
      assert [] + segs == segs;
    }
  }

  /** path.Join("/", a, b, c) of three plain segments, and its pieces. */
  lemma RootedJoinThree(a: string, b: string, c: string)
    requires Plain(a) && Plain(b) && Plain(c)
    ensures RootedJoin([a, b, c]) == "/" + a + "/" + b + "/" + c
    ensures Split("/" + a + "/" + b + "/" + c, '/') == ["", a, b, c]
  {
    var j := Join([a, b, c], '/');
    RootedJoinPlain([a, b, c]);
    JoinThree(a, b, c, '/');
    SlashSpelling(a, b, c);
    assert "/" + j == "/" + a + "/" + b + "/" + c;
    SplitRooted([a, b, c]);
    assert Split("/" + j, '/') == [""] + [a, b, c];
  }

  /** An empty last segment vanishes: path.Join("/", a, b, "") is "/a/b". */
  lemma RootedJoinEmptyLast(a: string, b: string)
    requires Plain(a) && Plain(b)
    ensures RootedJoin([a, b, ""]) == "/" + a + "/" + b
    ensures Split("/" + a + "/" + b, '/') == ["", a, b]
  {
    SegmentsEmptyLast(a, b);
    CleanEmptyLast(a, b);
    JoinThree(a, b, "", '/');
    SplitRooted([a, b]);
  }

  lemma SegmentsEmptyLast(a: string, b: string)
    requires '/' !in a && '/' !in b
    ensures Segments([a, b, ""]) == [a, b, ""]
  {
    SplitNone(a, '/');
    SplitNone(b, '/');
    assert Split("", '/') == [""];
    assert [a, b, ""][1..] == [b, ""];
    assert [b, ""][1..] == [""];
    assert [""][1..] == [];
    assert Segments([""]) == [""];
    assert Segments([b, ""]) == [b, ""];
  }

  lemma CleanEmptyLast(a: string, b: string)
    requires Plain(a) && Plain(b)
    ensures Clean([a, b, ""], []) == [a, b]
  {
    assert [a, b, ""][1..] == [b, ""];
    assert [b, ""][1..] == [""];
    assert [""][1..] == [];
    assert Clean([""], [a, b]) == [a, b];
    assert [a] + [b] == [a, b];
    assert Clean([b, ""], [a]) == [a, b];
    assert [] + [a] == [a];
  }

  lemma SlashSpelling(a: string, b: string, c: string)
    ensures "/" + (a + ['/'] + b + ['/'] + c) == "/" + a + "/" + b + "/" + c
  {
  }

  // ---- control bytes

  /** path.Join writes no control byte when none of its parts holds one. */
  lemma RootedJoinNoControl(parts: seq<string>)
    requires forall i :: 0 <= i < |parts| ==> NoControl(parts[i])
    ensures NoControl(RootedJoin(parts))
  {
    PartsNoControl(parts);
    CleanNoControl(Segments(parts), []);
    JoinNoControl(Clean(Segments(parts), []), '/');
    NoControlAppend("/", Join(Clean(Segments(parts), []), '/'));
  }

  lemma {:induction false} PartsNoControl(parts: seq<string>)
    requires forall i :: 0 <= i < |parts| ==> NoControl(parts[i])
    ensures forall i :: 0 <= i < |Segments(parts)| ==> NoControl(Segments(parts)[i])
    decreases |parts|
  {
    if |parts| > 0 {
      PartsNoControl(parts[1..]);
      SplitNoControl(parts[0], '/');
      var a, b := Split(parts[0], '/'), Segments(parts[1..]);
      assert Segments(parts) == a + b;
      forall i | 0 <= i < |a + b|
        ensures NoControl((a + b)[i])
      {
        if i >= |a| {
          assert (a + b)[i] == b[i - |a|];
        }
      }
    }
  }

  lemma {:induction false} CleanNoControl(segs: seq<string>, kept: seq<string>)
    requires forall i :: 0 <= i < |segs| ==> '/' !in segs[i] && NoControl(segs[i])
    requires forall i :: 0 <= i < |kept| ==> Plain(kept[i]) && NoControl(kept[i])
    ensures forall i :: 0 <= i < |Clean(segs, kept)| ==> NoControl(Clean(segs, kept)[i])
    decreases |segs|
  {
    if |segs| > 0 {
      if segs[0] == "" || segs[0] == "." {
        CleanNoControl(segs[1..], kept);
      } else if segs[0] == ".." {
        CleanNoControl(segs[1..], if |kept| > 0 then kept[..|kept| - 1] else []);
      } else {
        CleanNoControl(segs[1..], kept + [segs[0]]);
      }
    }
  }
}
