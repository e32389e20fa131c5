/**
 Splitting a path string on `/`, as Python's `str.split('/')` does, and the
 last segment of such a split (`s.split('/')[-1]`), which is how a highlight's
 `picture` value is turned into the file name looked up among a day's pictures.
 */
module Paths {

  const Separator: char := '/'

  /** Python's `s.split('/')`: the maximal `/`-free runs of `s`, with an empty
      segment before a leading, after a trailing and between two adjacent
      separators. It never yields an empty list: `"".split('/') == [""]`. */
  function Split(s: string): (parts: seq<string>)
    ensures |parts| >= 1
    ensures forall i :: 0 <= i < |parts| ==> Separator !in parts[i]
    ensures |parts| == 1 <==> Separator !in s
  {
    if |s| == 0 then [""]
    else
      var rest := Split(s[1..]);
      assert s == [s[0]] + s[1..];
      if s[0] == Separator then [""] + rest
      else [[s[0]] + rest[0]] + rest[1..]
  }

  /** Python's `'/'.join(parts)`, the inverse of `Split`. */
  function Join(parts: seq<string>): string
    requires |parts| >= 1
  {
    if |parts| == 1 then parts[0]
    else parts[0] + [Separator] + Join(parts[1..])
  }

  /** Joining the segments of a split gives back the string. */
  lemma {:induction false} JoinSplit(s: string)
    ensures Join(Split(s)) == s
  {
    if |s| > 0 {
      var c, tl := s[0], s[1..];
      var rest := Split(tl);
      var parts := Split(s);
      JoinSplit(tl);
      assert s == [c] + tl;
      if c == Separator {
        assert parts == [""] + rest;
        assert parts[1..] == rest;
        assert Join(parts) == "" + [Separator] + Join(rest);
      } else if |rest| == 1 {
        assert parts == [[c] + rest[0]];
        assert Join(rest) == rest[0];
      } else {
        assert parts == [[c] + rest[0]] + rest[1..];
        assert parts[1..] == rest[1..];
        assert Join(parts) == ([c] + rest[0]) + [Separator] + Join(rest[1..]);
        assert Join(rest) == rest[0] + [Separator] + Join(rest[1..]);
      }
    }
  }

  /** Splitting a string that starts with a `/`-free prefix glues the prefix
      onto the first segment. */
  lemma {:induction false} SplitPrefix(p: string, t: string)
    requires Separator !in p
    ensures Split(p + t) == [p + Split(t)[0]] + Split(t)[1..]
  {
    if |p| == 0 {
      var st := Split(t);
      assert p + t == t;
      assert p + st[0] == st[0];
      assert st == [st[0]] + st[1..];
    } else {
      SplitPrefix(p[1..], t);
      SplitPrefixStep(p[0], p[1..], t);
      assert p == [p[0]] + p[1..];
    }
  }

  /** The inductive step of `SplitPrefix`: one more `/`-free character in front. */
  lemma SplitPrefixStep(c: char, q: string, t: string)
    requires c != Separator
    requires Split(q + t) == [q + Split(t)[0]] + Split(t)[1..]
    ensures Split([c] + q + t) == [[c] + q + Split(t)[0]] + Split(t)[1..]
  {
    var st := Split(t);
    var qt := q + t;
    ConcatAssoc([c], q, t);
    SplitCons(c, qt);
    ConcatAssoc([c], q, st[0]);
  }

  lemma ConcatAssoc(a: string, b: string, c: string)
    ensures a + b + c == a + (b + c)
  {
  }

  /** Splitting a string whose first character is not `/`. */
  lemma SplitCons(c: char, tl: string)
    requires c != Separator
    ensures Split([c] + tl) == [[c] + Split(tl)[0]] + Split(tl)[1..]
  {
    assert ([c] + tl)[1..] == tl;
  }

  /** Splitting the join of `/`-free segments gives back the segments. */
  lemma {:induction false} SplitJoin(parts: seq<string>)
    requires |parts| >= 1
    requires forall i :: 0 <= i < |parts| ==> Separator !in parts[i]
    ensures Split(Join(parts)) == parts
  {
    if |parts| == 1 {
      SplitPrefix(parts[0], "");
      assert parts[0] + "" == parts[0];
    } else {
      var tail := Join(parts[1..]);
      SplitJoin(parts[1..]);
      assert Join(parts) == parts[0] + ([Separator] + tail);
      SplitPrefix(parts[0], [Separator] + tail);
      assert ([Separator] + tail)[1..] == tail;
      assert Split([Separator] + tail) == [""] + parts[1..];
      assert parts[0] + "" == parts[0];
    }
  }

  /** `r` is the last `/`-separated segment of `s`: a suffix of `s` with no
      `/` in it that is either all of `s` or preceded by a `/`. */
  ghost predicate IsLastSegment(r: string, s: string) {
    && |r| <= |s|
    && r == s[|s| - |r|..]
    && Separator !in r
    && (|r| < |s| ==> s[|s| - |r| - 1] == Separator)
  }

  /** The last segment of the split is the suffix after the last `/`. */
  lemma {:induction false} SplitLastSegment(s: string)
    ensures IsLastSegment(Split(s)[|Split(s)| - 1], s)
  {
    if |s| == 0 {
    } else {
      var rest := Split(s[1..]);
      var tl := s[1..];
      SplitLastSegment(tl);
      var last := rest[|rest| - 1];
      assert s == [s[0]] + tl;
      if s[0] == Separator {
        assert Split(s)[|Split(s)| - 1] == last;
        if |last| == |tl| {
          assert s[|s| - |last| - 1] == s[0];
        }
        assert s[|s| - |last|..] == tl[|tl| - |last|..];
      } else if |rest| == 1 {
        assert Split(s)[|Split(s)| - 1] == [s[0]] + rest[0];
        assert Separator !in tl;
        assert rest[0] == tl;
      } else {
        assert Split(s)[|Split(s)| - 1] == last;
        assert |last| < |tl|;
        assert s[|s| - |last|..] == tl[|tl| - |last|..];
        assert s[|s| - |last| - 1] == tl[|tl| - |last| - 1];
      }
    }
  }

  /** Python's `s.split('/')[-1]`. */
  function LastSegment(s: string): (r: string)
    ensures IsLastSegment(r, s)
    ensures Separator !in s ==> r == s
  {
    var parts := Split(s);
    SplitLastSegment(s);
    parts[|parts| - 1]
  }

  /** The last segment is determined by the two properties above: any suffix
      of `s` that is `/`-free and all of `s` or preceded by `/` is the one
      `LastSegment` returns. */
  lemma LastSegmentUnique(r: string, s: string)
    requires IsLastSegment(r, s)
    ensures r == LastSegment(s)
  {
  }
}
