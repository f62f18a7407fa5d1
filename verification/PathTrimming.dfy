/** `trimDots` of RequireJS: taking "." and ".." out of a list of path segments, in place. */
module PathTrimming {

  /** Where a path leads: so many levels up, and then down along these names. */
  datatype Place = Place(climbs: nat, names: seq<string>)

  function Step(p: Place, segment: string): Place {
    if segment == "." then p
    else if segment == ".." then
      if p.names == [] then p.(climbs := p.climbs + 1) else p.(names := p.names[..|p.names| - 1])
    else p.(names := p.names + [segment])
  }

  function Walk(p: Place, segments: seq<string>): Place
    decreases |segments|
  {
    if segments == [] then p else Walk(Step(p, segments[0]), segments[1..])
  }

  function Denoted(segments: seq<string>): Place {
    Walk(Place(0, []), segments)
  }

  /** The result, and whether the loop has broken off in front of a "..". */
  datatype Trimmed = Trimmed(segments: seq<string>, brokenOff: bool)

  predicate EndOfTheLine(s: seq<string>, i: nat)
    requires i < |s|
  {
    i == 1 && ((|s| > 2 && s[2] == "..") || s[0] == "..")
  }

  function Trim(s: seq<string>, i: nat): Trimmed
    requires i <= |s|
    decreases |s| - i
  {
    if i == |s| || s[i] == "" then Trimmed(s, false)
    else if s[i] == "." then Trim(s[..i] + s[i + 1..], i)
    else if s[i] == ".." && EndOfTheLine(s, i) then Trimmed(s, true)
    else if s[i] == ".." && i > 0 then Trim(s[..i - 1] + s[i + 1..], i - 1)
    else Trim(s, i + 1)
  }

  lemma {:induction false} WalkJoined(p: Place, s: seq<string>, t: seq<string>)
    ensures Walk(p, s + t) == Walk(Walk(p, s), t)
    decreases |s|
  {
    if s == [] {
      assert s + t == t;
    } else {
      assert (s + t)[1..] == s[1..] + t;
      WalkJoined(Step(p, s[0]), s[1..], t);
    }
  }

  /** A "." can go, and so can a name together with the ".." after it. */
  lemma CutKeepsPlace(s: seq<string>, i: nat)
    requires i < |s|
    ensures s[i] == "." ==> Denoted(s[..i] + s[i + 1..]) == Denoted(s)
    ensures s[i] == ".." && i > 0 && s[i - 1] != "." && s[i - 1] != ".." ==>
      Denoted(s[..i - 1] + s[i + 1..]) == Denoted(s)
  {
    var start := Place(0, []);
    if s[i] == "." {
      assert s == s[..i] + ([s[i]] + s[i + 1..]);
      WalkJoined(start, s[..i], [s[i]] + s[i + 1..]);
      WalkJoined(start, s[..i], s[i + 1..]);
    } else if s[i] == ".." && i > 0 && s[i - 1] != "." && s[i - 1] != ".." {
      var rest := s[i + 1..];
      assert s == s[..i - 1] + ([s[i - 1]] + ([s[i]] + rest));
      WalkJoined(start, s[..i - 1], [s[i - 1]] + ([s[i]] + rest));
      WalkJoined(start, s[..i - 1], rest);
      var p := Walk(start, s[..i - 1]);
      assert ([s[i - 1]] + ([s[i]] + rest))[1..] == [s[i]] + rest;
      assert ([s[i]] + rest)[1..] == rest;
      assert Step(Step(p, s[i - 1]), s[i]) == p;
    }
  }

  /** Nothing is left to trim among the first `n` segments. */
  predicate CleanTo(s: seq<string>, n: nat)
    requires n <= |s|
  {
    forall k | 0 <= k < n :: s[k] != "." && s[k] != "" && (s[k] == ".." ==> k == 0)
  }

  /** The segments before the first empty one. */
  function Head(s: seq<string>): (n: nat)
    ensures n <= |s| && (n < |s| ==> s[n] == "") && forall k | 0 <= k < n :: s[k] != ""
  {
    if s == [] || s[0] == "" then 0 else 1 + Head(s[1..])
  }

  /** The result leads to the same place. If the loop has not broken off, there is no "." before the
      first empty segment, and no ".." except at the very front. If it has, the path starts with
      one segment and a "..", with another ".." on one side of the latter. */
  lemma {:induction false} TrimOk(s: seq<string>, i: nat)
    requires i <= |s| && CleanTo(s, i)
    ensures var r := Trim(s, i);
      && Denoted(r.segments) == Denoted(s)
      && (!r.brokenOff ==> CleanTo(r.segments, Head(r.segments)))
      && (r.brokenOff ==>
            |r.segments| >= 2 && CleanTo(r.segments, 1) && r.segments[1] == ".." && EndOfTheLine(r.segments, 1))
    decreases |s| - i
  {
    if i == |s| || s[i] == "" {
      assert Head(s) == i;
    } else if s[i] == "." {
      CutKeepsPlace(s, i);
      TrimOk(s[..i] + s[i + 1..], i);
    } else if s[i] == ".." && EndOfTheLine(s, i) {
    } else if s[i] == ".." && i > 0 {
      CutKeepsPlace(s, i);
      TrimOk(s[..i - 1] + s[i + 1..], i - 1);
    } else {
      TrimOk(s, i + 1);
    }
  }

  /** The loop breaks off here: one level up or down has been left so far, and a ".." would undo it;
      one more level up has been reached already, or another ".." follows. */
  predicate StopsAt(s: seq<string>, k: nat)
    requires k < |s|
  {
    var p := Denoted(s[..k]);
    s[k] == ".." && p.climbs + |p.names| == 1 && (p.climbs == 1 || (k + 1 < |s| && s[k + 1] == ".."))
  }

  /** The paths that are not trimmed to their end. */
  predicate StopsEarly(s: seq<string>) {
    exists k | 0 <= k < Head(s) :: StopsAt(s, k)
  }

  /** What the trimmed part of a path denotes. */
  lemma {:induction false} CleanDenotes(s: seq<string>, n: nat)
    requires n <= |s| && CleanTo(s, n)
    ensures var p := Denoted(s[..n]);
      p.climbs + |p.names| == n && p.climbs == (if n > 0 && s[0] == ".." then 1 else 0)
  {
    if n > 0 {
      CleanDenotes(s, n - 1);
      assert s[..n] == s[..n - 1] + [s[n - 1]];
      WalkJoined(Place(0, []), s[..n - 1], [s[n - 1]]);
    }
  }

  lemma {:induction false} HeadIs(s: seq<string>, n: nat)
    requires n <= |s| && (n < |s| ==> s[n] == "") && forall k | 0 <= k < n :: s[k] != ""
    ensures Head(s) == n
  {
    if n > 0 {
      HeadIs(s[1..], n - 1);
    }
  }

  /** Cutting out a part that does not matter moves the places where the loop would break off. */
  lemma CutMoves(s: seq<string>, a: nat, b: nat, k: nat)
    requires a <= b <= Head(s) && b <= k < |s| && Denoted((s[..a] + s[b..])[..k - (b - a)]) == Denoted(s[..k])
    ensures var r := s[..a] + s[b..];
      |r| == |s| - (b - a) && Head(r) == Head(s) - (b - a) && (StopsAt(r, k - (b - a)) <==> StopsAt(s, k))
  {
    CutHead(s, a, b);
  }

  /** What stands before place `k` after a cut. */
  lemma CutSlices(s: seq<string>, a: nat, b: nat, k: nat)
    requires a <= b <= k <= |s|
    ensures (s[..a] + s[b..])[..k - (b - a)] == s[..k][..a] + s[..k][b..]
  {
    var left, right := (s[..a] + s[b..])[..k - (b - a)], s[..k][..a] + s[..k][b..];
    assert |left| == |right|;
    forall x | 0 <= x < |left| ensures left[x] == right[x] {
      assert left[x] == s[if x < a then x else x + (b - a)];
    }
  }

  lemma CutDotStops(s: seq<string>, i: nat, k: nat)
    requires i < k < Head(s) && s[i] == "."
    ensures |s[..i] + s[i + 1..]| == |s| - 1 && (StopsAt(s[..i] + s[i + 1..], k - 1) <==> StopsAt(s, k))
  {
    CutKeepsPlace(s[..k], i);
    CutSlices(s, i, i + 1, k);
    CutMoves(s, i, i + 1, k);
  }

  lemma CutNameStops(s: seq<string>, i: nat, k: nat)
    requires 0 < i < k < Head(s) && s[i] == ".." && s[i - 1] != "." && s[i - 1] != ".."
    ensures |s[..i - 1] + s[i + 1..]| == |s| - 2 && (StopsAt(s[..i - 1] + s[i + 1..], k - 2) <==> StopsAt(s, k))
  {
    CutKeepsPlace(s[..k], i);
    CutSlices(s, i - 1, i + 1, k);
    CutMoves(s, i - 1, i + 1, k);
  }

  lemma CutHead(s: seq<string>, a: nat, b: nat)
    requires a <= b <= Head(s)
    ensures Head(s[..a] + s[b..]) == Head(s) - (b - a)
  {
    var r := s[..a] + s[b..];
    assert forall x | 0 <= x < |r| :: r[x] == s[if x < a then x else x + (b - a)];
    HeadIs(r, Head(s) - (b - a));
  }

  /** The loop breaks off exactly if there is such a place in the path it is given. */
  lemma {:induction false} BreaksOffFrom(s: seq<string>, i: nat)
    requires i <= Head(s) && CleanTo(s, i)
    ensures Trim(s, i).brokenOff <==> exists k | i <= k < Head(s) :: StopsAt(s, k)
    decreases |s| - i
  {
    if i < Head(s) {
      CleanDenotes(s, i);
      if s[i] == "." {
        CutAndGoOn(s, i, i + 1, i);
      } else if s[i] == ".." && EndOfTheLine(s, i) {
        assert StopsAt(s, i);
      } else if s[i] == ".." && i > 0 {
        CutAndGoOn(s, i - 1, i + 1, i);
      } else {
        assert !StopsAt(s, i);
        BreaksOffFrom(s, i + 1);
      }
    }
  }

  lemma {:induction false} CutAndGoOn(s: seq<string>, a: nat, b: nat, i: nat)
    requires a <= i < b == i + 1 <= Head(s) && CleanTo(s, i) && !StopsAt(s, i)
    requires if s[i] == "." then a == i else s[i] == ".." && a == i - 1 && s[a] != ".."
    ensures (exists k | i <= k < Head(s) :: StopsAt(s, k)) <==> Trim(s[..a] + s[b..], a).brokenOff
    decreases |s| - i, 0
  {
    var r := s[..a] + s[b..];
    CutHead(s, a, b);
    BreaksOffFrom(r, a) by { assert forall k | 0 <= k < a :: r[k] == s[k]; }
    forall k | b <= k < Head(s) ensures StopsAt(r, k - (b - a)) <==> StopsAt(s, k) {
      if a == i { CutDotStops(s, i, k); } else { CutNameStops(s, i, k); }
    }
    if k :| a <= k < Head(r) && StopsAt(r, k) {
      assert StopsAt(s, k + (b - a));
    }
    if k :| i <= k < Head(s) && StopsAt(s, k) {
      assert StopsAt(r, k - (b - a));
    }
  }

  lemma BreaksOff(s: seq<string>)
    ensures Trim(s, 0).brokenOff <==> StopsEarly(s)
  {
    BreaksOffFrom(s, 0);
  }

  /** Such a path: nothing is trimmed at all. */
  lemma TrimLeavesDots()
    ensures var s := ["a", "..", "..", "b"]; StopsEarly(s) && Trim(s, 0) == Trimmed(s, true) && !CleanTo(s, Head(s))
  {
    var s := ["a", "..", "..", "b"];
    assert Trim(s, 0) == Trim(s, 1) == Trimmed(s, true);
    BreaksOff(s);
    assert Head(s) == 4 by { assert s[4..] == []; }
  }

  lemma {:induction false} CleanStays(s: seq<string>, i: nat)
    requires i <= Head(s) && CleanTo(s, Head(s))
    ensures Trim(s, i) == Trimmed(s, false)
    decreases |s| - i
  {
    if i < Head(s) {
      CleanStays(s, i + 1);
    }
  }

  /** Trimming twice is trimming once. */
  lemma TrimIsIdempotent(s: seq<string>)
    ensures Trim(Trim(s, 0).segments, 0) == Trim(s, 0)
  {
    TrimOk(s, 0);
    var r := Trim(s, 0);
    if r.brokenOff {
      assert Trim(r.segments, 0) == Trim(r.segments, 1);
    } else {
      CleanStays(r.segments, 0);
    }
  }

  class Segments {
    var ary: seq<string>

    constructor (ary: seq<string>)
      ensures this.ary == ary
    {
      this.ary := ary;
    }

    /** `splice(i, n)` */
    method Splice(i: nat, n: nat)
      requires i + n <= |ary|
      modifies this
      ensures ary == old(ary)[..i] + old(ary)[i + n..]
    {
      ary := ary[..i] + ary[i + n..];
    }

    method TrimDots()
      modifies this
      ensures ary == Trim(old(ary), 0).segments
      ensures Denoted(ary) == Denoted(old(ary))
      ensures if StopsEarly(old(ary)) then |ary| >= 2 && CleanTo(ary, 1) && ary[1] == ".." && EndOfTheLine(ary, 1)
        else CleanTo(ary, Head(ary))
    {
      TrimOk(ary, 0);
      BreaksOff(ary);
      var i := 0;
      while i < |ary| && ary[i] != ""
        invariant 0 <= i <= |ary|
        invariant Trim(ary, i) == Trim(old(ary), 0)
        decreases |ary| - i
      {
        var part := ary[i];
        if part == "." {
          Splice(i, 1);
          i := i - 1;
        } else if part == ".." {
          if i == 1 && ((|ary| > 2 && ary[2] == "..") || ary[0] == "..") {
            break;
          } else if i > 0 {
            Splice(i - 1, 2);
            i := i - 2;
          }
        }
        i := i + 1;
      }
    }
  }
}
