/** What the text formatter promises: no newline survives, each newline becomes
    exactly one `<br>` and the bullet rewrite neither adds nor removes one, a
    regular bulleted segment has its marker replaced and the rest kept, and
    text with no bulleted segment is left as its newline replacement, so that
    formatting it again changes nothing. */
module FormatterLemmas {
  import opened Wrappers
  import opened Formatter

  // ---------------------------------------------------------------------
  // What the scanner's pieces match

  /** `\s*` is greedy: the run ends at the first character that is not `\s`. */
  lemma {:induction false} SpaceEndIsLongestRun(s: string, i: nat)
    requires i <= |s|
    ensures forall j :: i <= j < SpaceEnd(s, i) ==> IsSpace(s[j])
    ensures SpaceEnd(s, i) == |s| || !IsSpace(s[SpaceEnd(s, i)])
    decreases |s| - i
  {
    if i < |s| && IsSpace(s[i]) {
      SpaceEndIsLongestRun(s, i + 1);
    }
  }

  /** `.+?(?=<br>|$)` stops at the first place where the lookahead holds, or
      fails because `.` refuses a character before any such place. */
  lemma {:induction false} LazyEndFromIsShortest(s: string, e: nat)
    requires e <= |s|
    ensures LazyEndFrom(s, e).Some? ==>
      var f := LazyEndFrom(s, e).value;
      && (f == |s| || BrAt(s, f))
      && (forall j :: e <= j < f ==> IsDot(s[j]))
      && (forall j :: e <= j < f ==> !BrAt(s, j))
    ensures LazyEndFrom(s, e).None? ==> exists j :: e <= j < NextBr(s, e) && !IsDot(s[j])
    decreases |s| - e
  {
    if e < |s| && !BrAt(s, e) && IsDot(s[e]) {
      LazyEndFromIsShortest(s, e + 1);
    }
  }

  lemma LazyEndIsShortest(s: string, k: nat)
    requires k <= |s| && LazyEnd(s, k).Some?
    ensures var f := LazyEnd(s, k).value;
      && (f == |s| || BrAt(s, f))
      && (forall j :: k <= j < f ==> IsDot(s[j]))
      && (forall j :: k < j < f ==> !BrAt(s, j))
  {
    LazyEndFromIsShortest(s, k + 1);
  }

  /** Backtracking gives back as little of `\s*` as possible: every later body start fails. */
  lemma {:induction false} TryBodiesIsGreedy(s: string, t: nat, k: nat)
    requires t <= k <= |s|
    ensures TryBodies(s, t, k).Some? ==> forall j :: TryBodies(s, t, k).value.0 < j <= k ==> LazyEnd(s, j).None?
    ensures TryBodies(s, t, k).None? ==> forall j :: t <= j <= k ==> LazyEnd(s, j).None?
    decreases k - t
  {
    if LazyEnd(s, k).None? && k != t {
      TryBodiesIsGreedy(s, t, k - 1);
    }
  }

  /** Every match the scanner finds is one of the pattern
      `(^|<br>)([-*]\s*)(.+?)(?=<br>|$)`: `$1` is the text start or a `<br>`,
      then a marker, then whitespace, then a non-empty run of `.` characters
      with no `<br>` after its first character, ending at a `<br>` or at the
      end of the text. */
  lemma MatchAtIsPatternMatch(s: string, p: nat)
    requires p <= |s| && MatchAt(s, p).Some?
    ensures var m := MatchAt(s, p).value;
      && ((p == 0 && m.marker == 0) || (BrAt(s, p) && m.marker == p + 4))
      && IsMarker(s[m.marker])
      && (forall j :: m.marker < j < m.body ==> IsSpace(s[j]))
      && (forall j :: m.body <= j < m.end ==> IsDot(s[j]))
      && (forall j :: m.body < j < m.end ==> !BrAt(s, j))
      && (m.end == |s| || BrAt(s, m.end))
  {
    var m := MatchAt(s, p).value;
    SpaceEndIsLongestRun(s, m.marker + 1);
    LazyEndIsShortest(s, m.body);
  }

  /** A whitespace run from `i` to `b` lies inside the greedy `\s*` run from `i`. */
  lemma {:induction false} SpaceEndCovers(s: string, i: nat, b: nat)
    requires i <= b <= |s|
    requires forall j :: i <= j < b ==> IsSpace(s[j])
    ensures b <= SpaceEnd(s, i)
    decreases b - i
  {
    if i < b {
      SpaceEndCovers(s, i + 1, b);
    }
  }

  /** The converse of `MatchAtIsPatternMatch`: wherever the pattern
      `(^|<br>)([-*]\s*)(.+?)(?=<br>|$)` can match from `p`, the scanner
      finds a match there. */
  lemma MatchAtComplete(s: string, p: nat, q: nat, b: nat, e: nat)
    requires p <= |s|
    requires (p == 0 && q == 0) || (BrAt(s, p) && q == p + 4)
    requires q < b < e <= |s| && IsMarker(s[q])
    requires forall j :: q < j < b ==> IsSpace(s[j])
    requires forall j :: b <= j < e ==> IsDot(s[j])
    requires forall j :: b < j < e ==> !BrAt(s, j)
    requires e == |s| || BrAt(s, e)
    ensures MatchAt(s, p).Some?
  {
    SpaceEndCovers(s, q + 1, b);
    SpaceEndIsLongestRun(s, q + 1);
    LazyEndFromReaches(s, b + 1, e);
    assert LazyEnd(s, b) == Some(e);
    TryBodiesIsGreedy(s, q + 1, SpaceEnd(s, q + 1));
  }

  /** Number of occurrences of `<br>` in `s` (they cannot overlap). */
  function CountBr(s: string): nat
  {
    if |s| < 4 then 0 else (if BrAt(s, 0) then 1 else 0) + CountBr(s[1..])
  }

  /** No `<br>` can straddle the seam between `x` and `y`. */
  predicate NoSpan(x: string, y: string)
  {
    x == [] || y == [] || x[|x| - 1] !in "<br" || y[0] !in "br>"
  }

  /** A piece that no `<br>` can straddle on either side. */
  predicate Insulated(m: string)
  {
    m != [] && m[0] !in "br>" && m[|m| - 1] !in "<br"
  }

  lemma {:induction false} CountBrConcat(x: string, y: string)
    requires NoSpan(x, y)
    ensures CountBr(x + y) == CountBr(x) + CountBr(y)
  {
    if x == [] {
      assert x + y == y;
    } else {
      assert (x + y)[1..] == x[1..] + y;
      CountBrConcat(x[1..], y);
    }
  }

  lemma CountBrAround(x: string, m: string, y: string)
    requires Insulated(m)
    ensures CountBr(x + m + y) == CountBr(x) + CountBr(m) + CountBr(y)
  {
    CountBrConcat(x, m);
    assert (x + m)[|x + m| - 1] == m[|m| - 1];
    CountBrConcat(x + m, y);
  }

  lemma {:induction false} NoAngleNoBr(s: string)
    requires forall i :: 0 <= i < |s| ==> s[i] != '<'
    ensures CountBr(s) == 0
  {
    if |s| >= 4 {
      NoAngleNoBr(s[1..]);
    }
  }

  /** Replacing newlines adds one `<br>` per newline, whatever precedes. */
  lemma {:induction false} CountBrReplaceNewlines(x: string, t: string)
    ensures CountBr(x + ReplaceNewlines(t)) == CountBr(x + t) + CountNewlines(t)
    decreases |t|
  {
    if t == [] {
      assert x + t == x;
      assert x + ReplaceNewlines(t) == x;
    } else {
      var h := if t[0] == '\n' then Br else [t[0]];
      ReplaceNewlinesStep(x, t, h);
      CountBrReplaceNewlines(x + h, t[1..]);
      if t[0] == '\n' {
        NewlineToBr(x, t[1..]);
      }
    }
  }

  lemma ReplaceNewlinesStep(x: string, t: string, h: string)
    requires t != [] && h == if t[0] == '\n' then Br else [t[0]]
    ensures x + ReplaceNewlines(t) == (x + h) + ReplaceNewlines(t[1..])
    ensures x + t == (x + [t[0]]) + t[1..]
  {
    assert ReplaceNewlines(t) == h + ReplaceNewlines(t[1..]);
    ConcatAssoc(x, h, ReplaceNewlines(t[1..]));
    assert t == [t[0]] + t[1..];
    ConcatAssoc(x, [t[0]], t[1..]);
  }

  /** One newline replaced by `<br>` adds exactly one `<br>`. */
  lemma NewlineToBr(x: string, y: string)
    ensures CountBr(x + Br + y) == CountBr(x + "\n" + y) + 1
  {
    CountBrAround(x, Br, y);
    CountBrAround(x, "\n", y);
  }

  /** Putting the bullet in place of a marker run keeps the number of `<br>`. */
  lemma ReplaceMarkKeepsBr(pre: string, mark: string, rest: string)
    requires Insulated(mark)
    requires forall i :: 0 <= i < |mark| ==> mark[i] != '<'
    ensures CountBr(pre + mark + rest) == CountBr(pre + Bullet + rest)
  {
    CountBrAround(pre, mark, rest);
    CountBrAround(pre, Bullet, rest);
    NoAngleNoBr(mark);
  }

  /** Replacing one match by `$1• $3` keeps the number of `<br>`. */
  lemma MatchKeepsBr(s: string, p: nat, m: Match, acc: string)
    requires p <= m.marker < m.body <= m.end <= |s|
    requires IsMarker(s[m.marker]) && forall j :: m.marker < j < m.body ==> IsSpace(s[j])
    ensures CountBr(acc + s[p..m.marker] + Bullet + s[m.body..m.end] + s[m.end..]) == CountBr(acc + s[p..])
  {
    var pre := acc + s[p..m.marker];
    var mark := s[m.marker..m.body];
    var rest := s[m.body..];
    assert acc + s[p..] == pre + mark + rest by {
      assert s[p..] == s[p..m.marker] + mark + rest;
    }
    assert acc + s[p..m.marker] + Bullet + s[m.body..m.end] + s[m.end..] == pre + Bullet + rest by {
      assert s[m.body..m.end] + s[m.end..] == rest;
    }
    assert Insulated(mark) && forall i :: 0 <= i < |mark| ==> mark[i] != '<' by {
      assert forall i :: 0 <= i < |mark| ==> IsMarker(mark[i]) || IsSpace(mark[i]);
    }
    ReplaceMarkKeepsBr(pre, mark, rest);
  }

  /** The bullet rewrite keeps the number of `<br>` in the output so far plus the rest of the input. */
  lemma {:induction false} CountBrBullets(s: string, p: nat, acc: string)
    requires p <= |s|
    ensures CountBr(Bullets(s, p, acc)) == CountBr(acc + s[p..])
    decreases |s| - p
  {
    if p == |s| {
      assert acc + s[p..] == acc;
    } else {
      match MatchAt(s, p)
      case Some(m) =>
        CountBrBullets(s, m.end, acc + s[p..m.marker] + Bullet + s[m.body..m.end]);
        MatchAtIsPatternMatch(s, p);
        MatchKeepsBr(s, p, m, acc);
      case None =>
        CountBrBullets(s, p + 1, acc + [s[p]]);
        assert (acc + [s[p]]) + s[p + 1..] == acc + s[p..];
    }
  }

  lemma {:induction false} ReplaceNewlinesNoNewline(t: string)
    ensures '\n' !in ReplaceNewlines(t)
  {
    if t != [] {
      ReplaceNewlinesNoNewline(t[1..]);
    }
  }

  lemma {:induction false} BulletsNoNewline(s: string, p: nat, acc: string)
    requires p <= |s|
    requires '\n' !in acc && '\n' !in s
    ensures '\n' !in Bullets(s, p, acc)
    decreases |s| - p
  {
    if p < |s| {
      match MatchAt(s, p)
      case Some(m) =>
        assert '\n' !in s[p..m.marker] && '\n' !in s[m.body..m.end];
        BulletsNoNewline(s, m.end, acc + s[p..m.marker] + Bullet + s[m.body..m.end]);
      case None =>
        BulletsNoNewline(s, p + 1, acc + [s[p]]);
    }
  }

  /** The formatted text contains no newline. */
  lemma FormatHasNoNewline(text: string)
    ensures '\n' !in FormatTextWithBullets(text)
  {
    if text != "" {
      ReplaceNewlinesNoNewline(text);
      BulletsNoNewline(ReplaceNewlines(text), 0, "");
    }
  }

  /** Each newline becomes exactly one `<br>`, and the bullet rewrite adds or removes none. */
  lemma FormatLineBreaks(text: string)
    ensures CountBr(FormatTextWithBullets(text)) == CountBr(text) + CountNewlines(text)
  {
    if text != "" {
      var s := ReplaceNewlines(text);
      CountBrBullets(s, 0, "");
      assert "" + s[0..] == s;
      CountBrReplaceNewlines("", text);
      assert "" + s == s && "" + text == text;
    }
  }

  // ---------------------------------------------------------------------
  // Segment by segment

  /** The text left after dropping leading `\s` characters. */
  function TrimSpaces(x: string): (r: string)
    ensures |r| <= |x|
  {
    if x != [] && IsSpace(x[0]) then TrimSpaces(x[1..]) else x
  }

  /** What the rewrite makes of one segment: a marker and the whitespace after it become `• `. */
  function BulletLine(seg: string): string
  {
    if seg != [] && IsMarker(seg[0]) then Bullet + TrimSpaces(seg[1..]) else seg
  }

  /** A segment the pattern treats on its own: when it starts with a marker, some
      text other than whitespace follows, and `.` matches all of that text. */
  predicate Regular(seg: string)
  {
    seg != [] && IsMarker(seg[0]) ==>
      var body := TrimSpaces(seg[1..]);
      body != [] && forall i :: 0 <= i < |body| ==> IsDot(body[i])
  }

  /** The first `<br>` at or after `i`, or the end of `s`. */
  function NextBr(s: string, i: nat): (j: nat)
    requires i <= |s|
    ensures i <= j <= |s| && (j == |s| || BrAt(s, j))
    ensures forall h :: i <= h < j ==> !BrAt(s, h)
    decreases |s| - i
  {
    if i == |s| || BrAt(s, i) then i else NextBr(s, i + 1)
  }

  /** The `<br>`-delimited segments of `s` from the segment that starts at `q` on. */
  function SegmentsFrom(s: string, q: nat): (segs: seq<string>)
    requires q <= |s|
    ensures segs != []
    decreases |s| - q
  {
    var e := NextBr(s, q);
    if e == |s| then [s[q..]] else [s[q..e]] + SegmentsFrom(s, e + 4)
  }

  function Segments(s: string): seq<string>
  {
    SegmentsFrom(s, 0)
  }

  function JoinBr(segs: seq<string>): string
    requires segs != []
  {
    if |segs| == 1 then segs[0] else segs[0] + Br + JoinBr(segs[1..])
  }

  function BulletLines(segs: seq<string>): (r: seq<string>)
    ensures |r| == |segs|
  {
    if segs == [] then [] else [BulletLine(segs[0])] + BulletLines(segs[1..])
  }

  lemma {:induction false} TrimSpacesSlice(s: string, i: nat, j: nat)
    requires i <= j <= |s|
    ensures TrimSpaces(s[i..j]) == (if SpaceEnd(s, i) < j then s[SpaceEnd(s, i)..j] else [])
    decreases j - i
  {
    if i < j && IsSpace(s[i]) {
      assert s[i..j][1..] == s[i + 1..j];
      TrimSpacesSlice(s, i + 1, j);
    }
  }

  lemma {:induction false} LazyEndFromReaches(s: string, e0: nat, e: nat)
    requires e0 <= e <= |s|
    requires e == |s| || BrAt(s, e)
    requires forall j :: e0 <= j < e ==> IsDot(s[j])
    requires forall j :: e0 <= j < e ==> !BrAt(s, j)
    ensures LazyEndFrom(s, e0) == Some(e)
    decreases e - e0
  {
    if e0 < e {
      LazyEndFromReaches(s, e0 + 1, e);
    }
  }

  /** Where no match can start, the scan copies the text unchanged. */
  lemma {:induction false} CopyRun(s: string, r: nat, e: nat, acc: string)
    requires r <= e <= |s|
    requires forall h :: r <= h < e ==> MatchAt(s, h).None?
    ensures Bullets(s, r, acc) == Bullets(s, e, acc + s[r..e])
    decreases e - r
  {
    if r == e {
      assert acc + s[r..e] == acc;
    } else {
      CopyRun(s, r + 1, e, acc + [s[r]]);
      assert acc + [s[r]] + s[r + 1..e] == acc + s[r..e];
    }
  }

  /** One step of the scan at a match. */
  lemma BulletsAtMatch(s: string, p: nat, m: Match, acc: string)
    requires p < |s| && MatchAt(s, p) == Some(m)
    ensures Bullets(s, p, acc) == Bullets(s, m.end, acc + s[p..m.marker] + Bullet + s[m.body..m.end])
  {
  }

  /** `.+?` from a non-space character of a regular segment runs to the segment's end. */
  lemma BodyRunsToSegmentEnd(s: string, q: nat, w: nat)
    requires q <= |s| && q < w < NextBr(s, q)
    requires forall j :: w <= j < NextBr(s, q) ==> IsDot(s[j])
    ensures LazyEnd(s, w) == Some(NextBr(s, q))
  {
    LazyEndFromReaches(s, w + 1, NextBr(s, q));
  }

  lemma DotsOfSlice(s: string, w: nat, e: nat, body: string)
    requires w <= e <= |s| && body == s[w..e]
    requires forall i :: 0 <= i < |body| ==> IsDot(body[i])
    ensures forall j :: w <= j < e ==> IsDot(s[j])
  {
    forall j | w <= j < e
      ensures IsDot(s[j])
    {
      assert s[j] == body[j - w];
    }
  }

  /** In a regular bulleted segment the greedy `\s*` stops before the segment's
      end, and what follows it is the segment's bulleted text, all matched by `.`. */
  lemma BulletSegmentBody(s: string, q: nat)
    requires q <= |s| && q < NextBr(s, q) && IsMarker(s[q]) && Regular(s[q..NextBr(s, q)])
    ensures SpaceEnd(s, q + 1) < NextBr(s, q)
    ensures forall j :: SpaceEnd(s, q + 1) <= j < NextBr(s, q) ==> IsDot(s[j])
    ensures BulletLine(s[q..NextBr(s, q)]) == Bullet + s[SpaceEnd(s, q + 1)..NextBr(s, q)]
  {
    var e := NextBr(s, q);
    var w := SpaceEnd(s, q + 1);
    var seg := s[q..e];
    var body := TrimSpaces(seg[1..]);
    assert body == s[w..e] && w < e by {
      assert seg[1..] == s[q + 1..e];
      TrimSpacesSlice(s, q + 1, e);
    }
    assert forall i :: 0 <= i < |body| ==> IsDot(body[i]);
    DotsOfSlice(s, w, e, body);
  }

  /** The match of a regular bulleted segment: the marker, the greedy `\s*`, and
      `.+?` up to the segment's end. */
  lemma BulletSegmentMatch(s: string, p: nat, q: nat, w: nat)
    requires q <= |s|
    requires (p == 0 && q == 0) || (BrAt(s, p) && q == p + 4)
    requires q < |s| && IsMarker(s[q]) && w == SpaceEnd(s, q + 1) && w < NextBr(s, q)
    requires forall j :: w <= j < NextBr(s, q) ==> IsDot(s[j])
    ensures MatchAt(s, p) == Some(Match(q, w, NextBr(s, q)))
  {
    var e := NextBr(s, q);
    BodyRunsToSegmentEnd(s, q, w);
    assert TryBodies(s, q + 1, w) == Some((w, e));
    assert MatchAfter(s, q) == Some(Match(q, w, e));
    if p == 0 && q != 0 {
      assert MatchAfter(s, 0) == None;
    }
  }

  /** A regular segment that starts with a marker is one match, replaced by the bullet and its text. */
  lemma BulletSegmentStep(s: string, p: nat, q: nat, acc: string)
    requires q <= |s|
    requires (p == 0 && q == 0) || (BrAt(s, p) && q == p + 4)
    requires q < NextBr(s, q) && IsMarker(s[q]) && Regular(s[q..NextBr(s, q)])
    ensures Bullets(s, p, acc) == Bullets(s, NextBr(s, q), acc + s[p..q] + BulletLine(s[q..NextBr(s, q)]))
  {
    var e := NextBr(s, q);
    var w := SpaceEnd(s, q + 1);
    BulletSegmentMatchesWhole(s, p, q);
    BulletsAtMatch(s, p, Match(q, w, e), acc);
    ConcatAssoc(acc + s[p..q], Bullet, s[w..e]);
  }

  /** The match of a regular bulleted segment covers it from the marker to its
      end, and its replacement is the segment's `BulletLine`. */
  lemma BulletSegmentMatchesWhole(s: string, p: nat, q: nat)
    requires q <= |s|
    requires (p == 0 && q == 0) || (BrAt(s, p) && q == p + 4)
    requires q < NextBr(s, q) && IsMarker(s[q]) && Regular(s[q..NextBr(s, q)])
    ensures SpaceEnd(s, q + 1) <= NextBr(s, q)
    ensures MatchAt(s, p) == Some(Match(q, SpaceEnd(s, q + 1), NextBr(s, q)))
    ensures BulletLine(s[q..NextBr(s, q)]) == Bullet + s[SpaceEnd(s, q + 1)..NextBr(s, q)]
  {
    BulletSegmentBody(s, q);
    BulletSegmentMatch(s, p, q, SpaceEnd(s, q + 1));
  }

  lemma ConcatAssoc(a: string, b: string, c: string)
    ensures a + b + c == a + (b + c)
  {
  }

  /** Any other segment holds no match and is copied as it stands. */
  lemma PlainSegmentStep(s: string, p: nat, q: nat, acc: string)
    requires q <= |s|
    requires (p == 0 && q == 0) || (BrAt(s, p) && q == p + 4)
    requires q == NextBr(s, q) || !IsMarker(s[q])
    ensures Bullets(s, p, acc) == Bullets(s, NextBr(s, q), acc + s[p..q] + BulletLine(s[q..NextBr(s, q)]))
  {
    var e := NextBr(s, q);
    forall h | p <= h < e
      ensures MatchAt(s, h).None?
    {
      NoMatchInPlainSegment(s, p, q, h);
    }
    CopyRun(s, p, e, acc);
    PlainLine(s, p, q, e, acc);
  }

  /** No match starts inside a segment that does not start with a marker, nor at its `$1`. */
  lemma NoMatchInPlainSegment(s: string, p: nat, q: nat, h: nat)
    requires q <= |s|
    requires (p == 0 && q == 0) || (BrAt(s, p) && q == p + 4)
    requires q == NextBr(s, q) || !IsMarker(s[q])
    requires p <= h < NextBr(s, q)
    ensures MatchAt(s, h).None?
  {
    if h < q {
      assert h == p || !BrAt(s, h);
    }
  }

  lemma PlainLine(s: string, p: nat, q: nat, e: nat, acc: string)
    requires p <= q <= e <= |s|
    requires q == e || !IsMarker(s[q])
    ensures acc + s[p..q] + BulletLine(s[q..e]) == acc + s[p..e]
  {
    assert s[p..e] == s[p..q] + s[q..e];
  }

  /** From the start `p` of a segment's `$1` (the text start, or a `<br>` whose
      segment starts at `q`), a regular segment comes out as its `BulletLine`
      and the scan resumes at the next `<br>`. */
  lemma SegmentStep(s: string, p: nat, q: nat, acc: string)
    requires q <= |s|
    requires (p == 0 && q == 0) || (BrAt(s, p) && q == p + 4)
    requires Regular(s[q..NextBr(s, q)])
    ensures Bullets(s, p, acc) == Bullets(s, NextBr(s, q), acc + s[p..q] + BulletLine(s[q..NextBr(s, q)]))
  {
    if q < NextBr(s, q) && IsMarker(s[q]) {
      BulletSegmentStep(s, p, q, acc);
    } else {
      PlainSegmentStep(s, p, q, acc);
    }
  }

  /** Unfolding the segment list once: the first segment, then the rest after its `<br>`. */
  lemma SegmentsUnfold(s: string, q: nat)
    requires q <= |s|
    ensures NextBr(s, q) == |s| ==>
      && SegmentsFrom(s, q) == [s[q..]]
      && JoinBr(BulletLines(SegmentsFrom(s, q))) == BulletLine(s[q..])
    ensures NextBr(s, q) < |s| ==>
      && SegmentsFrom(s, q) == [s[q..NextBr(s, q)]] + SegmentsFrom(s, NextBr(s, q) + 4)
      && JoinBr(BulletLines(SegmentsFrom(s, q)))
         == BulletLine(s[q..NextBr(s, q)]) + Br + JoinBr(BulletLines(SegmentsFrom(s, NextBr(s, q) + 4)))
  {
    var e := NextBr(s, q);
    var segs := SegmentsFrom(s, q);
    if e == |s| {
      assert BulletLines(segs) == [BulletLine(s[q..])];
    } else {
      var rest := SegmentsFrom(s, e + 4);
      assert segs[1..] == rest;
      assert BulletLines(segs)[1..] == BulletLines(rest);
    }
  }

  lemma BrSlice(s: string, e: nat)
    requires BrAt(s, e)
    ensures s[e..e + 4] == Br
  {
  }

  /** The last segment: the scan ends with its bulleted form. */
  lemma LastSegment(s: string, p: nat, q: nat, acc: string)
    requires q <= |s| && NextBr(s, q) == |s|
    requires (p == 0 && q == 0) || (BrAt(s, p) && q == p + 4)
    requires Regular(s[q..NextBr(s, q)])
    ensures Bullets(s, p, acc) == acc + s[p..q] + JoinBr(BulletLines(SegmentsFrom(s, q)))
  {
    SegmentStep(s, p, q, acc);
    SegmentsUnfold(s, q);
    assert s[q..NextBr(s, q)] == s[q..];
    BulletsAtEnd(s, acc + s[p..q] + BulletLine(s[q..]));
  }

  lemma BulletsAtEnd(s: string, acc: string)
    ensures Bullets(s, |s|, acc) == acc
  {
  }

  /** A segment followed by `<br>`: its bulleted form, the `<br>`, then whatever the rest gives. */
  lemma InnerSegment(s: string, p: nat, q: nat, e: nat, acc: string, tail: string)
    requires q <= |s| && e == NextBr(s, q) && e < |s|
    requires (p == 0 && q == 0) || (BrAt(s, p) && q == p + 4)
    requires Regular(s[q..e])
    requires tail == JoinBr(BulletLines(SegmentsFrom(s, e + 4)))
    requires Bullets(s, e, acc + s[p..q] + BulletLine(s[q..e])) == acc + s[p..q] + BulletLine(s[q..e]) + s[e..e + 4] + tail
    ensures Bullets(s, p, acc) == acc + s[p..q] + JoinBr(BulletLines(SegmentsFrom(s, q)))
  {
    SegmentStep(s, p, q, acc);
    InnerSegmentJoin(s, q, e, acc + s[p..q], tail, Bullets(s, p, acc));
  }

  /** The output around an inner segment, regrouped as the joined segments from `q` on. */
  lemma InnerSegmentJoin(s: string, q: nat, e: nat, pre: string, tail: string, out: string)
    requires q <= |s| && e == NextBr(s, q) && e < |s|
    requires tail == JoinBr(BulletLines(SegmentsFrom(s, e + 4)))
    requires out == pre + BulletLine(s[q..e]) + s[e..e + 4] + tail
    ensures out == pre + JoinBr(BulletLines(SegmentsFrom(s, q)))
  {
    JoinInnerSegment(s, q);
    BrSlice(s, e);
    JoinAfterLine(out, pre, BulletLine(s[q..e]), s[e..e + 4], tail, JoinBr(BulletLines(SegmentsFrom(s, q))));
  }

  lemma JoinInnerSegment(s: string, q: nat)
    requires q <= |s| && NextBr(s, q) < |s|
    ensures JoinBr(BulletLines(SegmentsFrom(s, q)))
      == BulletLine(s[q..NextBr(s, q)]) + Br + JoinBr(BulletLines(SegmentsFrom(s, NextBr(s, q) + 4)))
  {
    SegmentsUnfold(s, q);
  }

  /** The output of the scan written as the text before the segment, then the joined segments. */
  lemma JoinAfterLine(out: string, pre: string, line: string, br: string, tail: string, joined: string)
    requires out == pre + line + br + tail
    requires br == Br && joined == line + Br + tail
    ensures out == pre + joined
  {
  }

  /** Every segment in the list is regular. */
  predicate AllRegular(segs: seq<string>)
  {
    forall i :: 0 <= i < |segs| ==> Regular(segs[i])
  }

  lemma FirstRegular(s: string, q: nat)
    requires q <= |s| && AllRegular(SegmentsFrom(s, q))
    ensures Regular(s[q..NextBr(s, q)])
  {
    SegmentsUnfold(s, q);
    assert SegmentsFrom(s, q)[0] == s[q..NextBr(s, q)];
  }

  /** Every segment after the first is regular when all are. */
  lemma RestRegular(s: string, q: nat)
    requires q <= |s| && NextBr(s, q) < |s|
    requires AllRegular(SegmentsFrom(s, q))
    ensures AllRegular(SegmentsFrom(s, NextBr(s, q) + 4))
  {
    SegmentsFromInner(s, q);
    var rest := SegmentsFrom(s, NextBr(s, q) + 4);
    assert forall i :: 0 <= i < |rest| ==> rest[i] == SegmentsFrom(s, q)[i + 1];
  }

  /** From the `$1` of the segment at `q` on, the scan gives each remaining
      segment's `BulletLine`, the `<br>` between them kept. */
  lemma {:induction false} SegmentsBulleted(s: string, p: nat, q: nat, acc: string)
    requires q <= |s|
    requires (p == 0 && q == 0) || (BrAt(s, p) && q == p + 4)
    requires AllRegular(SegmentsFrom(s, q))
    ensures Bullets(s, p, acc) == acc + s[p..q] + JoinBr(BulletLines(SegmentsFrom(s, q)))
    decreases |s| - q, 1
  {
    if NextBr(s, q) == |s| {
      FirstRegular(s, q);
      LastSegment(s, p, q, acc);
    } else {
      SegmentsBulletedInner(s, p, q, acc);
    }
  }

  lemma {:induction false} SegmentsBulletedInner(s: string, p: nat, q: nat, acc: string)
    requires q <= |s| && NextBr(s, q) < |s|
    requires (p == 0 && q == 0) || (BrAt(s, p) && q == p + 4)
    requires AllRegular(SegmentsFrom(s, q))
    ensures Bullets(s, p, acc) == acc + s[p..q] + JoinBr(BulletLines(SegmentsFrom(s, q)))
    decreases |s| - q, 0
  {
    var e := NextBr(s, q);
    FirstRegular(s, q);
    RestRegular(s, q);
    SegmentsBulleted(s, e, e + 4, acc + s[p..q] + BulletLine(s[q..e]));
    InnerSegment(s, p, q, e, acc, JoinBr(BulletLines(SegmentsFrom(s, e + 4))));
  }

  /** When every segment is regular, the rewrite is `BulletLine` applied to
      each `<br>`-delimited segment, the `<br>` between them kept. */
  lemma BulletsBySegment(s: string)
    requires forall i :: 0 <= i < |Segments(s)| ==> Regular(Segments(s)[i])
    ensures Bullets(s, 0, "") == JoinBr(BulletLines(Segments(s)))
  {
    assert Segments(s) == SegmentsFrom(s, 0);
    assert AllRegular(SegmentsFrom(s, 0));
    SegmentsBulleted(s, 0, 0, "");
    assert "" + s[0..0] + JoinBr(BulletLines(Segments(s))) == JoinBr(BulletLines(Segments(s)));
  }

  // ---------------------------------------------------------------------
  // Line by line

  /** Lines as the text area holds them: joined by newlines. */
  function JoinLines(lines: seq<string>): string
    requires lines != []
  {
    if |lines| == 1 then lines[0] else lines[0] + "\n" + JoinLines(lines[1..])
  }

  lemma {:induction false} ReplaceNewlinesConcat(x: string, y: string)
    ensures ReplaceNewlines(x + y) == ReplaceNewlines(x) + ReplaceNewlines(y)
    decreases |x|
  {
    if x != [] {
      assert (x + y)[1..] == x[1..] + y;
      ReplaceNewlinesConcat(x[1..], y);
    } else {
      assert x + y == y;
    }
  }

  /** Joined lines with no newline of their own come out joined by `<br>`. */
  lemma {:induction false} ReplaceNewlinesJoin(lines: seq<string>)
    requires lines != []
    requires forall i :: 0 <= i < |lines| ==> '\n' !in lines[i]
    ensures ReplaceNewlines(JoinLines(lines)) == JoinBr(lines)
    decreases |lines|
  {
    ReplaceNewlinesWithoutNewline(lines[0]);
    if |lines| > 1 {
      ReplaceNewlinesJoin(lines[1..]);
      ReplaceNewlinesConcat(lines[0], "\n" + JoinLines(lines[1..]));
      ReplaceNewlinesConcat("\n", JoinLines(lines[1..]));
      assert ReplaceNewlines("\n") == Br;
      assert lines[0] + "\n" + JoinLines(lines[1..]) == lines[0] + ("\n" + JoinLines(lines[1..]));
    }
  }

  /** Where no `<` occurs before the next `<br>` or the end, that is where the segment ends. */
  lemma {:induction false} NextBrAt(s: string, q: nat, e: nat)
    requires q <= e <= |s| && (e == |s| || BrAt(s, e))
    requires forall j :: q <= j < e ==> s[j] != '<'
    ensures NextBr(s, q) == e
    decreases e - q
  {
    if q < e {
      NextBrAt(s, q + 1, e);
    }
  }

  /** A `<br>`-joined text whose lines hold no `<` splits back into those lines. */
  lemma {:induction false} SegmentsOfJoin(s: string, q: nat, lines: seq<string>)
    requires q <= |s| && lines != [] && s[q..] == JoinBr(lines)
    requires forall i :: 0 <= i < |lines| ==> '<' !in lines[i]
    ensures SegmentsFrom(s, q) == lines
    decreases |lines|
  {
    if |lines| == 1 {
      assert s[q..|s|] == lines[0];
      NoAngleUpTo(s, q, |s|, lines[0]);
      NextBrAt(s, q, |s|);
      SegmentsFromLast(s, q);
    } else {
      var e := JoinFirstLine(s, q, lines);
      assert forall i :: 0 <= i < |lines[1..]| ==> lines[1..][i] == lines[i + 1];
      SegmentsOfJoin(s, e + 4, lines[1..]);
      SegmentsFromInner(s, q);
      assert lines == [lines[0]] + lines[1..];
    }
  }

  lemma NoAngleUpTo(s: string, q: nat, e: nat, line: string)
    requires q <= e <= |s| && s[q..e] == line && '<' !in line
    ensures forall j :: q <= j < e ==> s[j] != '<'
  {
    assert forall j :: q <= j < e ==> s[j] == line[j - q];
  }

  /** The first line of a `<br>`-joined text ends at its first `<br>`. */
  lemma JoinFirstLine(s: string, q: nat, lines: seq<string>) returns (e: nat)
    requires q <= |s| && |lines| > 1 && s[q..] == JoinBr(lines) && '<' !in lines[0]
    ensures e == NextBr(s, q) && e < |s| && s[q..e] == lines[0] && s[e + 4..] == JoinBr(lines[1..])
  {
    e := q + |lines[0]|;
    var rest := JoinBr(lines[1..]);
    assert s[q..] == lines[0] + Br + rest;
    assert s[q..e] == lines[0];
    assert s[e..e + 4] == Br;
    NoAngleUpTo(s, q, e, lines[0]);
    NextBrAt(s, q, e);
    assert s[e + 4..] == rest;
  }

  lemma SegmentsFromLast(s: string, q: nat)
    requires q <= |s| && NextBr(s, q) == |s|
    ensures SegmentsFrom(s, q) == [s[q..]]
  {
  }

  lemma SegmentsFromInner(s: string, q: nat)
    requires q <= |s| && NextBr(s, q) < |s|
    ensures SegmentsFrom(s, q) == [s[q..NextBr(s, q)]] + SegmentsFrom(s, NextBr(s, q) + 4)
  {
  }

  /** Lines without `<` whose bulleted lines all have text after the marker are
      formatted line by line: each bulleted line loses its marker and the
      whitespace after it to `• `, the others are kept, and the lines are
      joined by `<br>`. */
  lemma FormatLines(lines: seq<string>)
    requires lines != []
    requires forall i :: 0 <= i < |lines| ==> '\n' !in lines[i] && '<' !in lines[i]
    requires forall i :: 0 <= i < |lines| ==> Regular(lines[i])
    ensures FormatTextWithBullets(JoinLines(lines)) == JoinBr(BulletLines(lines))
  {
    var text := JoinLines(lines);
    ReplaceNewlinesJoin(lines);
    var s := ReplaceNewlines(text);
    assert s[0..] == s;
    SegmentsOfJoin(s, 0, lines);
    assert Segments(s) == lines;
    if text == "" {
      assert |lines| == 1 && lines[0] == "";
    } else {
      BulletsBySegment(s);
    }
  }

  // ---------------------------------------------------------------------
  // Text with no bulleted segment

  /** `q` is where a `<br>`-delimited segment of `s` starts. */
  predicate SegmentStart(s: string, q: int)
  {
    q == 0 || BrAt(s, q - 4)
  }

  /** No segment of `s` starts with `-` or `*`. */
  predicate NoBulletStart(s: string)
  {
    forall q :: 0 <= q < |s| && SegmentStart(s, q) ==> !IsMarker(s[q])
  }

  lemma NoMatchWithoutBulletStart(s: string, h: nat)
    requires h <= |s| && NoBulletStart(s)
    ensures MatchAt(s, h).None?
  {
    if h == 0 && MatchAfter(s, 0).Some? {
      assert SegmentStart(s, 0);
    } else if BrAt(s, h) && MatchAfter(s, h + 4).Some? {
      assert SegmentStart(s, h + 4);
    }
  }

  lemma {:induction false} ReplaceNewlinesWithoutNewline(t: string)
    requires '\n' !in t
    ensures ReplaceNewlines(t) == t
  {
    if t != [] {
      ReplaceNewlinesWithoutNewline(t[1..]);
    }
  }

  /** Text none of whose segments starts with a marker only has its newlines
      replaced, and formatting it twice gives what formatting it once gives. */
  lemma FormatIdempotent(text: string)
    requires NoBulletStart(ReplaceNewlines(text))
    ensures FormatTextWithBullets(text) == ReplaceNewlines(text)
    ensures FormatTextWithBullets(FormatTextWithBullets(text)) == FormatTextWithBullets(text)
  {
    if text != "" {
      var s := ReplaceNewlines(text);
      forall h | 0 <= h < |s|
        ensures MatchAt(s, h).None?
      {
        NoMatchWithoutBulletStart(s, h);
      }
      CopyRun(s, 0, |s|, "");
      assert "" + s[0..|s|] == s;
      ReplaceNewlinesNoNewline(text);
      ReplaceNewlinesWithoutNewline(s);
    }
  }

  // ---------------------------------------------------------------------
  // The pattern as written, on inputs where it does not work line by line

  /** A bare marker line has no character for `.+?` before the next `<br>`, so
      the match runs on through the following line, which is then not bulleted. */
  lemma BareMarkerSwallowsNextLine()
    ensures FormatTextWithBullets("-\n-x") == "\U{2022} <br>-x"
  {
    var s := "-<br>-x";
    assert ReplaceNewlines("-\n-x") == s;
    assert SpaceEnd(s, 1) == 1;
    assert LazyEndFrom(s, 7) == Some(7);
    assert LazyEndFrom(s, 2) == Some(7);
    assert MatchAt(s, 0) == Some(Match(0, 1, 7));
  }

  /** A marker followed only by whitespace swallows the next line too: `\s*`
      stops at the `<br>`, which `.+?` then takes as its first characters. */
  lemma SpaceMarkerSwallowsNextLine()
    ensures FormatTextWithBullets("- \n-x") == "\U{2022} <br>-x"
  {
    SpaceMarkerNewline("- \n-x", "- <br>-x");
    SpaceMarkerScan("- <br>-x", "\U{2022} <br>-x");
  }

  lemma SpaceMarkerNewline(t: string, s: string)
    requires t == "- \n-x" && s == "- <br>-x"
    ensures ReplaceNewlines(t) == s
  {
    assert t[1..][1..] == "\n-x";
    assert ReplaceNewlines("\n-x") == Br + ReplaceNewlines("-x");
  }

  lemma SpaceMarkerMatch(s: string)
    requires s == "- <br>-x"
    ensures MatchAt(s, 0) == Some(Match(0, 2, 8))
  {
    assert SpaceEnd(s, 2) == 2;
    assert SpaceEnd(s, 1) == 2;
    LazyEndFromReaches(s, 3, 8);
    assert LazyEnd(s, 2) == Some(8);
  }

  lemma SpaceMarkerScan(s: string, r: string)
    requires s == "- <br>-x" && r == "\U{2022} <br>-x"
    ensures Bullets(s, 0, "") == r
  {
    SpaceMarkerMatch(s);
    BulletsAtMatch(s, 0, Match(0, 2, 8), "");
    BulletsAtEnd(s, "" + s[0..0] + Bullet + s[2..8]);
    assert "" + s[0..0] + Bullet + s[2..8] == r;
  }

  /** A marker followed only by whitespace at the end of the text: `\s*` gives
      back its last character, which `.+?` then keeps after the bullet. */
  lemma TrailingSpaceKept()
    ensures FormatTextWithBullets("- ") == "\U{2022}  "
  {
    var s := "- ";
    assert ReplaceNewlines("- ") == s;
    assert SpaceEnd(s, 1) == 2;
    assert LazyEnd(s, 2) == None;
    assert LazyEnd(s, 1) == Some(2);
    assert MatchAt(s, 0) == Some(Match(0, 1, 2));
  }

  /** The match in a regular bulleted line: marker, two spaces, then the text to its end. */
  lemma BulletedLineMatch(s: string)
    requires s == "*  Led team"
    ensures MatchAt(s, 0) == Some(Match(0, 3, |s|))
  {
    assert SpaceEnd(s, 3) == 3;
    assert SpaceEnd(s, 1) == 3;
    assert forall j :: 4 <= j < |s| ==> !BrAt(s, j);
    LazyEndFromReaches(s, 4, |s|);
    assert LazyEnd(s, 3) == Some(|s|);
  }

  /** A regular bulleted line: marker and spaces become the bullet, the rest is kept. */
  lemma BulletedLine()
    ensures FormatTextWithBullets("*  Led team") == "\U{2022} Led team"
  {
    BulletedLineFormat("*  Led team", "\U{2022} Led team");
  }

  lemma BulletedLineFormat(s: string, r: string)
    requires s == "*  Led team" && r == "\U{2022} Led team"
    ensures FormatTextWithBullets(s) == r
  {
    ReplaceNewlinesWithoutNewline(s);
    BulletedLineScan(s, r);
  }

  lemma BulletedLineScan(s: string, r: string)
    requires s == "*  Led team" && r == "\U{2022} Led team"
    ensures Bullets(s, 0, "") == r
  {
    BulletedLineMatch(s);
    BulletsAtMatch(s, 0, Match(0, 3, |s|), "");
    BulletsAtEnd(s, "" + s[0..0] + Bullet + s[3..|s|]);
    assert "" + s[0..0] + Bullet + s[3..|s|] == r;
  }
}
