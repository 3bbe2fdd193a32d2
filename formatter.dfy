/** The text formatter of the resume builder (`formatTextWithBullets`).
    Every newline of the text becomes `<br>`; then the global replacement
    `/(^|<br>)([-*]\s*)(.+?)(?=<br>|$)/g` -> `$1• $3` rewrites each
    `<br>`-delimited segment that starts with `-` or `*`.  The regular
    expression is modelled by a dedicated scanner that follows the
    engine's order of attempts: `^` before `<br>`, the greedy `\s*` given
    back one character at a time, the lazy `.+?` grown one character at a
    time, and a new search started where the previous match ended. */
module Formatter {
  import opened Wrappers

  /** The line break the formatter writes for every newline. */
  const Br: string := "<br>"

  /** What replaces a list marker and the whitespace after it. */
  const Bullet: string := "\U{2022} "

  predicate IsMarker(c: char)
  {
    c == '-' || c == '*'
  }

  /** The characters of the class `\s`: white space and line terminators. */
  predicate IsSpace(c: char)
  {
    || c == '\t' || c == '\n' || c == '\U{B}' || c == '\U{C}' || c == '\r' || c == ' '
    || c == '\U{A0}' || c == '\U{1680}' || ('\U{2000}' <= c <= '\U{200A}')
    || c == '\U{2028}' || c == '\U{2029}' || c == '\U{202F}' || c == '\U{205F}'
    || c == '\U{3000}' || c == '\U{FEFF}'
  }

  predicate IsLineTerminator(c: char)
  {
    c == '\n' || c == '\r' || c == '\U{2028}' || c == '\U{2029}'
  }

  /** The characters `.` matches (the pattern has no `s` flag). */
  predicate IsDot(c: char)
  {
    !IsLineTerminator(c)
  }

  /** `<br>` occurs in `s` at position `i`. */
  predicate BrAt(s: string, i: int)
  {
    0 <= i && i + 4 <= |s| && s[i] == '<' && s[i + 1] == 'b' && s[i + 2] == 'r' && s[i + 3] == '>'
  }

  /** Number of newlines in `t`. */
  function CountNewlines(t: string): nat
  {
    if t == [] then 0 else (if t[0] == '\n' then 1 else 0) + CountNewlines(t[1..])
  }

  /** `text.replace(/\n/g, '<br>')`: each newline becomes the four characters of `<br>`. */
  function ReplaceNewlines(t: string): (r: string)
    ensures |r| == |t| + 3 * CountNewlines(t)
  {
    if t == [] then [] else (if t[0] == '\n' then Br else [t[0]]) + ReplaceNewlines(t[1..])
  }

  /** End of the longest run of `\s` characters that starts at `i` (the greedy `\s*`). */
  function SpaceEnd(s: string, i: nat): (w: nat)
    requires i <= |s|
    ensures i <= w <= |s|
    decreases |s| - i
  {
    if i < |s| && IsSpace(s[i]) then SpaceEnd(s, i + 1) else i
  }

  /** The lazy `.+?` followed by `(?=<br>|$)`, with the characters before `e`
      already matched: the first end at or after `e` where the lookahead holds,
      unless a character `.` refuses comes first. */
  function LazyEndFrom(s: string, e: nat): (r: Option<nat>)
    requires e <= |s|
    ensures r.Some? ==> e <= r.value <= |s|
    decreases |s| - e
  {
    if e == |s| || BrAt(s, e) then Some(e)
    else if IsDot(s[e]) then LazyEndFrom(s, e + 1)
    else None
  }

  /** The lazy `.+?` started at `k`: at least one character, then as few as the lookahead allows. */
  function LazyEnd(s: string, k: nat): (r: Option<nat>)
    requires k <= |s|
    ensures r.Some? ==> k < r.value <= |s|
  {
    if k < |s| && IsDot(s[k]) then LazyEndFrom(s, k + 1) else None
  }

  /** Backtracking into `\s*`: the body `.+?` is tried from `k` and, while it
      fails, from one character earlier, down to `t`, the first position after
      the marker.  The result is the body start and the match end. */
  function TryBodies(s: string, t: nat, k: nat): (r: Option<(nat, nat)>)
    requires t <= k <= |s|
    ensures r.Some? ==> t <= r.value.0 <= k && LazyEnd(s, r.value.0) == Some(r.value.1)
    decreases k - t
  {
    match LazyEnd(s, k)
    case Some(e) => Some((k, e))
    case None => if k == t then None else TryBodies(s, t, k - 1)
  }

  /** One match of the pattern: the marker `[-*]` is at `marker`, `$3` is
      `s[body..end]`, and the whitespace between is dropped. */
  datatype Match = Match(marker: nat, body: nat, end: nat)

  /** The match whose `$1` ends at `q`, if the rest of the pattern can follow. */
  function MatchAfter(s: string, q: nat): (r: Option<Match>)
    requires q <= |s|
    ensures r.Some? ==> r.value.marker == q < r.value.body < r.value.end <= |s|
  {
    if q < |s| && IsMarker(s[q]) then
      match TryBodies(s, q + 1, SpaceEnd(s, q + 1))
      case Some((k, e)) => Some(Match(q, k, e))
      case None => None
    else None
  }

  /** The match starting at `p`: `(^|<br>)` tries `^` first and `<br>` second. */
  function MatchAt(s: string, p: nat): (r: Option<Match>)
    requires p <= |s|
    ensures r.Some? ==> p <= r.value.marker < r.value.body < r.value.end <= |s|
  {
    if p == 0 && MatchAfter(s, 0).Some? then MatchAfter(s, 0)
    else if BrAt(s, p) then MatchAfter(s, p + 4)
    else None
  }

  /** The global replacement from position `p` on, with the output so far in
      `acc`: a match is replaced by `$1• $3` and the search resumes at its end;
      otherwise one character is copied and the search moves on by one. */
  function Bullets(s: string, p: nat, acc: string): (r: string)
    requires p <= |s|
    ensures |acc| <= |r| && r[..|acc|] == acc
    decreases |s| - p
  {
    if p == |s| then acc
    else match MatchAt(s, p)
      case Some(m) => Bullets(s, m.end, acc + s[p..m.marker] + Bullet + s[m.body..m.end])
      case None => Bullets(s, p + 1, acc + [s[p]])
  }

  /** `formatTextWithBullets`: an empty text gives the empty string. */
  function FormatTextWithBullets(text: string): (r: string)
    ensures text == "" ==> r == ""
  {
    if text == "" then "" else Bullets(ReplaceNewlines(text), 0, "")
  }
}
