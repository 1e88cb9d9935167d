/**
 * The parts of Python's `str` behaviour the core relies on: which characters
 * count as whitespace and as line boundaries, `strip()`, `splitlines()` and
 * single-character `replace()`.
 */
module Text {

  /** A line boundary as `str.splitlines()` recognises it. */
  predicate IsLineBreak(c: char) {
    || c == '\n' || c == '\r' || c == '\U{000B}' || c == '\U{000C}'
    || c == '\U{001C}' || c == '\U{001D}' || c == '\U{001E}'
    || c == '\U{0085}' || c == '\U{2028}' || c == '\U{2029}'
  }

  /** A whitespace character as `str.isspace()` (and so `str.strip()`) recognises it. */
  predicate IsSpace(c: char) {
    || IsLineBreak(c)
    || c == ' ' || c == '\t' || c == '\U{001F}' || c == '\U{00A0}' || c == '\U{1680}'
    || ('\U{2000}' <= c <= '\U{200A}')
    || c == '\U{202F}' || c == '\U{205F}' || c == '\U{3000}'
  }

  /** `s` consists of whitespace only (the empty string included). */
  predicate AllSpace(s: string) {
    forall c | c in s :: IsSpace(c)
  }

  /** Where `str.lstrip()` cuts: the first non-whitespace position at or after `from`,
      or `|s|` when there is none. */
  function SkipSpaces(s: string, from: nat): (k: nat)
    requires from <= |s|
    ensures from <= k <= |s|
    ensures k < |s| ==> !IsSpace(s[k])
    ensures forall i :: from <= i < k ==> IsSpace(s[i])
    decreases |s| - from
  {
    if from < |s| && IsSpace(s[from]) then SkipSpaces(s, from + 1) else from
  }

  /** Where `str.rstrip()` cuts: the end of the last non-whitespace character before
      `to`, or 0 when there is none. */
  function SkipSpacesBack(s: string, to: nat): (k: nat)
    requires to <= |s|
    ensures k <= to
    ensures 0 < k ==> !IsSpace(s[k - 1])
    ensures forall i :: k <= i < to ==> IsSpace(s[i])
  {
    if 0 < to && IsSpace(s[to - 1]) then SkipSpacesBack(s, to - 1) else to
  }

  /** `str.strip()`: the part of `s` between its leading and its trailing whitespace.
      What is cut off on either side is whitespace, and what is kept neither starts
      nor ends with whitespace. */
  function Strip(s: string): (r: string)
    ensures r == [] || (!IsSpace(r[0]) && !IsSpace(r[|r| - 1]))
    ensures exists a, b :: 0 <= a <= b <= |s| && r == s[a..b] && AllSpace(s[..a]) && AllSpace(s[b..])
  {
    var a := SkipSpaces(s, 0);
    var b := SkipSpacesBack(s, |s|);
    if b <= a then
      assert s[..|s|] == s && AllSpace(s[|s|..]) && s[|s|..|s|] == [] && AllSpace(s[..|s|]) by {
        forall c | c in s[..|s|] ensures IsSpace(c) {
          var i :| 0 <= i < |s| && s[i] == c;
          assert i < a || b <= i;
        }
      }
      []
    else
      assert AllSpace(s[..a]) && AllSpace(s[b..]) by {
        forall c | c in s[..a] ensures IsSpace(c) {
          var i :| 0 <= i < a && s[..a][i] == c;
        }
        forall c | c in s[b..] ensures IsSpace(c) {
          var i :| 0 <= i < |s| - b && s[b..][i] == c;
          assert s[b + i] == c;
        }
      }
      s[a..b]
  }

  /** `str.strip()` leaves nothing exactly when the string is all whitespace. */
  lemma StripEmpty(s: string)
    ensures Strip(s) == [] <==> AllSpace(s)
  {
    var a, b :| 0 <= a <= b <= |s| && Strip(s) == s[a..b] && AllSpace(s[..a]) && AllSpace(s[b..]);
    if Strip(s) == [] {
      assert s == s[..a] + s[b..];
    } else {
      assert Strip(s)[0] == s[a];
    }
  }

  /** Index of the first line boundary in `s`, or `|s|` when there is none. */
  function LineEnd(s: string): (k: nat)
    ensures k <= |s|
    ensures forall i :: 0 <= i < k ==> !IsLineBreak(s[i])
    ensures k < |s| ==> IsLineBreak(s[k])
  {
    if s == [] || IsLineBreak(s[0]) then 0 else 1 + LineEnd(s[1..])
  }

  /** Where the next line starts after the boundary at `k`: "\r\n" is one boundary. */
  function NextLine(s: string, k: nat): (next: nat)
    requires k < |s| && IsLineBreak(s[k])
    ensures k < next <= |s| && IsBoundary(s[k..next])
  {
    if s[k] == '\r' && k + 1 < |s| && s[k + 1] == '\n' then k + 2 else k + 1
  }

  /**
   * `str.splitlines()`: the text between line boundaries, where "\r\n" is one
   * boundary and a boundary at the very end opens no further (empty) line.
   * No line holds a boundary, and every character of a line comes from `s`.
   */
  function SplitLines(s: string): (lines: seq<string>)
    ensures forall l | l in lines :: forall c | c in l :: c in s && !IsLineBreak(c)
    decreases |s|
  {
    if s == [] then []
    else
      var k := LineEnd(s);
      if k == |s| then [s]
      else
        var next := NextLine(s, k);
        var rest := SplitLines(s[next..]);
        assert forall l | l in rest :: forall c | c in l :: c in s by {
          forall l, c | l in rest && c in l ensures c in s {
            assert c in s[next..];
          }
        }
        [s[..k]] + rest
  }

  /** A line boundary as `splitlines` cuts it: one break character, or "\r\n". */
  predicate IsBoundary(e: string) {
    e == "\r\n" || (|e| == 1 && IsLineBreak(e[0]))
  }

  /** The boundary `splitlines` cut after each line of `SplitLines(s)`; "" after a
      last line that runs to the end of the text. */
  function LineEnds(s: string): (ends: seq<string>)
    ensures forall i :: 0 <= i < |ends| ==> IsBoundary(ends[i]) || (ends[i] == "" && i == |ends| - 1)
    decreases |s|
  {
    if s == [] then []
    else
      var k := LineEnd(s);
      if k == |s| then [""]
      else
        var next := NextLine(s, k);
        [s[k..next]] + LineEnds(s[next..])
  }

  /** Each line followed by its boundary, all concatenated. */
  function Interleave(lines: seq<string>, ends: seq<string>): string
    requires |lines| == |ends|
  {
    if lines == [] then [] else lines[0] + ends[0] + Interleave(lines[1..], ends[1..])
  }

  /** Putting back the first line and its boundary in front of the rejoined rest. */
  lemma RejoinStep(s: string, k: nat, next: nat, lines: seq<string>, ends: seq<string>)
    requires k <= next <= |s| && |lines| == |ends|
    requires Interleave(lines, ends) == s[next..]
    ensures Interleave([s[..k]] + lines, [s[k..next]] + ends) == s
  {
    var head, boundary := s[..k], s[k..next];
    assert ([head] + lines)[1..] == lines;
    assert ([boundary] + ends)[1..] == ends;
    assert Interleave([head] + lines, [boundary] + ends) == head + boundary + s[next..];
    assert s[..next] == head + boundary;
    assert s == s[..next] + s[next..];
  }

  /** `splitlines` loses no text: putting each boundary back after its line gives the
      original string. */
  lemma {:induction false} SplitLinesRejoin(s: string)
    ensures |SplitLines(s)| == |LineEnds(s)|
    ensures Interleave(SplitLines(s), LineEnds(s)) == s
    decreases |s|
  {
    if s != [] {
      var k := LineEnd(s);
      if k < |s| {
        var next := NextLine(s, k);
        SplitLinesRejoin(s[next..]);
        RejoinStep(s, k, next, SplitLines(s[next..]), LineEnds(s[next..]));
      }
    }
  }

  /** `s.replace(from, to)` for a one-character `from`. */
  function ReplaceChar(s: string, from: char, to: char): (r: string)
    ensures |r| == |s|
    ensures forall i :: 0 <= i < |s| ==> r[i] == (if s[i] == from then to else s[i])
  {
    seq(|s|, i requires 0 <= i < |s| => if s[i] == from then to else s[i])
  }
}
