/**
 * `parse_recipients`: turns the free-text recipient field of the campaign form
 * into a list of addresses. Commas, semicolons and line breaks all separate
 * entries; each entry is stripped of surrounding whitespace; empty entries and
 * repeats are dropped, and the first occurrence of each address fixes its place.
 */
module Recipients {
  import opened Text

  /** The separators, in the order the source rewrites them to "\n". */
  const Separators: seq<char> := [',', '\n', ';']

  /** Rewrites each separator in `seps`, one after another, to a line feed. */
  function ReplaceAll(s: string, seps: seq<char>): (r: string)
    ensures |r| == |s|
    ensures forall i :: 0 <= i < |s| ==> r[i] == (if s[i] in seps then '\n' else s[i])
  {
    if seps == [] then s
    else ReplaceChar(ReplaceAll(s, seps[..|seps| - 1]), seps[|seps| - 1], '\n')
  }

  /** The text after the separator rewriting. */
  function Normalized(raw: string): string {
    ReplaceAll(raw, Separators)
  }

  /** The stripped entries, one per line of the normalized text, empty ones included. */
  function Pieces(lines: seq<string>): (p: seq<string>)
    ensures |p| == |lines|
    ensures forall k :: 0 <= k < |lines| ==> p[k] == Strip(lines[k])
  {
    if lines == [] then []
    else Pieces(lines[..|lines| - 1]) + [Strip(lines[|lines| - 1])]
  }

  /**
   * The list the source's line loop builds from `lines`: an entry is appended when
   * its stripped form is non-empty and not already listed. It holds only
   * non-empty stripped entries of `lines`, each once.
   */
  function Collect(lines: seq<string>): (r: seq<string>)
    ensures forall e | e in r :: e != "" && e in Pieces(lines)
    ensures forall i, j :: 0 <= i < j < |r| ==> r[i] != r[j]
  {
    if lines == [] then []
    else
      var init := lines[..|lines| - 1];
      var acc := Collect(init);
      var email := Strip(lines[|lines| - 1]);
      assert Pieces(lines) == Pieces(init) + [email];
      if email != "" && email !in acc then acc + [email] else acc
  }

  /** What `parse_recipients(raw)` returns. */
  function ParsedRecipients(raw: string): seq<string> {
    if raw == "" then [] else Collect(SplitLines(Normalized(raw)))
  }

  /** The stripped lines of the normalized text, in order; the candidates for the result. */
  function Entries(raw: string): seq<string> {
    Pieces(SplitLines(Normalized(raw)))
  }

  /** The source's loops: rewrite the separators, split into lines, keep each new stripped entry. */
  method ParseRecipients(raw: string) returns (recipients: seq<string>)
    ensures recipients == ParsedRecipients(raw)
    ensures forall e | e in recipients :: e != "" && e in Entries(raw)
    ensures forall i, j :: 0 <= i < j < |recipients| ==> recipients[i] != recipients[j]
  {
    recipients := [];
    if raw == "" {
      return;
    }
    var temp := raw;
    for s := 0 to |Separators|
      invariant temp == ReplaceAll(raw, Separators[..s])
    {
      assert Separators[..s + 1][..s] == Separators[..s];
      temp := ReplaceChar(temp, Separators[s], '\n');
    }
    assert Separators[..|Separators|] == Separators;
    var lines := SplitLines(temp);
    for i := 0 to |lines|
      invariant recipients == Collect(lines[..i])
    {
      assert lines[..i + 1][..i] == lines[..i];
      var email := Strip(lines[i]);
      if email != "" && email !in recipients {
        recipients := recipients + [email];
      }
    }
    assert lines[..|lines|] == lines;
    assert Entries(raw) == Pieces(lines);
  }

  /** Empty input gives the empty list. */
  lemma EmptyInput()
    ensures ParsedRecipients("") == []
  {
  }

  /** Position of the first occurrence of `x` in `s`. */
  function FirstIndex(s: seq<string>, x: string): (k: nat)
    requires x in s
    ensures k < |s| && s[k] == x
    ensures forall m :: 0 <= m < k ==> s[m] != x
  {
    if s[0] == x then 0 else 1 + FirstIndex(s[1..], x)
  }

  lemma FirstIndexOfPrefix(s: seq<string>, n: nat, x: string)
    requires n <= |s| && x in s[..n]
    ensures FirstIndex(s, x) == FirstIndex(s[..n], x)
  {
    var a := FirstIndex(s, x);
    var b := FirstIndex(s[..n], x);
    assert s[b] == x;
    assert a <= b;
    assert s[..n][a] == x;
  }

  /** Every non-empty stripped line is listed. */
  lemma {:induction false} CollectComplete(lines: seq<string>)
    ensures Covers(Collect(lines), Pieces(lines))
  {
    if lines != [] {
      var init := lines[..|lines| - 1];
      CollectComplete(init);
      assert Pieces(lines) == Pieces(init) + [Strip(lines[|lines| - 1])];
    }
  }

  /** `r` lists elements of `p` in the order in which they first occur in `p`. */
  ghost predicate InFirstOccurrenceOrder(r: seq<string>, p: seq<string>) {
    forall i, j :: 0 <= i < j < |r| ==> r[i] in p && r[j] in p && FirstIndex(p, r[i]) < FirstIndex(p, r[j])
  }

  /** Every non-empty element of `p` is listed in `r`. */
  ghost predicate Covers(r: seq<string>, p: seq<string>) {
    forall e | e in p && e != "" :: e in r
  }

  /** Entries are listed in the order of their first occurrence among the stripped lines. */
  lemma {:induction false} CollectOrder(lines: seq<string>)
    ensures InFirstOccurrenceOrder(Collect(lines), Pieces(lines))
  {
    if lines != [] {
      var init := lines[..|lines| - 1];
      var last := lines[|lines| - 1];
      CollectOrder(init);
      CollectComplete(init);
      CollectOrderStep(init, last);
      assert lines == init + [last];
    }
  }

  /** The step of `CollectOrder`: one more line at the end. */
  lemma CollectOrderStep(init: seq<string>, last: string)
    requires InFirstOccurrenceOrder(Collect(init), Pieces(init))
    requires Covers(Collect(init), Pieces(init))
    ensures InFirstOccurrenceOrder(Collect(init + [last]), Pieces(init + [last]))
  {
    var lines := init + [last];
    var acc := Collect(init);
    assert lines[..|lines| - 1] == init;
    PiecesAppend(init, last);
    KeepsFirstIndices(acc, Pieces(init), Strip(last));
    var email := Strip(last);
    if email != "" && email !in acc {
      assert email !in Pieces(init);
      FirstIndexOfNew(Pieces(init), email);
      AppendKeepsOrder(acc, Pieces(init), email);
    } else {
      assert Collect(lines) == acc;
    }
  }

  /** Stripping one more line adds one piece at the end. */
  lemma PiecesAppend(init: seq<string>, last: string)
    ensures Pieces(init + [last]) == Pieces(init) + [Strip(last)]
  {
    assert (init + [last])[..|init|] == init;
  }

  /** Extending `p` at the end keeps the first positions of what `r` lists. */
  lemma KeepsFirstIndices(r: seq<string>, p: seq<string>, x: string)
    requires InFirstOccurrenceOrder(r, p)
    requires forall e | e in r :: e in p
    ensures InFirstOccurrenceOrder(r, p + [x])
    ensures forall e | e in r :: FirstIndex(p + [x], e) == FirstIndex(p, e) < |p|
  {
    forall e | e in r ensures FirstIndex(p + [x], e) == FirstIndex(p, e) < |p| {
      assert (p + [x])[..|p|] == p;
      FirstIndexOfPrefix(p + [x], |p|, e);
    }
    forall i, j | 0 <= i < j < |r|
      ensures r[i] in p + [x] && r[j] in p + [x] && FirstIndex(p + [x], r[i]) < FirstIndex(p + [x], r[j])
    {
      assert r[i] in r && r[j] in r;
    }
  }

  /** An element new to `p` first occurs in `p + [x]` at the end. */
  lemma FirstIndexOfNew(p: seq<string>, x: string)
    requires x !in p
    ensures FirstIndex(p + [x], x) == |p|
  {
    forall i | 0 <= i < |p| ensures (p + [x])[i] != x {
      assert (p + [x])[i] == p[i];
    }
  }

  /** Appending the element whose first occurrence is last keeps the order. */
  lemma AppendKeepsOrder(r: seq<string>, p: seq<string>, x: string)
    requires x !in p
    requires InFirstOccurrenceOrder(r, p + [x])
    requires forall e | e in r :: e in p && FirstIndex(p + [x], e) < |p|
    requires FirstIndex(p + [x], x) == |p|
    ensures InFirstOccurrenceOrder(r + [x], p + [x])
  {
    var q := p + [x];
    var s := r + [x];
    forall i, j | 0 <= i < j < |s|
      ensures s[i] in q && s[j] in q && FirstIndex(q, s[i]) < FirstIndex(q, s[j])
    {
      assert s[i] == r[i] && r[i] in r;
      if j < |r| {
        assert s[j] == r[j];
      }
    }
  }

  /** No entry of the normalized text holds a separator or line break. */
  lemma EntryChars(raw: string)
    ensures forall e | e in Entries(raw) :: forall c | c in e :: c != ',' && c != ';' && !IsLineBreak(c)
  {
    var norm := Normalized(raw);
    var lines := SplitLines(norm);
    forall e, c | e in Entries(raw) && c in e
      ensures c != ',' && c != ';' && !IsLineBreak(c)
    {
      var k :| 0 <= k < |lines| && Pieces(lines)[k] == e;
      assert lines[k] in lines;
      assert c in lines[k];
      var m :| 0 <= m < |norm| && norm[m] == c;
    }
  }

  /**
   * Every address `parse_recipients` returns is non-empty, carries no surrounding
   * whitespace and no comma, semicolon or line break, and occurs once.
   */
  lemma ParsedRecipientsWellFormed(raw: string)
    ensures var r := ParsedRecipients(raw);
      && (forall e | e in r ::
            && e != ""
            && !IsSpace(e[0]) && !IsSpace(e[|e| - 1])
            && forall c | c in e :: c != ',' && c != ';' && !IsLineBreak(c))
      && (forall i, j :: 0 <= i < j < |r| ==> r[i] != r[j])
  {
    var lines := SplitLines(Normalized(raw));
    if raw != "" {
      assert ParsedRecipients(raw) == Collect(lines);
      assert Entries(raw) == Pieces(lines);
      EntryChars(raw);
      forall e | e in ParsedRecipients(raw)
        ensures e != "" && !IsSpace(e[0]) && !IsSpace(e[|e| - 1])
      {
        var k :| 0 <= k < |lines| && Pieces(lines)[k] == e;
      }
    }
  }

  /** Every non-empty stripped entry of the input is returned (once, by the lemma above). */
  lemma ParsedRecipientsComplete(raw: string)
    ensures forall e | e in Entries(raw) && e != "" :: e in ParsedRecipients(raw)
  {
    if raw != "" {
      CollectComplete(SplitLines(Normalized(raw)));
    }
  }

  /** Addresses come in the order of their first occurrence in the input. */
  lemma ParsedRecipientsOrdered(raw: string)
    ensures InFirstOccurrenceOrder(ParsedRecipients(raw), Entries(raw))
  {
    var lines := SplitLines(Normalized(raw));
    var r := ParsedRecipients(raw);
    if raw != "" {
      assert r == Collect(lines);
      assert Entries(raw) == Pieces(lines);
      CollectOrder(lines);
    }
  }
}
