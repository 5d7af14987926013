/** log.jsonl as text (src/log.py): `append` writes the JSON of an entry and a newline, `_read_verified_entries` cuts
    the text with `splitlines`, which knows more line breaks than the newline. */
module LogText {
  import opened Common

  /** Where `str.splitlines` cuts. A carriage return and newline count as two breaks here; the empty line between
      them is skipped like any other. */
  predicate IsBreak(ch: char) {
    || '\n' <= ch <= '\r'
    || '\U{1C}' <= ch <= '\U{1E}'
    || ch == '\U{85}' || ch == '\U{2028}' || ch == '\U{2029}'
  }

  /** What `str.strip` takes off the ends. */
  predicate IsSpace(ch: char) {
    || '\t' <= ch <= '\r'
    || '\U{1C}' <= ch <= ' '
    || ch == '\U{85}' || ch == '\U{A0}' || ch == '\U{1680}'
    || '\U{2000}' <= ch <= '\U{200A}'
    || ch == '\U{2028}' || ch == '\U{2029}' || ch == '\U{202F}' || ch == '\U{205F}' || ch == '\U{3000}'
  }

  function FirstBreak(s: string): (k: nat)
    ensures k <= |s| && (k < |s| ==> IsBreak(s[k]))
    ensures forall i :: 0 <= i < k ==> !IsBreak(s[i])
  {
    if s == "" || IsBreak(s[0]) then 0 else FirstBreak(s[1..]) + 1
  }

  predicate OneLine(s: string) { forall i :: 0 <= i < |s| ==> !IsBreak(s[i]) }

  /** `s.splitlines()`. */
  function Lines(s: string): seq<string>
    decreases |s|
  {
    var k := FirstBreak(s);
    if s == "" then [] else if k == |s| then [s] else [s[..k]] + Lines(s[k + 1..])
  }

  function Strip(s: string): string
    decreases |s|
  {
    if s == "" then ""
    else if IsSpace(s[0]) then Strip(s[1..])
    else StripRight(s)
  }

  function StripRight(s: string): string
    decreases |s|
  {
    if s == "" || !IsSpace(s[|s| - 1]) then s else StripRight(s[..|s| - 1])
  }

  // ------------------------------------------------------------------ entries

  /** The JSON library: what an entry is written as, and what a line is read as. */
  datatype Codec<!E> = Codec(text: E -> string, parse: string -> Option<E>)

  /** What is taken for granted about it: an entry reads back; its text is an object, with control characters
      escaped; and an object that is cut short is not JSON. */
  ghost predicate JsonText<E(!new)>(j: Codec<E>) {
    && (forall e :: j.parse(j.text(e)) == Some(e))
    && (forall e :: |j.text(e)| >= 2 && j.text(e)[0] == '{' && j.text(e)[|j.text(e)| - 1] == '}')
    && (forall e, i :: 0 <= i < |j.text(e)| ==> j.text(e)[i] >= ' ')
    && (forall e, k :: 0 < k < |j.text(e)| ==> j.parse(j.text(e)[..k]) == None)
  }

  /** The entries of some lines, or None when a line that is not blank is no entry. */
  function Parsed<E>(j: Codec<E>, lines: seq<string>): Option<seq<E>>
    decreases |lines|
  {
    if lines == [] then Some([]) else ParseNext(j, Parsed(j, lines[..|lines| - 1]), lines[|lines| - 1])
  }

  function ParseNext<E>(j: Codec<E>, before: Option<seq<E>>, line: string): Option<seq<E>> {
    var stripped := Strip(line);
    if before.None? || stripped == "" then before
    else if j.parse(stripped).None? then None
    else Some(before.value + [j.parse(stripped).value])
  }

  /** What a load reads from the file. */
  function Read<E>(j: Codec<E>, s: string): Option<seq<E>> { Parsed(j, Lines(s)) }

  /** What `append` adds to the file. */
  function Written<E>(j: Codec<E>, e: E): string { j.text(e) + "\n" }

  function Text<E>(j: Codec<E>, entries: seq<E>): string
    decreases |entries|
  {
    if entries == [] then "" else Text(j, entries[..|entries| - 1]) + Written(j, entries[|entries| - 1])
  }

  ghost predicate AllOneLine<E(!new)>(j: Codec<E>, entries: seq<E>) {
    forall e :: e in entries ==> OneLine(j.text(e))
  }

  /** None of the three line breaks that JSON writes as they are. */
  predicate Unbroken(s: string) { '\U{85}' !in s && '\U{2028}' !in s && '\U{2029}' !in s }

  ghost predicate NoneBroken<E(!new)>(j: Codec<E>, entries: seq<E>) {
    forall e :: e in entries ==> Unbroken(j.text(e))
  }

  // -------------------------------------------------------------------- lines

  /** The file ends with a whole line. */
  predicate Complete(s: string) { s == "" || IsBreak(s[|s| - 1]) }

  lemma FirstBreakIs(s: string, k: nat)
    requires k <= |s| && (k < |s| ==> IsBreak(s[k]))
    requires forall i :: 0 <= i < k ==> !IsBreak(s[i])
    ensures FirstBreak(s) == k
  {
    assert FirstBreak(s) >= k;
  }

  /** Whole lines are cut off first, whatever follows them. */
  lemma {:induction false} LinesAppend(a: string, b: string)
    requires Complete(a)
    ensures Lines(a + b) == Lines(a) + Lines(b)
    decreases |a|
  {
    if a == "" {
      assert a + b == b;
    } else {
      var k := FirstBreak(a);
      assert k < |a|;
      assert (a + b)[..k] == a[..k];
      FirstBreakIs(a + b, k);
      assert (a + b)[k + 1..] == a[k + 1..] + b;
      LinesAppend(a[k + 1..], b);
      ConcatAssoc([a[..k]], Lines(a[k + 1..]), Lines(b));
    }
  }

  /** Each of ten characters ends a line. */
  lemma CutAt(line: string, ch: char, rest: string)
    requires OneLine(line)
    requires ch in "\n\r\U{0B}\U{0C}\U{1C}\U{1D}\U{1E}\U{85}\U{2028}\U{2029}"
    ensures Lines(line + [ch] + rest) == [line] + Lines(rest)
  {
    var s := line + [ch] + rest;
    FirstBreakIs(s, |line|);
    assert s[..|line|] == line && s[|line| + 1..] == rest;
  }

  /** A text that is one line comes back whole. */
  lemma LinesOfOne(t: string)
    requires t != "" && OneLine(t)
    ensures Lines(t + "\n") == [t]
  {
    var s := t + "\n";
    FirstBreakIs(s, |t|);
    assert s[..|t|] == t && s[|t| + 1..] == "";
    assert [t] + [] == [t];
  }

  /** A text that is not comes back cut at its first break. */
  lemma LinesOfCut(t: string) returns (more: seq<string>)
    requires t != "" && !OneLine(t)
    ensures FirstBreak(t) < |t| && Lines(t + "\n") == [t[..FirstBreak(t)]] + more
  {
    var s, k := t + "\n", FirstBreak(t);
    var i :| 0 <= i < |t| && IsBreak(t[i]);
    assert k <= i;
    FirstBreakIs(s, k);
    assert s[..k] == t[..k];
    more := Lines(s[k + 1..]);
  }

  lemma {:induction false} ParsedAppend<E>(j: Codec<E>, a: seq<string>, b: seq<string>)
    ensures Parsed(j, a + b) ==
      if Parsed(j, a).Some? && Parsed(j, b).Some? then Some(Parsed(j, a).value + Parsed(j, b).value) else None
    decreases |b|
  {
    if b == [] {
      assert a + b == a;
      assert Parsed(j, a).Some? ==> Parsed(j, a).value + [] == Parsed(j, a).value;
    } else {
      var init, last := b[..|b| - 1], b[|b| - 1];
      assert (a + b)[..|a + b| - 1] == a + init;
      ParsedAppend(j, a, init);
      var stripped := Strip(last);
      if Parsed(j, a).Some? && Parsed(j, init).Some? && stripped != "" && j.parse(stripped).Some? {
        ConcatAssoc(Parsed(j, a).value, Parsed(j, init).value, [j.parse(stripped).value]);
      }
    }
  }

  lemma UnparsableLine<E>(j: Codec<E>, lines: seq<string>, i: nat)
    requires i < |lines| && Strip(lines[i]) != "" && j.parse(Strip(lines[i])).None?
    ensures Parsed(j, lines).None?
  {
    ParsedAppend(j, lines[..i + 1], lines[i + 1..]);
    assert lines[..i + 1] + lines[i + 1..] == lines;
    assert lines[..i + 1][..i] == lines[..i];
  }

  lemma ParsedOne<E>(j: Codec<E>, line: string)
    ensures Parsed(j, [line]) == ParseNext(j, Some([]), line)
  {
    assert [line][..0] == [];
  }

  lemma {:induction false} StripRightIsPrefix(s: string)
    requires s != "" && !IsSpace(s[0])
    ensures exists k :: 0 < k <= |s| && StripRight(s) == s[..k]
    decreases |s|
  {
    if IsSpace(s[|s| - 1]) {
      StripRightIsPrefix(s[..|s| - 1]);
      var k :| 0 < k <= |s| - 1 && StripRight(s) == s[..|s| - 1][..k];
      assert s[..|s| - 1][..k] == s[..k];
    } else {
      assert s[..|s|] == s;
    }
  }

  /** The part of an entry's text before a cut is a line that is no entry. */
  lemma CutIsNoEntry<E(!new)>(j: Codec<E>, e: E, k: nat)
    requires JsonText(j) && 0 < k < |j.text(e)|
    ensures Parsed(j, [j.text(e)[..k]]) == None
  {
    var part := j.text(e)[..k];
    assert part[0] == '{';
    StripRightIsPrefix(part);
    var m :| 0 < m <= |part| && StripRight(part) == part[..m];
    assert part[..m] == j.text(e)[..m];
    ParsedOne(j, part);
  }

  ghost predicate Blank(s: string) { forall i :: 0 <= i < |s| ==> IsSpace(s[i]) }

  lemma {:induction false} StripRightPadded(t: string, after: string)
    requires Blank(after) && t != "" && !IsSpace(t[|t| - 1])
    ensures StripRight(t + after) == t
    decreases |after|
  {
    if after == "" {
      assert t + after == t;
    } else {
      StripRightPadded(t, after[..|after| - 1]);
      assert (t + after)[..|t + after| - 1] == t + after[..|after| - 1];
    }
  }

  /** Padding is taken off both ends and nothing else; a blank line is left empty. */
  lemma {:induction false} StripIs(before: string, t: string, after: string)
    requires Blank(before) && Blank(after)
    requires t == "" || (!IsSpace(t[0]) && !IsSpace(t[|t| - 1]))
    ensures Strip(before + t + after) == t
    decreases |before| + |after|
  {
    var s := before + t + after;
    if before != "" {
      StripIs(before[1..], t, after);
      assert s[1..] == before[1..] + t + after;
    } else if t != "" {
      StripRightPadded(t, after);
      assert s == t + after;
    } else if after != "" {
      StripIs("", "", after[1..]);
      assert s == after && "" + "" + after[1..] == s[1..];
    }
  }

  // ------------------------------------------------------------------ results

  /** Whole lines and what follows them are read independently. */
  lemma ReadAppend<E>(j: Codec<E>, a: string, b: string)
    requires Complete(a)
    ensures Read(j, a + b) ==
      if Read(j, a).Some? && Read(j, b).Some? then Some(Read(j, a).value + Read(j, b).value) else None
  {
    LinesAppend(a, b);
    ParsedAppend(j, Lines(a), Lines(b));
  }

  lemma ReadWritten<E(!new)>(j: Codec<E>, e: E)
    requires JsonText(j)
    ensures Read(j, Written(j, e)) == if OneLine(j.text(e)) then Some([e]) else None
  {
    var t := j.text(e);
    if OneLine(t) {
      ReadOne(j, e);
    } else {
      var more := LinesOfCut(t);
      CutIsNoEntry(j, e, FirstBreak(t));
      ParsedAppend(j, [t[..FirstBreak(t)]], more);
    }
  }

  lemma ReadOne<E(!new)>(j: Codec<E>, e: E)
    requires JsonText(j) && OneLine(j.text(e))
    ensures Read(j, Written(j, e)) == Some([e])
  {
    var t := j.text(e);
    LinesOfOne(t);
    ParsedOne(j, t);
    assert !IsSpace(t[0]) && !IsSpace(t[|t| - 1]);
    assert Strip(t) == t && [] + [e] == [e];
  }

  /** Appending an entry to whole lines adds the entry if its text is one line, and makes the file unreadable if it
      is not. */
  lemma ReadAppended<E(!new)>(j: Codec<E>, file: string, e: E)
    requires JsonText(j) && Complete(file)
    ensures Complete(file + Written(j, e))
    ensures Read(j, file + Written(j, e)) ==
      if Read(j, file).Some? && OneLine(j.text(e)) then Some(Read(j, file).value + [e]) else None
  {
    ReadAppend(j, file, Written(j, e));
    ReadWritten(j, e);
  }

  /** No later append repairs a file that cannot be read. */
  lemma UnreadableForGood<E>(j: Codec<E>, file: string, more: string)
    requires Complete(file) && Read(j, file).None?
    ensures Read(j, file + more).None?
  {
    ReadAppend(j, file, more);
  }

  /** A file of appended entries reads back as those entries if and only if each text is one line, and is
      unreadable otherwise. */
  lemma {:induction false} TextReadsBackIff<E(!new)>(j: Codec<E>, entries: seq<E>)
    requires JsonText(j)
    ensures Complete(Text(j, entries))
    ensures Read(j, Text(j, entries)) == if AllOneLine(j, entries) then Some(entries) else None
    decreases |entries|
  {
    if entries != [] {
      var init, last := entries[..|entries| - 1], entries[|entries| - 1];
      TextReadsBackIff(j, init);
      ReadAppended(j, Text(j, init), last);
      assert entries == init + [last];
      assert AllOneLine(j, entries) <==> AllOneLine(j, init) && OneLine(j.text(last));
    }
  }

  /** With control characters escaped, three characters are left that break a line. */
  lemma BreaksLeft<E(!new)>(j: Codec<E>, e: E)
    requires JsonText(j)
    ensures OneLine(j.text(e)) <==> Unbroken(j.text(e))
  {
    var t := j.text(e);
    assert forall i :: 0 <= i < |t| ==> t[i] >= ' ';
  }
}
