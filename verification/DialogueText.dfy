/** The first parsing pass: from text to numbered lines to raw entries, and both passes together. */
module DialogueText {
  import opened Dialogue
  import DialogueLoader

  /** The tokenizer of one line, given its number counted from one. */
  type Tokenizer = (nat, Text) -> RawEntry

  const NEWLINE := '\n'

  function FindFirst(text: Text, c: char): (pos: nat)
    ensures pos <= |text| && c !in text[..pos] && (pos < |text| ==> text[pos] == c)
  {
    if text == "" || text[0] == c then 0 else 1 + FindFirst(text[1..], c)
  }

  /** What is left after the first delimiter, or nothing. */
  function AfterFirst(text: Text, c: char): (rest: Text)
    ensures text != "" ==> |rest| < |text|
  {
    var pos := FindFirst(text, c);
    if pos == |text| then "" else text[pos + 1..]
  }

  function Lines(text: Text): seq<Text>
    decreases |text|
  {
    if text == "" then [] else [text[..FindFirst(text, NEWLINE)]] + Lines(AfterFirst(text, NEWLINE))
  }

  /** strtok_view with a single delimiter. */
  method StrtokView(remaining: Text, delim: char) returns (token: Text, rest: Text)
    ensures token == remaining[..FindFirst(remaining, delim)] && rest == AfterFirst(remaining, delim)
  {
    var pos := 0;
    while pos < |remaining| && remaining[pos] != delim
      invariant pos <= |remaining| && delim !in remaining[..pos]
    {
      pos := pos + 1;
    }
    FirstIsUnique(remaining, delim, pos);
    if pos == |remaining| {
      return remaining[..pos], "";
    }
    token, rest := remaining[..pos], remaining[pos + 1..];
  }

  lemma {:induction false} FirstIsUnique(text: Text, c: char, pos: nat)
    requires pos <= |text| && c !in text[..pos] && (pos < |text| ==> text[pos] == c)
    ensures FindFirst(text, c) == pos
  {
    if pos > 0 {
      assert text[0] == text[..pos][0];
      assert text[1..][..pos - 1] == text[1..pos] == text[..pos][1..];
      FirstIsUnique(text[1..], c, pos - 1);
    }
  }

  // ----- Nothing of the text is lost -----

  function Unlines(lines: seq<Text>): Text {
    if lines == [] then "" else lines[0] + [NEWLINE] + Unlines(lines[1..])
  }

  lemma {:induction false} LinesHaveNoNewline(text: Text)
    ensures forall i :: 0 <= i < |Lines(text)| ==> NEWLINE !in Lines(text)[i]
    decreases |text|
  {
    if text != "" {
      LinesHaveNoNewline(AfterFirst(text, NEWLINE));
    }
  }

  /** The text, with a newline after its last line if there was none. */
  function Terminated(text: Text): Text {
    if text == "" || text[|text| - 1] == NEWLINE then text else text + [NEWLINE]
  }

  lemma TerminateRest(head: Text, rest: Text)
    ensures Terminated(head + [NEWLINE] + rest) == head + [NEWLINE] + Terminated(rest)
  {
    var text := head + [NEWLINE] + rest;
    if rest == "" {
      assert text == head + [NEWLINE];
    } else {
      assert text[|text| - 1] == rest[|rest| - 1];
      assert text + [NEWLINE] == head + [NEWLINE] + (rest + [NEWLINE]);
    }
  }

  lemma FirstLine(text: Text)
    requires text != ""
    ensures Terminated(text) == text[..FindFirst(text, NEWLINE)] + [NEWLINE] + Terminated(AfterFirst(text, NEWLINE))
  {
    var pos := FindFirst(text, NEWLINE);
    if pos < |text| {
      SplitAt(text, pos);
      TerminateRest(text[..pos], text[pos + 1..]);
    } else {
      LastInPrefix(text);
      assert text[..pos] + [NEWLINE] + "" == text + [NEWLINE];
    }
  }

  lemma SplitAt(text: Text, pos: nat)
    requires pos < |text|
    ensures text == text[..pos] + [text[pos]] + text[pos + 1..]
  {
  }

  lemma LastInPrefix(text: Text)
    requires text != ""
    ensures text[|text| - 1] in text[..|text|] && text[..|text|] == text
  {
    assert text[..|text|][|text| - 1] == text[|text| - 1];
  }

  /** The lines put together are the text, up to a final newline. */
  lemma {:induction false} LinesMakeText(text: Text)
    ensures Unlines(Lines(text)) == Terminated(text)
    decreases |text|
  {
    if text != "" {
      FirstLine(text);
      LinesMakeText(AfterFirst(text, NEWLINE));
    }
  }

  lemma {:induction false} UnlinesTellsLines(a: seq<Text>, b: seq<Text>)
    requires (forall i :: 0 <= i < |a| ==> NEWLINE !in a[i]) && (forall i :: 0 <= i < |b| ==> NEWLINE !in b[i])
    requires Unlines(a) == Unlines(b)
    ensures a == b
    decreases |a|
  {
    if a != [] && b != [] {
      var text := Unlines(a);
      FirstOfUnlines(a);
      FirstOfUnlines(b);
      assert a[0] == text[..|a[0]|] == b[0];
      assert Unlines(a[1..]) == text[|a[0]| + 1..] == Unlines(b[1..]);
      UnlinesTellsLines(a[1..], b[1..]);
      assert a == [a[0]] + a[1..] && b == [b[0]] + b[1..];
    }
  }

  lemma FirstOfUnlines(lines: seq<Text>)
    requires lines != [] && NEWLINE !in lines[0]
    ensures var text := Unlines(lines);
      && |lines[0]| < |text| && FindFirst(text, NEWLINE) == |lines[0]|
      && text[..|lines[0]|] == lines[0] && text[|lines[0]| + 1..] == Unlines(lines[1..])
  {
    var text := Unlines(lines);
    assert text[..|lines[0]|] == lines[0];
    FirstIsUnique(text, NEWLINE, |lines[0]|);
  }

  /** There is no other way to put the text together from pieces without newlines. */
  lemma LinesAreUnique(text: Text, lines: seq<Text>)
    requires (forall i :: 0 <= i < |lines| ==> NEWLINE !in lines[i]) && Unlines(lines) == Terminated(text)
    ensures lines == Lines(text)
  {
    LinesHaveNoNewline(text);
    LinesMakeText(text);
    UnlinesTellsLines(lines, Lines(text));
  }

  // ----- The first pass -----

  predicate SomeInvalid(fromLine: Tokenizer, lines: seq<Text>) {
    exists i :: 0 <= i < |lines| && fromLine(i + 1, lines[i]).kind.Invalid?
  }

  /** The entries of all lines but the blank ones. */
  function Kept(fromLine: Tokenizer, lines: seq<Text>): seq<RawEntry> {
    if lines == [] then []
    else
      var n := |lines| - 1;
      var most, entry := Kept(fromLine, lines[..n]), fromLine(n + 1, lines[n]);
      if entry.kind.Whitespace? then most else most + [entry]
  }

  function FirstPass(fromLine: Tokenizer, text: Text): seq<RawEntry> {
    if SomeInvalid(fromLine, Lines(text)) then [] else Kept(fromLine, Lines(text))
  }

  lemma KeptOneMore(fromLine: Tokenizer, lines: seq<Text>, n: nat)
    requires n < |lines|
    ensures Kept(fromLine, lines[..n + 1]) ==
      var most, entry := Kept(fromLine, lines[..n]), fromLine(n + 1, lines[n]);
      if entry.kind.Whitespace? then most else most + [entry]
  {
    assert lines[..n + 1][..n] == lines[..n];
  }

  lemma NextLine(all: seq<Text>, parser: Text, done: nat)
    requires done <= |all| && all[done..] == Lines(parser) && parser != ""
    ensures done < |all| && all[done] == parser[..FindFirst(parser, NEWLINE)]
    ensures all[done + 1..] == Lines(AfterFirst(parser, NEWLINE))
  {
    var line, rest := parser[..FindFirst(parser, NEWLINE)], Lines(AfterFirst(parser, NEWLINE));
    assert Lines(parser) == [line] + rest;
    assert all[done] == all[done..][0] && all[done + 1..] == all[done..][1..];
  }

  method FirstPassParse(fromLine: Tokenizer, rawText: Text) returns (entries: seq<RawEntry>)
    ensures entries == FirstPass(fromLine, rawText)
  {
    entries := [];
    var lineNumber := 0;
    var parser := rawText;
    ghost var all := Lines(rawText);
    while parser != ""
      invariant lineNumber <= |all| && all[lineNumber..] == Lines(parser)
      invariant entries == Kept(fromLine, all[..lineNumber])
      invariant forall i :: 0 <= i < lineNumber ==> !fromLine(i + 1, all[i]).kind.Invalid?
      decreases |parser|
    {
      NextLine(all, parser, lineNumber);
      lineNumber := lineNumber + 1;
      var line;
      line, parser := StrtokView(parser, NEWLINE);
      KeptOneMore(fromLine, all, lineNumber - 1);
      var entry := fromLine(lineNumber, line);
      if entry.kind.Invalid? {
        return [];
      }
      if entry.kind.Whitespace? {
        continue;
      }
      entries := entries + [entry];
    }
    assert all[..lineNumber] == all;
  }

  /** What the second pass relies on: every entry is a line's, with its number, in order, and none is
      blank or invalid; and every other line was blank. */
  lemma {:induction false} KeptLines(fromLine: Tokenizer, lines: seq<Text>) returns (at: seq<nat>)
    ensures |at| == |Kept(fromLine, lines)|
    ensures forall k :: 0 <= k < |at| ==>
      at[k] < |lines| && Kept(fromLine, lines)[k] == fromLine(at[k] + 1, lines[at[k]])
    ensures forall j, k :: 0 <= j < k < |at| ==> at[j] < at[k]
    ensures forall i :: 0 <= i < |lines| ==> (i in at <==> !fromLine(i + 1, lines[i]).kind.Whitespace?)
  {
    if lines == [] {
      at := [];
    } else {
      var n := |lines| - 1;
      var most := lines[..n];
      at := KeptLines(fromLine, most);
      assert forall i :: 0 <= i < n ==> most[i] == lines[i];
      if !fromLine(n + 1, lines[n]).kind.Whitespace? {
        at := at + [n];
        assert at[|at| - 1] == n;
      }
    }
  }

  /** The whole pass, from text to entries: nothing if some line is invalid, and otherwise the entries of
      exactly the lines that are not blank, numbered from one, in order. */
  lemma FirstPassIs(fromLine: Tokenizer, text: Text) returns (lines: seq<Text>, at: seq<nat>)
    ensures Unlines(lines) == Terminated(text) && forall i :: 0 <= i < |lines| ==> '\n' !in lines[i]
    ensures Terminated(text) == if text == "" || text[|text| - 1] == '\n' then text else text + "\n"
    ensures (exists i :: 0 <= i < |lines| && fromLine(i + 1, lines[i]).kind.Invalid?) ==>
      FirstPass(fromLine, text) == []
    ensures (forall i :: 0 <= i < |lines| ==> !fromLine(i + 1, lines[i]).kind.Invalid?) ==>
      var entries := FirstPass(fromLine, text);
      && |entries| == |at|
      && (forall k :: 0 <= k < |at| ==> at[k] < |lines| && entries[k] == fromLine(at[k] + 1, lines[at[k]]))
      && (forall j, k :: 0 <= j < k < |at| ==> at[j] < at[k])
      && (forall i :: 0 <= i < |lines| ==> (i in at <==> !fromLine(i + 1, lines[i]).kind.Whitespace?))
  {
    lines := Lines(text);
    LinesMakeText(text);
    LinesHaveNoNewline(text);
    at := KeptLines(fromLine, lines);
  }

  /** Putting lines together, newline by newline. */
  lemma {:induction false} UnlinesAppend(lines: seq<Text>, line: Text)
    ensures Unlines(lines + [line]) == Unlines(lines) + line + "\n"
  {
    if lines == [] {
      assert [line][1..] == [];
    } else {
      assert (lines + [line])[1..] == lines[1..] + [line];
      UnlinesAppend(lines[1..], line);
    }
  }

  // ----- Both passes -----

  method Parse(fromLine: Tokenizer, rawText: Text) returns (result: Sequence)
    ensures result == Compile(FirstPass(fromLine, rawText))
  {
    var entries := FirstPassParse(fromLine, rawText);
    result := DialogueLoader.SecondPassParse(entries);
  }

  /** One invalid line is enough for the whole text to compile to nothing. */
  lemma InvalidLineRejects(fromLine: Tokenizer, text: Text)
    requires SomeInvalid(fromLine, Lines(text))
    ensures Compile(FirstPass(fromLine, text)) == EMPTY_SEQUENCE
  {
    assert FirstPass(fromLine, text) == [];
  }
}
