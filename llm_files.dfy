/** The file-update protocol of the assistant's replies: a reply may carry
    blocks

        <<LLM_FILE_START: name>>
        ...lines...
        <<LLM_FILE_END>>

    and every block becomes an entry of a filename -> content map, with
    Markdown code fences removed from the content. */
module LlmFiles {
  import opened Strings
  import opened Seqs

  const FileStartMarker := "<<LLM_FILE_START:"
  const FileEndMarker := "<<LLM_FILE_END>>"
  const FenceMarker := "```"

  predicate IsStart(line: string) { StartsWith(line, FileStartMarker) }
  predicate IsEnd(line: string) { StartsWith(line, FileEndMarker) }

  /** A line that opens or closes a Markdown code block. */
  predicate IsFence(line: string) { StartsWith(Strip(line), FenceMarker) }
  predicate NotFence(line: string) { !IsFence(line) }

  // ---------------------------------------------------------------------------
  // remove_markdown_code_blocks
  // ---------------------------------------------------------------------------

  /** Drops every fence line and keeps every other line, in order and
      unchanged. The toggle `inCodeBlock` is kept as the source keeps it, but
      it never decides whether a line is kept. */
  method RemoveMarkdownCodeBlocks(contentLines: seq<string>) returns (cleaned: seq<string>)
    ensures cleaned == Filter(contentLines, NotFence)
  {
    cleaned := [];
    var inCodeBlock := false;
    for k := 0 to |contentLines|
      invariant cleaned == Filter(contentLines[..k], NotFence)
    {
      var line := contentLines[k];
      assert contentLines[..k + 1] == contentLines[..k] + [line];
      FilterSnoc(contentLines[..k], line, NotFence);
      var strippedLine := Strip(line);
      if StartsWith(strippedLine, FenceMarker) {
        inCodeBlock := !inCodeBlock;
        continue;
      }
      cleaned := cleaned + [line];
    }
    assert contentLines[..|contentLines|] == contentLines;
  }

  /** Removing the fences around a fenced block leaves exactly its code. */
  lemma FencedBodyKept(opening: string, code: seq<string>, closing: string)
    requires IsFence(opening) && IsFence(closing)
    requires forall k :: 0 <= k < |code| ==> !IsFence(code[k])
    ensures Filter([opening] + code + [closing], NotFence) == code
  {
    FilterConcat([opening] + code, [closing], NotFence);
    FilterConcat([opening], code, NotFence);
    FilterKeepsAll(code, NotFence);
    assert [opening][1..] == [] && [closing][1..] == [];
  }

  // ---------------------------------------------------------------------------
  // update_files_from_response: the specification
  // ---------------------------------------------------------------------------

  /** The name in a start line: everything after the marker, with every
      trailing `>` removed and then surrounding whitespace trimmed. */
  function FileName(line: string): string
    requires IsStart(line)
  {
    Strip(RStripChar(line[|FileStartMarker|..], '>'))
  }

  /** The start line the protocol prescribes for `name`. */
  function StartLine(name: string): (line: string)
    ensures IsStart(line)
  {
    FileStartMarker + name + ">>"
  }

  /** The number of body lines at the head of `ls`: the lines before the first
      end line, or all of them when there is none. */
  function BodyLength(ls: seq<string>): (n: nat)
    ensures n <= |ls|
    ensures forall k :: 0 <= k < n ==> !IsEnd(ls[k])
    ensures n < |ls| ==> IsEnd(ls[n])
  {
    if ls == [] || IsEnd(ls[0]) then 0 else 1 + BodyLength(ls[1..])
  }

  /** The content stored for a block body. */
  function Content(body: seq<string>): string {
    Strip(Join(Filter(body, NotFence), "\n"))
  }

  /** The scan over `lines`, starting from the map `files` built so far. A
      block runs from a start line to the next end line (or to the end of the
      reply) and stores its content under its name, replacing an earlier
      entry; the scan then resumes at that end line. */
  function Scan(lines: seq<string>, files: map<string, string>): map<string, string>
    decreases |lines|
  {
    if lines == [] then files
    else if IsStart(lines[0]) then
      var n := BodyLength(lines[1..]);
      Scan(lines[1 + n..], files[FileName(lines[0]) := Content(lines[1..1 + n])])
    else Scan(lines[1..], files)
  }

  /** The files a reply's lines update. */
  function FileBlocks(lines: seq<string>): map<string, string> {
    Scan(lines, map[])
  }

  // ---------------------------------------------------------------------------
  // update_files_from_response: the method
  // ---------------------------------------------------------------------------

  /** Scans the reply line by line as the source does; the inner loop that
      collects a block's body is `CollectBody`. */
  method UpdateFilesFromResponse(responseText: string) returns (filesToUpdate: map<string, string>)
    ensures filesToUpdate == FileBlocks(SplitLines(responseText))
  {
    filesToUpdate := map[];
    var lines := SplitLines(responseText);
    var i := 0;
    while i < |lines|
      invariant 0 <= i <= |lines|
      invariant FileBlocks(lines) == Scan(lines[i..], filesToUpdate)
      decreases |lines| - i
    {
      var line := lines[i];
      ghost var i0 := i;
      if StartsWith(line, FileStartMarker) {
        var filename := Strip(RStripChar(line[|FileStartMarker|..], '>'));
        var contentLines;
        contentLines, i := CollectBody(lines, i + 1);
        contentLines := RemoveMarkdownCodeBlocks(contentLines);
        var fileContent := Strip(Join(contentLines, "\n"));
        BlockStep(lines, i0, i, filesToUpdate);
        filesToUpdate := filesToUpdate[filename := fileContent];
      } else {
        SkipStep(lines, i, filesToUpdate);
        i := i + 1;
      }
    }
    assert lines[i..] == [];
  }

  /** The inner loop of the scan: collects the lines from `start` up to, not
      including, the first end line, and returns where it stopped. */
  method CollectBody(lines: seq<string>, start: nat) returns (contentLines: seq<string>, i: nat)
    requires start <= |lines|
    ensures start <= i <= |lines| && contentLines == lines[start..i]
    ensures forall k :: start <= k < i ==> !IsEnd(lines[k])
    ensures i < |lines| ==> IsEnd(lines[i])
  {
    contentLines := [];
    i := start;
    while i < |lines|
      invariant start <= i <= |lines|
      invariant contentLines == lines[start..i]
      invariant forall k :: start <= k < i ==> !IsEnd(lines[k])
      decreases |lines| - i
    {
      if StartsWith(lines[i], FileEndMarker) {
        break;
      }
      assert lines[start..i + 1] == lines[start..i] + [lines[i]];
      contentLines := contentLines + [lines[i]];
      i := i + 1;
    }
  }

  /** An end line is never taken for a start line. */
  lemma EndIsNotStart(line: string)
    requires IsEnd(line)
    ensures !IsStart(line)
  {
    assert line[..|FileEndMarker|][11] == 'E';
    if |FileStartMarker| <= |line| {
      assert line[..|FileStartMarker|][11] == line[11] == 'E';
    }
  }

  /** A start line is never taken for an end line. */
  lemma StartIsNotEnd(line: string)
    requires IsStart(line)
    ensures !IsEnd(line)
  {
    assert line[..|FileStartMarker|][11] == line[11] == 'S';
    assert line[..|FileEndMarker|][11] == 'S';
  }

  /** One block of the scan: its start line at `j`, its body up to `i`. */
  lemma BlockStep(lines: seq<string>, j: nat, i: nat, files: map<string, string>)
    requires j < i <= |lines| && IsStart(lines[j])
    requires forall k :: j < k < i ==> !IsEnd(lines[k])
    requires i < |lines| ==> IsEnd(lines[i])
    ensures Scan(lines[j..], files)
         == Scan(lines[i..], files[FileName(lines[j]) := Content(lines[j + 1..i])])
  {
    var ls := lines[j..];
    assert ls[0] == lines[j];
    var rest := ls[1..];
    assert rest == lines[j + 1..];
    BodyLengthIs(rest, i - j - 1);
    assert ls[1..1 + (i - j - 1)] == lines[j + 1..i];
    assert ls[1 + (i - j - 1)..] == lines[i..];
  }

  /** A line that starts no block is passed over. */
  lemma SkipStep(lines: seq<string>, i: nat, files: map<string, string>)
    requires i < |lines| && !IsStart(lines[i])
    ensures Scan(lines[i..], files) == Scan(lines[i + 1..], files)
  {
    assert lines[i..][0] == lines[i];
    assert lines[i..][1..] == lines[i + 1..];
  }

  /** A body length is determined by where the first end line is. */
  lemma BodyLengthIs(ls: seq<string>, n: nat)
    requires n <= |ls|
    requires forall k :: 0 <= k < n ==> !IsEnd(ls[k])
    requires n < |ls| ==> IsEnd(ls[n])
    ensures BodyLength(ls) == n
  {
  }

  // ---------------------------------------------------------------------------
  // Properties
  // ---------------------------------------------------------------------------

  /** The protocol's start line names the file back, as long as the name has
      no surrounding whitespace and does not end in `>`. */
  lemma FileNameRoundTrip(name: string)
    requires name == [] || (!IsSpace(name[0]) && !IsSpace(name[|name| - 1]) && name[|name| - 1] != '>')
    ensures FileName(StartLine(name)) == name
  {
    var line := StartLine(name);
    var tail := line[|FileStartMarker|..];
    assert tail == name + ">>";
    assert RStripChar(name + ">>", '>') == RStripChar(name + ">", '>') by {
      assert (name + ">>")[..|name + ">>"| - 1] == name + ">";
    }
    assert RStripChar(name + ">", '>') == RStripChar(name, '>') by {
      assert (name + ">")[..|name + ">"| - 1] == name;
    }
    StripTrimmed(name);
  }

  /** Since `>` is removed before whitespace, a start line with a space after
      its `>>` keeps the `>>` in the name. */
  lemma TrailingSpaceKeepsArrows()
    ensures FileName("<<LLM_FILE_START: a.py>> ") == "a.py>>"
  {
    var tail := " a.py>> ";
    assert "<<LLM_FILE_START: a.py>> "[|FileStartMarker|..] == tail;
    assert RStripChar(tail, '>') == tail;
    StripSpec(tail);
    var r := Strip(tail);
    var lo := |tail| - |LStrip(tail)|;
    LStripSpec(tail);
    assert LStrip(tail) == LStrip(tail[1..]);
    assert tail[1..][0] == 'a';
    assert LStrip(tail) == "a.py>> ";
    RStripSpec("a.py>> ");
    assert RStrip("a.py>> ") == RStrip("a.py>>");
    assert RStrip("a.py>>") == "a.py>>";
  }

  /** Lines that start no block do not contribute. */
  lemma {:induction false} ProseIgnored(prose: seq<string>, rest: seq<string>, files: map<string, string>)
    requires forall k :: 0 <= k < |prose| ==> !IsStart(prose[k])
    ensures Scan(prose + rest, files) == Scan(rest, files)
    decreases |prose|
  {
    if prose == [] {
      assert prose + rest == rest;
    } else {
      var lines := prose + rest;
      assert lines[0] == prose[0];
      assert lines[1..] == prose[1..] + rest;
      ProseIgnored(prose[1..], rest, files);
    }
  }

  /** A closed block stores its content under its name, and the scan goes on
      after its end line. Start lines inside the body are body text. */
  lemma ClosedBlock(first: string, body: seq<string>, last: string, rest: seq<string>, files: map<string, string>)
    requires IsStart(first) && IsEnd(last)
    requires forall k :: 0 <= k < |body| ==> !IsEnd(body[k])
    ensures Scan([first] + body + [last] + rest, files)
         == Scan(rest, files[FileName(first) := Content(body)])
  {
    var lines := [first] + body + [last] + rest;
    var n := 1 + |body|;
    assert lines[n] == last;
    BlockStep(lines, 0, n, files);
    assert lines[0..] == lines && lines[1..n] == body;
    EndIsNotStart(last);
    SkipStep(lines, n, files[FileName(first) := Content(body)]);
    assert lines[n + 1..] == rest;
  }

  /** A block that is never closed takes every remaining line. */
  lemma UnclosedBlock(first: string, body: seq<string>, files: map<string, string>)
    requires IsStart(first)
    requires forall k :: 0 <= k < |body| ==> !IsEnd(body[k])
    ensures Scan([first] + body, files) == files[FileName(first) := Content(body)]
  {
    var lines := [first] + body;
    BlockStep(lines, 0, |lines|, files);
    assert lines[0..] == lines && lines[1..|lines|] == body;
    assert lines[|lines|..] == [];
  }

  /** A start line inside an open block is body text: it opens no block of
      its own. */
  lemma NestedStartIsBody(outer: string, inner: string, last: string)
    requires IsStart(outer) && IsStart(inner) && IsEnd(last)
    ensures FileBlocks([outer, inner, last]) == map[FileName(outer) := Content([inner])]
  {
    StartIsNotEnd(inner);
    ClosedBlock(outer, [inner], last, [], map[]);
    assert [outer] + [inner] + [last] + [] == [outer, inner, last];
  }

  /** A later block for the file replaces an earlier one. */
  lemma LaterBlockWins(name: string, body1: seq<string>, body2: seq<string>)
    requires forall k :: 0 <= k < |body1| ==> !IsEnd(body1[k])
    requires forall k :: 0 <= k < |body2| ==> !IsEnd(body2[k])
    ensures FileBlocks([StartLine(name)] + body1 + [FileEndMarker] + [StartLine(name)] + body2 + [FileEndMarker])
         == map[FileName(StartLine(name)) := Content(body2)]
  {
    var first, last := StartLine(name), FileEndMarker;
    assert IsEnd(last) by { assert last[..|FileEndMarker|] == last; }
    var key := FileName(first);
    var m1 := map[key := Content(body1)];
    var second := [first] + body2 + [last];
    assert [first] + body1 + [last] + [first] + body2 + [last] == [first] + body1 + [last] + second;
    assert Scan([first] + body1 + [last] + second, map[]) == Scan(second, m1) by {
      ClosedBlock(first, body1, last, second, map[]);
    }
    assert Scan(second, m1) == m1[key := Content(body2)] by {
      ClosedBlock(first, body2, last, [], m1);
      assert second + [] == second;
    }
    assert m1[key := Content(body2)] == map[key := Content(body2)];
  }

  /** The stored content of a fenced block is its code, joined and trimmed. */
  lemma FencedContent(opening: string, code: seq<string>, closing: string)
    requires IsFence(opening) && IsFence(closing)
    requires forall k :: 0 <= k < |code| ==> !IsFence(code[k])
    ensures Content([opening] + code + [closing]) == Strip(Join(code, "\n"))
  {
    FencedBodyKept(opening, code, closing);
  }
}
