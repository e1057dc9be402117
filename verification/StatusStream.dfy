// setup/lib/runner.ts: the streaming parser of setup status blocks, and setup/status.ts: their printer.
module StatusStream {
  import opened Wrappers
  import opened JsText

  datatype Block = Block(kind: string, fields: map<string, string>)

  const HEADER := "=== NANOCLAW SETUP: "
  const HEADER_END := " ==="
  const END := "=== END ==="

  // The length of the run of non-spaces at the start.
  function WordLength(s: string): (n: nat)
    ensures n <= |s| && forall i :: 0 <= i < n ==> !IsSpace(s[i])
    ensures n < |s| ==> IsSpace(s[n])
  {
    if s == [] || IsSpace(s[0]) then 0 else 1 + WordLength(s[1..])
  }

  // /^=== NANOCLAW SETUP: (\S+) ===/: the word is the whole run of non-spaces.
  function HeaderKind(line: string): Option<string> {
    if HEADER <= line then
      var rest := line[|HEADER|..];
      var n := WordLength(rest);
      if n > 0 && HEADER_END <= rest[n..] then Some(rest[..n]) else None
    else None
  }

  datatype Parse = Parse(current: Option<Block>, blocks: seq<Block>)

  function ProcessLine(p: Parse, line: string): Parse {
    var start := HeaderKind(line);
    if start.Some? then p.(current := Some(Block(start.value, map[])))
    else if IsEnd(line) then
      if p.current.Some? then Parse(None, p.blocks + [p.current.value]) else p
    else if p.current.None? then p
    else p.(current := Some(RecordField(p.current.value, line)))
  }

  predicate IsEnd(line: string) { END <= line }

  function RecordField(b: Block, line: string): Block {
    var colon := IndexOf(line, ':');
    if colon == -1 then b
    else
      var key := Trim(line[..colon]);
      if key == "" then b else b.(fields := b.fields[key := Trim(line[colon + 1..])])
  }

  function ProcessLines(p: Parse, lines: seq<string>): Parse
    decreases |lines|
  {
    if lines == [] then p else ProcessLines(ProcessLine(p, lines[0]), lines[1..])
  }

  // ---------------------------------------------------------------- characters, one at a time

  datatype Stream = Stream(lineBuf: string, parse: Parse)

  function FeedChar(s: Stream, c: char): Stream {
    if c == '\n' then Stream("", ProcessLine(s.parse, s.lineBuf)) else s.(lineBuf := s.lineBuf + [c])
  }

  function Feed(s: Stream, text: string): Stream
    decreases |text|
  {
    if text == [] then s else Feed(FeedChar(s, text[0]), text[1..])
  }

  predicate NoBreak(s: string) { '\n' !in s }

  lemma {:induction false} FeedAppend(s: Stream, a: string, b: string)
    ensures Feed(s, a + b) == Feed(Feed(s, a), b)
    decreases |a|
  {
    if a == [] {
      assert a + b == b;
    } else {
      assert (a + b)[1..] == a[1..] + b;
      FeedAppend(FeedChar(s, a[0]), a[1..], b);
    }
  }

  lemma {:induction false} FeedLine(s: Stream, line: string)
    requires NoBreak(line)
    ensures Feed(s, line) == s.(lineBuf := s.lineBuf + line)
    decreases |line|
  {
    if line != [] {
      assert line[0] in line && forall c :: c in line[1..] ==> c in line;
      FeedLine(FeedChar(s, line[0]), line[1..]);
      assert s.lineBuf + [line[0]] + line[1..] == s.lineBuf + line;
    } else {
      assert s.lineBuf + [] == s.lineBuf;
    }
  }

  lemma {:induction false} FeedKeepsNoBreak(s: Stream, text: string)
    requires NoBreak(s.lineBuf)
    ensures NoBreak(Feed(s, text).lineBuf)
    decreases |text|
  {
    if text != [] { FeedKeepsNoBreak(FeedChar(s, text[0]), text[1..]); }
  }

  // ---------------------------------------------------------------- the program's object

  class StatusStreamer {
    var lineBuf: string
    var current: Option<Block>
    var blocks: seq<Block>
    var transcript: string
    var reported: seq<Block>   // the onBlock calls, in order

    ghost predicate Valid()
      reads this
    {
      NoBreak(lineBuf) && reported == blocks
    }

    ghost function State(): Stream
      reads this
    {
      Stream(lineBuf, Parse(current, blocks))
    }

    constructor ()
      ensures Valid() && State() == START && transcript == ""
    {
      lineBuf, current, blocks, transcript, reported := "", None, [], "", [];
    }

    // The loop of indexOf and slices is the character-by-character reading.
    method Write(chunk: string)
      requires Valid()
      modifies this
      ensures Valid() && State() == Feed(old(State()), chunk) && transcript == old(transcript) + chunk
    {
      transcript := transcript + chunk;
      ghost var done := Feed(State(), chunk);
      ghost var empty := Stream("", Parse(current, blocks));
      FeedLine(empty, lineBuf);
      FeedAppend(empty, lineBuf, chunk);
      assert "" + lineBuf == lineBuf;
      lineBuf := lineBuf + chunk;
      var idx := IndexOf(lineBuf, '\n');
      while idx != -1
        invariant reported == blocks && transcript == old(transcript) + chunk
        invariant Feed(Stream("", Parse(current, blocks)), lineBuf) == done
        invariant idx == IndexOf(lineBuf, '\n')
        decreases |lineBuf|
      {
        var line := lineBuf[..idx];
        ghost var whole := lineBuf;
        SplitAtBreak(Stream("", Parse(current, blocks)), whole, idx);
        lineBuf := lineBuf[idx + 1..];
        ProcessOneLine(line);
        idx := IndexOf(lineBuf, '\n');
      }
      FeedLine(Stream("", Parse(current, blocks)), lineBuf);
      assert "" + lineBuf == lineBuf;
    }

    method ProcessOneLine(line: string)
      requires reported == blocks
      modifies this`current, this`blocks, this`reported
      ensures Parse(current, blocks) == ProcessLine(old(Parse(current, blocks)), line) && reported == blocks
    {
      var start := HeaderKind(line);
      if start.Some? {
        current := Some(Block(start.value, map[]));
        return;
      }
      if IsEnd(line) {
        if current.Some? {
          blocks := blocks + [current.value];
          reported := reported + [current.value];
          current := None;
        }
        return;
      }
      if current.None? { return; }
      ghost var open := current.value;
      var colon := IndexOf(line, ':');
      if colon != -1 {
        var key := Trim(line[..colon]);
        var value := Trim(line[colon + 1..]);
        if key != "" {
          current := Some(current.value.(fields := current.value.fields[key := value]));
        }
      }
      assert current == Some(RecordField(open, line));
    }
  }

  const START := Stream("", Parse(None, []))

  lemma SplitAtBreak(s: Stream, text: string, idx: nat)
    requires s.lineBuf == "" && idx < |text| && text[idx] == '\n' && NoBreak(text[..idx])
    ensures Feed(s, text) == Feed(Stream("", ProcessLine(s.parse, text[..idx])), text[idx + 1..])
  {
    var line, rest := text[..idx], text[idx + 1..];
    assert text == line + (['\n'] + rest);
    FeedAppend(s, line, ['\n'] + rest);
    FeedLine(s, line);
    assert "" + line == line;
    assert (['\n'] + rest)[1..] == rest;
  }

  // ---------------------------------------------------------------- chunks do not matter

  function WriteAll(s: Stream, chunks: seq<string>): Stream
    decreases |chunks|
  {
    if chunks == [] then s else WriteAll(Feed(s, chunks[0]), chunks[1..])
  }

  // However a text is cut into chunks, the blocks, the open block and the residual buffer are the same.
  lemma {:induction false} ChunkingDoesNotMatter(s: Stream, chunks: seq<string>)
    ensures WriteAll(s, chunks) == Feed(s, Concat(chunks))
    decreases |chunks|
  {
    if chunks != [] {
      FeedAppend(s, chunks[0], Concat(chunks[1..]));
      ChunkingDoesNotMatter(Feed(s, chunks[0]), chunks[1..]);
    }
  }

  lemma SameTextSameResult(a: seq<string>, b: seq<string>)
    requires Concat(a) == Concat(b)
    ensures WriteAll(START, a) == WriteAll(START, b)
  {
    ChunkingDoesNotMatter(START, a);
    ChunkingDoesNotMatter(START, b);
  }

  // ---------------------------------------------------------------- the printer

  // Each line followed by a line break.
  function Lines(lines: seq<string>): string {
    if lines == [] then "" else lines[0] + "\n" + Lines(lines[1..])
  }

  // lines.join('\n')
  function Join(lines: seq<string>): string {
    if lines == [] then "" else if |lines| == 1 then lines[0] else lines[0] + "\n" + Join(lines[1..])
  }

  function FieldLines(fields: seq<(string, string)>): seq<string> {
    if fields == [] then [] else [fields[0].0 + ": " + fields[0].1] + FieldLines(fields[1..])
  }

  function StatusLines(step: string, fields: seq<(string, string)>): seq<string> {
    [HEADER + step + HEADER_END] + FieldLines(fields) + [END]
  }

  lemma {:induction false} JoinThenBreak(lines: seq<string>)
    requires lines != []
    ensures Join(lines) + "\n" == Lines(lines)
  {
    if |lines| == 1 {
      assert Lines(lines[1..]) == "";
      assert lines[0] + "\n" + "" == lines[0] + "\n";
    } else {
      JoinThenBreak(lines[1..]);
      assert lines[0] + "\n" + Join(lines[1..]) + "\n" == lines[0] + "\n" + (Join(lines[1..]) + "\n");
    }
  }

  lemma {:induction false} FieldLinesAppend(fields: seq<(string, string)>, k: nat)
    requires k < |fields|
    ensures FieldLines(fields[..k + 1]) == FieldLines(fields[..k]) + [fields[k].0 + ": " + fields[k].1]
    decreases k
  {
    if k > 0 {
      FieldLinesAppend(fields[1..], k - 1);
      assert fields[..k + 1][1..] == fields[1..][..k] && fields[..k][1..] == fields[1..][..k - 1];
    } else {
      assert fields[..1][1..] == [] && fields[..0] == [];
    }
  }

  // What console.log prints for a status block. Values are already strings.
  method EmitStatus(step: string, fields: seq<(string, string)>) returns (printed: string)
    ensures printed == Lines(StatusLines(step, fields))
  {
    var lines := ["=== NANOCLAW SETUP: " + step + " ==="];
    for k := 0 to |fields|
      invariant lines == [HEADER + step + HEADER_END] + FieldLines(fields[..k])
    {
      FieldLinesAppend(fields, k);
      lines := lines + [fields[k].0 + ": " + fields[k].1];
    }
    assert fields[..|fields|] == fields;
    lines := lines + ["=== END ==="];
    JoinThenBreak(lines);
    printed := Join(lines) + "\n";
  }
}
