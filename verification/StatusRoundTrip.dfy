// Parsing what the setup steps print gives back exactly the printed blocks.
module StatusRoundTrip {
  import opened Wrappers
  import opened JsText
  import opened StatusStream

  predicate WellFormedStep(step: string) { step != "" && forall i :: 0 <= i < |step| ==> !IsSpace(step[i]) }

  // A field name: trimmed, on one line, without ':' and not looking like a marker line.
  predicate WellFormedName(key: string) {
    key != "" && Trim(key) == key && NoBreak(key) && ':' !in key && key[0] != '='
  }

  predicate WellFormedField(f: (string, string)) {
    WellFormedName(f.0) && Trim(f.1) == f.1 && NoBreak(f.1)
  }

  ghost predicate WellFormedFields(fields: seq<(string, string)>) {
    forall i :: 0 <= i < |fields| ==> WellFormedField(fields[i])
  }

  ghost predicate Noise(lines: seq<string>) {
    forall i :: 0 <= i < |lines| ==> NoBreak(lines[i]) && HeaderKind(lines[i]).None?
  }

  function FieldsMap(m: map<string, string>, fields: seq<(string, string)>): map<string, string>
    decreases |fields|
  {
    if fields == [] then m else FieldsMap(m[fields[0].0 := fields[0].1], fields[1..])
  }

  lemma {:induction false} FeedLines(p: Parse, lines: seq<string>)
    requires Unbroken(lines)
    ensures Feed(Stream("", p), Lines(lines)) == Stream("", ProcessLines(p, lines))
    decreases |lines|
  {
    if lines != [] {
      var text := Lines(lines);
      var idx := |lines[0]|;
      assert text == lines[0] + "\n" + Lines(lines[1..]);
      assert text[..idx] == lines[0] && text[idx] == '\n' && text[idx + 1..] == Lines(lines[1..]);
      SplitAtBreak(Stream("", p), text, idx);
      FeedLines(ProcessLine(p, lines[0]), lines[1..]);
    }
  }

  lemma {:induction false} ProcessAppend(p: Parse, a: seq<string>, b: seq<string>)
    ensures ProcessLines(p, a + b) == ProcessLines(ProcessLines(p, a), b)
    decreases |a|
  {
    if a == [] {
      assert a + b == b;
    } else {
      assert (a + b)[1..] == a[1..] + b;
      ProcessAppend(ProcessLine(p, a[0]), a[1..], b);
    }
  }

  lemma {:induction false} NoiseIsIgnored(p: Parse, lines: seq<string>)
    requires p.current.None? && Noise(lines)
    ensures ProcessLines(p, lines) == p
    decreases |lines|
  {
    if lines != [] {
      assert HeaderKind(lines[0]).None?;
      NoiseIsIgnored(p, lines[1..]);
    }
  }

  lemma WordLengthIs(word: string, rest: string)
    requires WellFormedStep(word) && (rest == [] || IsSpace(rest[0]))
    ensures WordLength(word + rest) == |word|
  {
    assert forall i :: 0 <= i < |word| ==> (word + rest)[i] == word[i];
    assert rest != [] ==> (word + rest)[|word|] == rest[0];
  }

  lemma HeaderIsRecognised(step: string)
    requires WellFormedStep(step)
    ensures HeaderKind(HEADER + step + HEADER_END) == Some(step)
  {
    var line := HEADER + step + HEADER_END;
    var rest := line[|HEADER|..];
    assert HEADER <= line && rest == step + HEADER_END;
    WordLengthIs(step, HEADER_END);
    assert rest[|step|..] == HEADER_END && rest[..|step|] == step;
  }

  lemma {:induction false} IndexAfter(key: string, rest: string)
    requires ':' !in key
    ensures IndexOf(key + ":" + rest, ':') == |key|
  {
    var line := key + ":" + rest;
    assert line[|key|] == ':' && forall i :: 0 <= i < |key| ==> line[i] == key[i];
  }

  lemma NoMarker(line: string)
    requires line != "" && line[0] != '='
    ensures HeaderKind(line).None? && !IsEnd(line)
  {
    assert HEADER[0] == '=' && END[0] == '=';
  }

  lemma LineParts(key: string, value: string)
    ensures var line := key + ": " + value;
            line == key + ":" + (" " + value) && line[..|key|] == key && line[|key| + 1..] == " " + value
            && (key != "" ==> line[0] == key[0])
  {
  }

  lemma FieldIsRecorded(b: Block, key: string, value: string)
    requires WellFormedField((key, value))
    ensures RecordField(b, key + ": " + value) == b.(fields := b.fields[key := value])
  {
    LineParts(key, value);
    IndexAfter(key, " " + value);
    TrimLeadingSpace(value);
  }

  // The white space around a field's name and value is dropped; only the first colon separates.
  lemma FieldIsTrimmed(b: Block, a1: string, key: string, a2: string, b1: string, value: string, b2: string)
    requires AllSpace(a1) && AllSpace(a2) && AllSpace(b1) && AllSpace(b2)
    requires key != "" && ':' !in key && !IsSpace(key[0]) && !IsSpace(key[|key| - 1])
    requires value == "" || (!IsSpace(value[0]) && !IsSpace(value[|value| - 1]))
    ensures RecordField(b, (a1 + (key + a2)) + (":" + (b1 + (value + b2)))) == b.(fields := b.fields[key := value])
  {
    var before, behind := a1 + (key + a2), b1 + (value + b2);
    var line := before + (":" + behind);
    NoColonInside(a1, key, a2);
    assert line[|before|] == ':' && forall i :: 0 <= i < |before| ==> line[i] == before[i];
    assert line[..|before|] == before && line[|before| + 1..] == behind;
    TrimDropsBoth(a1, key, a2);
    TrimDropsBoth(b1, value, b2);
  }

  lemma NoColonInside(a1: string, key: string, a2: string)
    requires AllSpace(a1) && AllSpace(a2) && ':' !in key
    ensures forall i :: 0 <= i < |a1 + (key + a2)| ==> (a1 + (key + a2))[i] != ':'
  {
    var s := a1 + (key + a2);
    forall i | 0 <= i < |s|
      ensures s[i] != ':'
    {
      assert s[i] == if i < |a1| then a1[i] else if i < |a1| + |key| then key[i - |a1|] else a2[i - |a1| - |key|];
    }
  }

  // A line without a colon, or with nothing but white space before it, records nothing.
  lemma OtherLinesRecordNothing(b: Block, before: string, behind: string)
    ensures ':' !in before ==> RecordField(b, before) == b
    ensures AllSpace(before) ==> RecordField(b, before + (":" + behind)) == b
  {
    if AllSpace(before) {
      var line := before + (":" + behind);
      assert line[|before|] == ':' && forall i :: 0 <= i < |before| ==> line[i] == before[i];
      assert line[..|before|] == before;
      TrimDropsBoth(before, "", "");
      assert before + ("" + "") == before;
    }
  }

  lemma WordBefore(rest: string, kind: string)
    requires kind + HEADER_END <= rest && forall i :: 0 <= i < |kind| ==> !IsSpace(kind[i])
    ensures WordLength(rest) == |kind| && rest[..|kind|] == kind && HEADER_END <= rest[|kind|..]
  {
    assert (kind + HEADER_END)[|kind|] == ' ' == rest[|kind|];
    assert rest[|kind|..][..4] == HEADER_END;
  }

  lemma WordFound(rest: string, kind: string)
    requires WordLength(rest) == |kind| && rest[..|kind|] == kind && HEADER_END <= rest[|kind|..]
    ensures kind + HEADER_END <= rest && forall i :: 0 <= i < |kind| ==> !IsSpace(kind[i])
  {
    assert rest == kind + rest[|kind|..];
    assert forall i :: 0 <= i < |kind| ==> kind[i] == rest[i];
  }

  lemma Behind(a: string, b: string, s: string)
    ensures a + b <= s <==> a <= s && b <= s[|a|..]
  {
    if a <= s { assert s == a + s[|a|..]; }
  }

  // A header line starts with the marker, one word and the three equals signs; the word is the kind.
  lemma HeaderExactlyWhen(line: string, kind: string)
    ensures HeaderKind(line) == Some(kind)
            <==> kind != "" && (forall i :: 0 <= i < |kind| ==> !IsSpace(kind[i]))
                 && "=== NANOCLAW SETUP: " + (kind + " ===") <= line
  {
    Behind(HEADER, kind + HEADER_END, line);
    if HEADER <= line {
      var rest := line[|HEADER|..];
      if kind + HEADER_END <= rest && forall i :: 0 <= i < |kind| ==> !IsSpace(kind[i]) { WordBefore(rest, kind); }
      if HeaderKind(line) == Some(kind) { WordFound(rest, kind); }
    }
  }

  lemma {:induction false} FieldsAreRecorded(p: Parse, fields: seq<(string, string)>)
    requires p.current.Some? && WellFormedFields(fields)
    ensures ProcessLines(p, FieldLines(fields))
            == p.(current := Some(p.current.value.(fields := FieldsMap(p.current.value.fields, fields))))
    decreases |fields|
  {
    if fields != [] {
      var (key, value) := fields[0];
      var line := key + ": " + value;
      assert WellFormedField((key, value));
      LineParts(key, value);
      NoMarker(line);
      FieldIsRecorded(p.current.value, key, value);
      assert FieldLines(fields)[0] == line && FieldLines(fields)[1..] == FieldLines(fields[1..]);
      FieldsAreRecorded(ProcessLine(p, line), fields[1..]);
    }
  }

  lemma EndIsNoHeader()
    ensures HeaderKind(END).None?
  {
    assert END[4] == 'E' && HEADER[4] == 'N';
  }

  lemma OneBlock(p: Parse, step: string, fields: seq<(string, string)>)
    requires p.current.None? && WellFormedStep(step) && WellFormedFields(fields)
    ensures ProcessLines(p, StatusLines(step, fields))
            == p.(blocks := p.blocks + [Block(step, FieldsMap(map[], fields))])
  {
    var header := HEADER + step + HEADER_END;
    HeaderIsRecognised(step);
    var open := p.(current := Some(Block(step, map[])));
    assert [header][1..] == [];
    assert ProcessLines(p, [header]) == ProcessLines(open, []) == open;
    ProcessAppend(p, [header] + FieldLines(fields), [END]);
    ProcessAppend(p, [header], FieldLines(fields));
    FieldsAreRecorded(open, fields);
    EndIsNoHeader();
    var full := open.(current := Some(Block(step, FieldsMap(map[], fields))));
    assert [END][1..] == [];
    assert ProcessLines(full, [END]) == ProcessLines(ProcessLine(full, END), []);
  }

  // One status block among output lines that are not headers.
  datatype Emission = Emission(noise: seq<string>, step: string, fields: seq<(string, string)>)

  function OutputLines(es: seq<Emission>): seq<string> {
    if es == [] then [] else Printed(es[0]) + OutputLines(es[1..])
  }

  function Blocks(es: seq<Emission>): seq<Block> {
    if es == [] then [] else [BlockOf(es[0])] + Blocks(es[1..])
  }

  ghost predicate WellFormed(es: seq<Emission>) {
    forall i :: 0 <= i < |es| ==> Noise(es[i].noise) && WellFormedStep(es[i].step) && WellFormedFields(es[i].fields)
  }

  function BlockOf(e: Emission): Block { Block(e.step, FieldsMap(map[], e.fields)) }

  function Printed(e: Emission): seq<string> { e.noise + StatusLines(e.step, e.fields) }

  // One emission: noise is ignored, the block is added.
  lemma EmissionParses(done: seq<Block>, e: Emission)
    requires Noise(e.noise) && WellFormedStep(e.step) && WellFormedFields(e.fields)
    ensures ProcessLines(Parse(None, done), Printed(e)) == Parse(None, done + [BlockOf(e)])
  {
    NoiseIsIgnored(Parse(None, done), e.noise);
    OneBlock(Parse(None, done), e.step, e.fields);
    ProcessAppend(Parse(None, done), e.noise, StatusLines(e.step, e.fields));
  }

  lemma {:induction false} EmissionsParse(done: seq<Block>, es: seq<Emission>)
    requires WellFormed(es)
    ensures ProcessLines(Parse(None, done), OutputLines(es)) == Parse(None, done + Blocks(es))
    decreases |es|
  {
    if es == [] {
      assert done + [] == done;
    } else {
      var rest := es[1..];
      EmissionParses(done, es[0]);
      ProcessAppend(Parse(None, done), Printed(es[0]), OutputLines(rest));
      EmissionsParse(done + [BlockOf(es[0])], rest);
      Assoc(done, [BlockOf(es[0])], Blocks(rest));
    }
  }

  ghost predicate Unbroken(lines: seq<string>) { forall i :: 0 <= i < |lines| ==> NoBreak(lines[i]) }

  lemma UnbrokenAppend(a: seq<string>, b: seq<string>)
    requires Unbroken(a) && Unbroken(b)
    ensures Unbroken(a + b)
  {
  }

  lemma NoBreakAppend(a: string, b: string, c: string)
    requires NoBreak(a) && NoBreak(b) && NoBreak(c)
    ensures NoBreak(a + b + c)
  {
  }

  lemma {:induction false} FieldLinesUnbroken(fields: seq<(string, string)>, lines: seq<string>)
    requires WellFormedFields(fields) && lines == FieldLines(fields)
    ensures Unbroken(lines)
    decreases |fields|
  {
    if fields != [] {
      var rest := FieldLines(fields[1..]);
      FieldLinesUnbroken(fields[1..], rest);
      assert WellFormedField(fields[0]);
      NoBreakAppend(fields[0].0, ": ", fields[0].1);
      UnbrokenAppend([fields[0].0 + ": " + fields[0].1], rest);
    }
  }

  lemma StatusLinesUnbroken(step: string, fields: seq<(string, string)>)
    requires WellFormedStep(step) && WellFormedFields(fields)
    ensures Unbroken(StatusLines(step, fields))
  {
    assert forall c :: c in step ==> !IsSpace(c);
    NoBreakAppend(HEADER, step, HEADER_END);
    FieldLinesUnbroken(fields, FieldLines(fields));
    UnbrokenAppend([HEADER + step + HEADER_END], FieldLines(fields));
    UnbrokenAppend([HEADER + step + HEADER_END] + FieldLines(fields), [END]);
  }

  lemma {:induction false} OutputUnbroken(es: seq<Emission>)
    requires WellFormed(es)
    ensures Unbroken(OutputLines(es))
    decreases |es|
  {
    if es != [] {
      assert Noise(es[0].noise);
      StatusLinesUnbroken(es[0].step, es[0].fields);
      OutputUnbroken(es[1..]);
      UnbrokenAppend(es[0].noise, StatusLines(es[0].step, es[0].fields));
      UnbrokenAppend(Printed(es[0]), OutputLines(es[1..]));
    }
  }

  // For every sequence of printed blocks among non-header noise, and every way of cutting the output
  // into chunks, the parser ends with exactly those blocks in order, none open, and an empty buffer.
  lemma ParsePrintedBlocks(es: seq<Emission>, tail: seq<string>, chunks: seq<string>)
    requires WellFormed(es) && Noise(tail) && Concat(chunks) == Lines(OutputLines(es) + tail)
    ensures WriteAll(START, chunks) == Stream("", Parse(None, Blocks(es)))
  {
    var lines := OutputLines(es) + tail;
    ChunkingDoesNotMatter(START, chunks);
    OutputUnbroken(es);
    UnbrokenAppend(OutputLines(es), tail);
    FeedLines(Parse(None, []), lines);
    ProcessAppend(Parse(None, []), OutputLines(es), tail);
    EmissionsParse([], es);
    assert [] + Blocks(es) == Blocks(es);
    NoiseIsIgnored(Parse(None, Blocks(es)), tail);
  }

  // Every field comes back: the map holds exactly the printed names, each with its last printed value.
  lemma {:induction false} FieldsMapHolds(m: map<string, string>, fields: seq<(string, string)>, key: string)
    ensures key in FieldsMap(m, fields) <==> key in m || exists i :: 0 <= i < |fields| && fields[i].0 == key
    ensures forall i :: 0 <= i < |fields| && fields[i].0 == key && (forall j :: i < j < |fields| ==> fields[j].0 != key)
                        ==> FieldsMap(m, fields)[key] == fields[i].1
    ensures key in m && (forall j :: 0 <= j < |fields| ==> fields[j].0 != key) ==> FieldsMap(m, fields)[key] == m[key]
    decreases |fields|
  {
    if fields != [] {
      var rest := fields[1..];
      FieldsMapHolds(m[fields[0].0 := fields[0].1], rest, key);
      assert forall i :: 1 <= i < |fields| ==> fields[i] == rest[i - 1];
      assert forall i :: 0 <= i < |rest| ==> rest[i] == fields[i + 1];
    }
  }
}
