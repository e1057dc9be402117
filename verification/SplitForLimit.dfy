// src/channels/chat-sdk-bridge.ts: splitForLimit, cutting long text into messages of bounded length.
module SplitForLimit {
  import opened JsText

  // Where to cut: the last blank line, line break or space in the window, else at the limit.
  function Cut(rest: string, limit: nat): (cut: nat)
    requires 1 <= limit < |rest|
    ensures 1 <= cut <= limit
  {
    var paragraph := LastIndexOf(rest, "\n\n", limit);
    if paragraph > 0 then paragraph
    else
      var newline := LastIndexOf(rest, "\n", limit);
      if newline > 0 then newline
      else
        var space := LastIndexOf(rest, " ", limit);
        if space > 0 then space else limit
  }

  predicate Breaks(c: char) { c == ' ' || c == '\n' }

  // The best place in the window: the last blank line, else the last line break, else the last space; the
  // limit only if the window has none of them.
  ghost predicate BestCut(rest: string, limit: nat, cut: nat)
    requires limit < |rest|
  {
    && 1 <= cut <= limit
    && (!Breaks(rest[cut]) <==> forall i :: 1 <= i <= limit ==> !Breaks(rest[i]))
    && (!Breaks(rest[cut]) ==> cut == limit)
    && (forall i :: 1 <= i <= limit && MatchAt(rest, "\n\n", i) ==> i <= cut && MatchAt(rest, "\n\n", cut))
    && (rest[cut] == ' ' ==> forall i :: 1 <= i <= limit ==> rest[i] != '\n')
    && (Breaks(rest[cut]) && !MatchAt(rest, "\n\n", cut) ==> forall i :: cut < i <= limit ==> rest[i] != rest[cut])
  }

  lemma CutIsAtBreakIfAny(rest: string, limit: nat)
    requires 1 <= limit < |rest|
    ensures BestCut(rest, limit, Cut(rest, limit))
  {
    assert forall i :: 0 <= i < |rest| ==> (MatchAt(rest, "\n", i) <==> rest[i] == '\n') by { OneChar(rest, '\n'); }
    assert forall i :: 0 <= i < |rest| ==> (MatchAt(rest, " ", i) <==> rest[i] == ' ') by { OneChar(rest, ' '); }
    assert forall i :: MatchAt(rest, "\n\n", i) ==> rest[i] == '\n' by {
      forall i | MatchAt(rest, "\n\n", i)
        ensures rest[i] == '\n'
      {
        assert rest[i..i + 2][0] == '\n';
      }
    }
  }

  lemma OneChar(s: string, c: char)
    ensures forall i :: 0 <= i < |s| ==> (MatchAt(s, [c], i) <==> s[i] == c)
  {
    forall i | 0 <= i < |s|
      ensures MatchAt(s, [c], i) <==> s[i] == c
    {
      assert s[i..i + 1] == [s[i]];
    }
  }

  // The chunks of the loop, from what remains.
  function Pieces(rest: string, limit: nat): seq<string>
    requires limit >= 1
    decreases |rest|
  {
    if |rest| <= limit then (if |rest| > 0 then [rest] else [])
    else
      var cut := Cut(rest, limit);
      [TrimEnd(rest[..cut])] + Pieces(TrimStart(rest[cut..]), limit)
  }

  function Split(text: string, limit: nat): seq<string>
    requires limit >= 1
  {
    if |text| <= limit then [text] else Pieces(text, limit)
  }

  // What the trims drop after each chunk.
  function Gaps(rest: string, limit: nat): (g: seq<string>)
    requires limit >= 1
    ensures |g| == |Pieces(rest, limit)|
    decreases |rest|
  {
    if |rest| <= limit then (if |rest| > 0 then [""] else [])
    else
      var cut := Cut(rest, limit);
      var tail := TrimStart(rest[cut..]);
      [rest[|TrimEnd(rest[..cut])|..|rest| - |tail|]] + Gaps(tail, limit)
  }

  function SplitGaps(text: string, limit: nat): (g: seq<string>)
    requires limit >= 1
    ensures |g| == |Split(text, limit)|
  {
    if |text| <= limit then [""] else Gaps(text, limit)
  }

  function Weave(chunks: seq<string>, gaps: seq<string>): string
    requires |chunks| == |gaps|
  {
    if chunks == [] then "" else chunks[0] + gaps[0] + Weave(chunks[1..], gaps[1..])
  }

  // What lies between a trimmed head and a trimmed tail is whitespace.
  lemma SpaceBetween(s: string, a: nat, cut: nat, b: nat)
    requires a <= cut <= b <= |s| && AllSpace(s[..cut][a..]) && AllSpace(s[cut..][..b - cut])
    ensures AllSpace(s[a..b])
  {
    forall i | 0 <= i < b - a
      ensures IsSpace(s[a..b][i])
    {
      if a + i < cut { assert s[..cut][a..][i] == s[a + i]; }
      else { assert s[cut..][..b - cut][a + i - cut] == s[a + i]; }
    }
  }

  lemma ThreeParts(s: string, a: nat, b: nat)
    requires a <= b <= |s|
    ensures s[..a] + s[a..b] + s[b..] == s
  {
  }

  // A cut without a gap: no space or newline in the window, nor right behind it.
  ghost predicate HardCut(chunk: string, tail: string, limit: nat) {
    |chunk| == limit && tail != "" && !Breaks(tail[0]) && forall j :: 1 <= j < |chunk| ==> !Breaks(chunk[j])
  }

  // One chunk and the gap behind it.
  lemma OnePiece(rest: string, cut: nat, chunk: string, gap: string, tail: string)
    requires cut <= |rest| && chunk == TrimEnd(rest[..cut]) && tail == TrimStart(rest[cut..])
    requires gap == rest[|chunk|..|rest| - |tail|]
    ensures chunk + gap + tail == rest && AllSpace(gap) && Trimmed(chunk)
    ensures tail != "" ==> !IsSpace(tail[0])
  {
    TrimEndIs(rest[..cut], chunk);
    TakeTake(rest, cut, |chunk|);
    TrimStartIs(rest[cut..], tail);
    DropDrop(rest, cut, |rest| - cut - |tail|);
    SpaceBetween(rest, |chunk|, cut, |rest| - |tail|);
    ThreeParts(rest, |chunk|, |rest| - |tail|);
  }

  lemma FirstKept(rest: string, cut: nat, chunk: string)
    requires 0 < cut <= |rest| && chunk == TrimEnd(rest[..cut]) && !IsSpace(rest[0])
    ensures chunk != "" && chunk[0] == rest[0]
  {
    TrimEndKeepsHead(rest[..cut]);
    TrimEndIs(rest[..cut], chunk);
    assert rest[..cut][..|chunk|][0] == rest[0];
  }

  lemma NoGap(rest: string, limit: nat, cut: nat, chunk: string, tail: string)
    requires 1 <= limit < |rest| && cut == Cut(rest, limit)
    requires |chunk| <= cut && |tail| <= |rest| - cut && chunk + "" + tail == rest && (tail != "" ==> !IsSpace(tail[0]))
    ensures HardCut(chunk, tail, limit)
  {
    assert |chunk| == cut && |tail| == |rest| - cut;
    assert tail[0] == rest[cut];
    CutIsAtBreakIfAny(rest, limit);
    assert forall j :: 0 <= j < |chunk| ==> chunk[j] == rest[j];
  }

  ghost predicate Trimmed(chunk: string) { chunk == "" || !IsSpace(chunk[|chunk| - 1]) }

  ghost predicate GoodPieces(chunks: seq<string>, gaps: seq<string>, limit: nat) {
    && |chunks| == |gaps|
    && (forall i :: 0 <= i < |chunks| ==> |chunks[i]| <= limit && AllSpace(gaps[i]))
    && (forall i :: 1 <= i < |chunks| ==> chunks[i] != "" && !IsSpace(chunks[i][0]))
    && (forall i :: 0 <= i < |chunks| - 1 ==> Trimmed(chunks[i]))
    && (forall i :: 0 <= i < |chunks| - 1 && gaps[i] == "" ==>
          |chunks[i]| == limit && !Breaks(chunks[i + 1][0]) && forall j :: 1 <= j < limit ==> !Breaks(chunks[i][j]))
  }

  lemma WeaveCons(chunk: string, gap: string, p: seq<string>, g: seq<string>)
    requires |p| == |g|
    ensures Weave([chunk] + p, [gap] + g) == chunk + gap + Weave(p, g)
  {
    assert ([chunk] + p)[1..] == p && ([gap] + g)[1..] == g;
  }

  lemma {:induction false} PiecesAreGood(rest: string, limit: nat)
    requires limit >= 1
    ensures var p, g := Pieces(rest, limit), Gaps(rest, limit);
            && GoodPieces(p, g, limit) && Weave(p, g) == rest
            && (rest != "" && !IsSpace(rest[0]) ==> p != [] && p[0] != "" && p[0][0] == rest[0])
            && (rest != "" ==> p != [])
    decreases |rest|
  {
    if |rest| > limit {
      var cut := Cut(rest, limit);
      var chunk, tail := TrimEnd(rest[..cut]), TrimStart(rest[cut..]);
      var gap := rest[|chunk|..|rest| - |tail|];
      OnePiece(rest, cut, chunk, gap, tail);
      if !IsSpace(rest[0]) { FirstKept(rest, cut, chunk); }
      PiecesAreGood(tail, limit);
      var p, g := Pieces(tail, limit), Gaps(tail, limit);
      WeaveCons(chunk, gap, p, g);
      if gap == "" { NoGap(rest, limit, cut, chunk, tail); }
      GoodCons(chunk, gap, tail, p, g, limit);
    } else if rest != "" {
      assert rest + "" + "" == rest;
    }
  }

  lemma GoodCons(chunk: string, gap: string, tail: string, p: seq<string>, g: seq<string>, limit: nat)
    requires GoodPieces(p, g, limit) && |chunk| <= limit && AllSpace(gap) && Trimmed(chunk)
    requires tail != "" ==> !IsSpace(tail[0]) && p != [] && p[0] != "" && p[0][0] == tail[0]
    requires tail == "" ==> p == []
    requires gap == "" ==> HardCut(chunk, tail, limit)
    ensures GoodPieces([chunk] + p, [gap] + g, limit)
  {
    var cs, gs := [chunk] + p, [gap] + g;
    forall i | 0 <= i < |cs|
      ensures |cs[i]| <= limit && AllSpace(gs[i])
    {
      if i > 0 { assert cs[i] == p[i - 1] && gs[i] == g[i - 1]; }
    }
    forall i | 1 <= i < |cs|
      ensures cs[i] != "" && !IsSpace(cs[i][0])
    {
      assert cs[i] == p[i - 1];
    }
    forall i | 0 <= i < |cs| - 1
      ensures Trimmed(cs[i])
    {
      if i > 0 { assert cs[i] == p[i - 1]; }
    }
    forall i | 0 <= i < |cs| - 1 && gs[i] == ""
      ensures |cs[i]| == limit && !Breaks(cs[i + 1][0]) && forall j :: 1 <= j < limit ==> !Breaks(cs[i][j])
    {
      assert cs[i + 1] == p[i];
      if i > 0 { assert cs[i] == p[i - 1] && gs[i] == g[i - 1]; }
    }
  }

  // For every text and limit: every chunk fits, all but the first are nonempty and start on a
  // non-space, all but the last end on one, the chunks with whitespace-only gaps between them are the
  // text, and two chunks meet without a gap only where the whole window held no space or newline to cut at.
  lemma SplitKeepsText(text: string, limit: nat)
    requires limit >= 1
    ensures Weave(Split(text, limit), SplitGaps(text, limit)) == text
    ensures |text| > limit ==> GoodPieces(Split(text, limit), SplitGaps(text, limit), limit)
    ensures |text| <= limit ==> Split(text, limit) == [text]
  {
    PiecesAreGood(text, limit);
    if |text| <= limit { assert text + "" + "" == text; }
  }

  lemma HeadParts(rest: string, cut: nat, chunk: string)
    requires cut <= |rest| && chunk == TrimEnd(rest[..cut])
    ensures |chunk| <= cut && chunk == rest[..|chunk|] && AllSpace(rest[|chunk|..cut]) && Trimmed(chunk)
  {
    TrimEndIs(rest[..cut], chunk);
    TakeTake(rest, cut, |chunk|);
    forall i | 0 <= i < cut - |chunk|
      ensures IsSpace(rest[|chunk|..cut][i])
    {
      assert rest[..cut][|chunk|..][i] == rest[|chunk| + i];
    }
  }

  lemma TailParts(rest: string, cut: nat, tail: string)
    requires cut <= |rest| && tail == TrimStart(rest[cut..])
    ensures |tail| <= |rest| - cut && rest[|rest| - |tail|..] == tail && AllSpace(rest[cut..|rest| - |tail|])
    ensures tail == "" || !IsSpace(tail[0])
  {
    TrimStartIs(rest[cut..], tail);
    var n := |rest| - cut - |tail|;
    DropDrop(rest, cut, n);
    var dropped := rest[cut..|rest| - |tail|];
    forall i | 0 <= i < |dropped|
      ensures IsSpace(dropped[i])
    {
      assert rest[cut..][..n][i] == dropped[i];
    }
  }

  // Every chunk but the last ends at the best place of its window: what comes before, without the white
  // space at its end, is the chunk, and what comes after, without the white space at its start, is split on.
  lemma ChunkEndsAtBestCut(rest: string, limit: nat) returns (cut: nat, tail: string)
    requires 1 <= limit < |rest|
    ensures BestCut(rest, limit, cut) && |tail| <= |rest| - cut
    ensures rest[|rest| - |tail|..] == tail && AllSpace(rest[cut..|rest| - |tail|])
    ensures tail == "" || !IsSpace(tail[0])
    ensures Pieces(rest, limit) != [] && Pieces(rest, limit)[1..] == Pieces(tail, limit)
    ensures var chunk := Pieces(rest, limit)[0];
            |chunk| <= cut && chunk == rest[..|chunk|] && AllSpace(rest[|chunk|..cut]) && Trimmed(chunk)
  {
    cut := Cut(rest, limit);
    tail := TrimStart(rest[cut..]);
    CutIsAtBreakIfAny(rest, limit);
    assert Pieces(rest, limit) == [TrimEnd(rest[..cut])] + Pieces(tail, limit);
    HeadParts(rest, cut, TrimEnd(rest[..cut]));
    TailParts(rest, cut, tail);
  }

  method FindCut(remaining: string, limit: nat) returns (cut: nat)
    requires 1 <= limit < |remaining|
    ensures cut == Cut(remaining, limit)
  {
    var at := LastIndexOf(remaining, "\n\n", limit);
    if at <= 0 { at := LastIndexOf(remaining, "\n", limit); }
    if at <= 0 { at := LastIndexOf(remaining, " ", limit); }
    if at <= 0 { at := limit; }
    cut := at;
  }

  lemma Regroup(a: seq<string>, c: string, b: seq<string>)
    ensures a + ([c] + b) == (a + [c]) + b
  {
  }

  method SplitText(text: string, limit: nat) returns (chunks: seq<string>)
    requires limit >= 1
    ensures chunks == Split(text, limit)
  {
    if |text| <= limit { return [text]; }
    chunks := [];
    var remaining := text;
    ghost var all := Pieces(text, limit);
    while |remaining| > limit
      invariant chunks + Pieces(remaining, limit) == all
      decreases |remaining|
    {
      var cut := FindCut(remaining, limit);
      var chunk, tail := TrimEnd(remaining[..cut]), TrimStart(remaining[cut..]);
      Regroup(chunks, chunk, Pieces(tail, limit));
      chunks := chunks + [chunk];
      remaining := tail;
    }
    if |remaining| > 0 { chunks := chunks + [remaining]; }
  }
}
