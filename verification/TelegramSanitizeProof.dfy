// What the sanitizer guarantees: code comes back untouched, and what surrounds it is balanced.
module TelegramSanitizeProof {
  import opened JsText
  import opened SanitizeEdits
  import opened TelegramSanitize

  // ---------------------------------------------------------------- masking

  function Join(gaps: seq<string>, n: nat): string
    requires |gaps| > 0
  {
    if |gaps| == 1 then gaps[0] else gaps[0] + (Placeholder(n) + Join(gaps[1..], n + 1))
  }

  function Weave(gaps: seq<string>, segs: seq<string>): string
    requires |gaps| == |segs| + 1
  {
    if segs == [] then gaps[0] else gaps[0] + (segs[0] + Weave(gaps[1..], segs[1..]))
  }

  // Gaps and code segments together are the text.
  lemma {:induction false} GapsAndSegments(s: string)
    ensures Weave(Gaps(s), Segments(s)) == s
    decreases |s|
  {
    if s != "" {
      var e := CodeEnd(s);
      if e > 0 {
        GapsAndSegments(s[e..]);
        assert Gaps(s)[1..] == Gaps(s[e..]) && Segments(s)[1..] == Segments(s[e..]);
        assert s == s[..e] + s[e..];
      } else {
        GapsAndSegments(s[1..]);
        GrowFirst([s[0]], Gaps(s[1..]), Segments(s));
        assert s == [s[0]] + s[1..];
      }
    }
  }

  // A fenced block, up to the first closing fence.
  ghost predicate Fenced(c: string) {
    && |c| >= 6 && MatchAt(c, FENCE, 0) && MatchAt(c, FENCE, |c| - 3)
    && forall i :: 3 <= i < |c| - 3 ==> !MatchAt(c, FENCE, i)
  }

  // Inline code: two backticks on one line with no backtick between them.
  ghost predicate Inline(c: string) {
    |c| >= 2 && c[0] == c[|c| - 1] == '`' && forall i :: 1 <= i < |c| - 1 ==> c[i] != '`' && c[i] != '\n'
  }

  lemma MatchInPrefix(s: string, e: nat, i: int)
    requires e <= |s| && 0 <= i && i + 3 <= e
    ensures MatchAt(s[..e], FENCE, i) == MatchAt(s, FENCE, i)
  {
    assert s[..e][i..i + 3] == s[i..i + 3];
  }

  lemma CodeEndIsCode(s: string, e: nat)
    requires e == CodeEnd(s) && e > 0
    ensures Fenced(s[..e]) || Inline(s[..e])
  {
    if MatchAt(s, FENCE, 0) && FenceAfter(s, 3) < |s| {
      MatchInPrefix(s, e, 0);
      MatchInPrefix(s, e, e - 3);
      forall i | 3 <= i < e - 3
        ensures !MatchAt(s[..e], FENCE, i)
      {
        MatchInPrefix(s, e, i);
      }
    }
  }

  // Every code segment is a fenced block or inline code.
  lemma {:induction false} SegmentsAreCode(s: string, i: nat)
    requires i < |Segments(s)|
    ensures Fenced(Segments(s)[i]) || Inline(Segments(s)[i])
    decreases |s|
  {
    var e := CodeEnd(s);
    if e > 0 {
      CodeEndIsCode(s, e);
      if i > 0 { SegmentsAreCode(s[e..], i - 1); }
    } else {
      SegmentsAreCode(s[1..], i);
    }
  }

  lemma InlineInPrefix(s: string, e: nat)
    requires e <= |s| && InlineEnd(s[..e]) > 0
    ensures InlineEnd(s) > 0
  {
    var k := InlineEnd(s[..e]) - 1;
    assert s[..e][k] == '`' && s[k] == '`';
    assert forall i :: 1 <= i < k ==> s[..e][i] == s[i];
  }

  // What is code at the start of a prefix is code, or the start of longer code, in the whole text.
  lemma CodeInPrefix(s: string, e: nat)
    requires e <= |s| && CodeEnd(s[..e]) > 0
    ensures CodeEnd(s) > 0
  {
    if MatchAt(s[..e], FENCE, 0) && FenceAfter(s[..e], 3) < e {
      MatchInPrefix(s, e, 0);
      MatchInPrefix(s, e, FenceAfter(s[..e], 3));
    } else {
      InlineInPrefix(s, e);
    }
  }

  lemma {:induction false} FirstGapIsPrefix(s: string)
    ensures Gaps(s)[0] <= s
    decreases |s|
  {
    if s != "" && CodeEnd(s) == 0 { FirstGapIsPrefix(s[1..]); }
  }

  // No code is left outside the segments: none starts anywhere in a gap.
  lemma {:induction false} GapsHoldNoCode(s: string, i: nat, j: nat)
    requires i < |Gaps(s)| && j < |Gaps(s)[i]|
    ensures CodeEnd(Gaps(s)[i][j..]) == 0
    decreases |s|
  {
    var e := CodeEnd(s);
    var g := Gaps(s)[i];
    if e > 0 {
      GapsHoldNoCode(s[e..], i - 1, j);
    } else if i > 0 {
      GapsHoldNoCode(s[1..], i, j);
    } else if j > 0 {
      GapsHoldNoCode(s[1..], 0, j - 1);
      assert g[j..] == Gaps(s[1..])[0][j - 1..];
    } else {
      FirstGapIsPrefix(s);
      assert g[0..] == g && s[..|g|] == g;
      if CodeEnd(s[..|g|]) > 0 { CodeInPrefix(s, |g|); }
    }
  }

  lemma GrowFirst(c: string, gaps: seq<string>, segs: seq<string>)
    requires |gaps| == |segs| + 1
    ensures Weave([c + gaps[0]] + gaps[1..], segs) == c + Weave(gaps, segs)
  {
    var g := [c + gaps[0]] + gaps[1..];
    assert g[1..] == gaps[1..];
    if segs != [] {
      assert (c + gaps[0]) + (segs[0] + Weave(gaps[1..], segs[1..]))
        == c + (gaps[0] + (segs[0] + Weave(gaps[1..], segs[1..])));
    }
  }

  lemma GrowFirstJoined(c: string, gaps: seq<string>, n: nat)
    requires |gaps| > 0
    ensures Join([c + gaps[0]] + gaps[1..], n) == c + Join(gaps, n)
  {
    var g := [c + gaps[0]] + gaps[1..];
    assert g[1..] == gaps[1..];
    if |gaps| > 1 {
      var rest := Placeholder(n) + Join(gaps[1..], n + 1);
      assert (c + gaps[0]) + rest == c + (gaps[0] + rest);
    }
  }

  lemma {:induction false} MaskIsJoin(s: string, n: nat)
    ensures Mask(s, n) == Join(Gaps(s), n)
    decreases |s|
  {
    if s != "" {
      var e := CodeEnd(s);
      if e > 0 {
        MaskIsJoin(s[e..], n + 1);
        assert Gaps(s)[1..] == Gaps(s[e..]);
        assert "" + (Placeholder(n) + Mask(s[e..], n + 1)) == Mask(s, n);
      } else {
        MaskIsJoin(s[1..], n);
        GrowFirstJoined([s[0]], Gaps(s[1..]), n);
      }
    }
  }

  lemma {:induction false} GapsHaveNo(s: string, c: char)
    requires c !in s
    ensures forall i :: 0 <= i < |Gaps(s)| ==> c !in Gaps(s)[i]
    decreases |s|
  {
    if s != "" {
      var e := CodeEnd(s);
      assert c !in s[e..] && c !in s[1..];
      GapsHaveNo(if e > 0 then s[e..] else s[1..], c);
    }
  }

  // ---------------------------------------------------------------- the passes edit

  lemma EditedPiece(a: string, u: string, b: string, v: string, s: string)
    requires s == a + b && Edited(a, u) && Edited(b, v)
    ensures Edited(s, u + v)
  {
    EditedConcat(a, u, b, v);
  }

  lemma EditedKeep(s: string, v: string)
    requires s != "" && Edited(s[1..], v)
    ensures Edited(s, [s[0]] + v)
  {
    EditedRefl([s[0]]);
    EditedPiece([s[0]], [s[0]], s[1..], v, s);
  }

  lemma BulletEdits(s: string, w: nat, x: nat, rest: string)
    requires (w, x) == Bullet(s) && x > 0 && Edited(s[x..], rest)
    ensures Edited(s, s[..w] + "\U{2022} " + rest)
  {
    assert AllBlank(s[w..x]);
    EditedRefl(s[..w]);
    EditedBlank(s[w..x], "\U{2022} ");
    EditedPiece(s[..w], s[..w], s[w..x], "\U{2022} ", s[..x]);
    EditedPiece(s[..x], s[..w] + "\U{2022} ", s[x..], rest, s);
  }

  lemma {:induction false} BulletsEdit(s: string, atStart: bool)
    ensures Edited(s, Bullets(s, atStart))
    decreases |s|
  {
    if s != "" {
      if atStart && Bullet(s).1 > 0 {
        var x := Bullet(s).1;
        BulletsEdit(s[x..], Terminator(s[x - 1]));
        BulletEdits(s, Bullet(s).0, x, Bullets(s[x..], Terminator(s[x - 1])));
      } else {
        BulletsEdit(s[1..], Terminator(s[0]));
        EditedKeep(s, Bullets(s[1..], Terminator(s[0])));
      }
    }
  }

  lemma {:induction false} RulesEdit(s: string, atStart: bool)
    ensures Edited(s, Rules(s, atStart))
    decreases |s|
  {
    if s != "" {
      var e := RuleEnd(s);
      if atStart && e > 0 {
        RulesEdit(s[e..], false);
        EditedBlank(s[..e], "\U{23AF}\U{23AF}\U{23AF}");
        EditedPiece(s[..e], "\U{23AF}\U{23AF}\U{23AF}", s[e..], Rules(s[e..], false), s);
      } else {
        RulesEdit(s[1..], Terminator(s[0]));
        EditedKeep(s, Rules(s[1..], Terminator(s[0])));
      }
    }
  }

  lemma {:induction false} PairsEdit(s: string, c: char)
    requires Blank(c)
    ensures Edited(s, Pairs(s, c))
    decreases |s|
  {
    if s != "" {
      var e := PairEnd(s, c);
      if e > 0 {
        PairsEdit(s[e + 2..], c);
        EditedBlank(s[..2], [c]);
        EditedRefl(s[2..e]);
        EditedBlank(s[e..e + 2], [c]);
        EditedPiece(s[..2], [c], s[2..e], s[2..e], s[..e]);
        EditedPiece(s[..e], [c] + s[2..e], s[e..e + 2], [c], s[..e + 2]);
        EditedPiece(s[..e + 2], [c] + s[2..e] + [c], s[e + 2..], Pairs(s[e + 2..], c), s);
      } else {
        PairsEdit(s[1..], c);
        EditedKeep(s, Pairs(s[1..], c));
      }
    }
  }

  lemma {:induction false} StripEdits(s: string, a: char, b: char)
    requires Blank(a) && Blank(b)
    ensures Edited(s, Strip(s, a, b))
    decreases |s|
  {
    if s != "" {
      StripEdits(s[1..], a, b);
      if s[0] == a || s[0] == b {
        EditedAway([s[0]]);
        EditedPiece([s[0]], "", s[1..], Strip(s[1..], a, b), s);
        assert "" + Strip(s[1..], a, b) == Strip(s, a, b);
      } else {
        EditedKeep(s, Strip(s[1..], a, b));
      }
    }
  }

  lemma RewriteEdits(s: string)
    ensures Edited(s, Rewrite(s))
  {
    var s1 := Bullets(s, true);
    var s2 := Rules(s1, true);
    var s3 := Pairs(s2, '*');
    var s4 := Pairs(s3, '_');
    var s5 := BalanceMarkers(s4);
    BulletsEdit(s, true);
    RulesEdit(s1, true);
    PairsEdit(s2, '*');
    PairsEdit(s3, '_');
    StripEdits(s4, '*', '_');
    EditedRefl(s4);
    StripEdits(s5, '[', ']');
    EditedRefl(s5);
    EditedTwice(s, s1, s2);
    EditedTwice(s, s2, s3);
    EditedTwice(s, s3, s4);
    EditedTwice(s, s4, s5);
    EditedTwice(s, s5, BalanceBrackets(s5));
  }

  // ---------------------------------------------------------------- counting

  lemma {:induction false} StripCounts(s: string, a: char, b: char, c: char)
    ensures Count(Strip(s, a, b), c) == if c == a || c == b then 0 else Count(s, c)
    decreases |s|
  {
    if s != "" {
      StripCounts(s[1..], a, b, c);
    }
  }

  lemma {:induction false} CountConcat(a: string, b: string, c: char)
    ensures Count(a + b, c) == Count(a, c) + Count(b, c)
    decreases |a|
  {
    if a == "" {
      assert a + b == b;
    } else {
      assert (a + b)[1..] == a[1..] + b;
      CountConcat(a[1..], b, c);
    }
  }

  lemma {:induction false} CountNone(a: string, c: char)
    requires c !in a
    ensures Count(a, c) == 0
    decreases |a|
  {
    if a != "" { CountNone(a[1..], c); }
  }

  ghost predicate Balanced(s: string) {
    Count(s, '*') % 2 == 0 && Count(s, '_') % 2 == 0 && Count(s, '[') == Count(s, ']')
  }

  lemma RewriteBalances(s: string)
    ensures Balanced(Rewrite(s))
  {
    var s4 := Pairs(Pairs(Rules(Bullets(s, true), true), '*'), '_');
    var s5 := BalanceMarkers(s4);
    StripCounts(s4, '*', '_', '*');
    StripCounts(s4, '*', '_', '_');
    StripCounts(s5, '[', ']', '*');
    StripCounts(s5, '[', ']', '_');
    StripCounts(s5, '[', ']', '[');
    StripCounts(s5, '[', ']', ']');
  }

  // ---------------------------------------------------------------- placeholders

  lemma {:induction false} DecimalRoundTrip(n: nat)
    ensures Decimal(n) != "" && (forall i :: 0 <= i < |Decimal(n)| ==> IsDigit(Decimal(n)[i]))
    ensures Number(Decimal(n)) == n
  {
    if n >= 10 {
      DecimalRoundTrip(n / 10);
      assert Decimal(n)[..|Decimal(n)| - 1] == Decimal(n / 10);
    } else {
      assert Decimal(n)[..0] == "";
    }
  }

  lemma PlaceholderIsVisible(n: nat)
    ensures NoBlank(Placeholder(n))
  {
    DecimalRoundTrip(n);
  }

  lemma EditedFirst(gap: string, ph: string, joined: string, u: string) returns (k: nat)
    requires NoBlank(ph) && Edited(gap + (ph + joined), u)
    ensures k + |ph| <= |u| && u == u[..k] + (ph + u[k + |ph|..])
    ensures Edited(gap, u[..k]) && Edited(joined, u[k + |ph|..])
  {
    k := EditedSplit(gap + (ph + joined), gap, ph + joined, u);
    var m := EditedSplit(ph + joined, ph, joined, u[k..]);
    VisibleStays(ph, u[k..][..m]);
    assert u[k..][m..] == u[k + m..] && u == u[..k] + u[k..] && u[k..] == u[k..][..m] + u[k..][m..];
  }

  lemma {:induction false} EditedJoin(gaps: seq<string>, n: nat, u: string) returns (outs: seq<string>)
    requires |gaps| > 0 && Edited(Join(gaps, n), u)
    ensures |outs| == |gaps| && u == Join(outs, n)
    ensures forall i :: 0 <= i < |gaps| ==> Edited(gaps[i], outs[i])
    decreases |gaps|
  {
    if |gaps| == 1 {
      outs := [u];
    } else {
      PlaceholderIsVisible(n);
      var k := EditedFirst(gaps[0], Placeholder(n), Join(gaps[1..], n + 1), u);
      var rest := EditedJoin(gaps[1..], n + 1, u[k + |Placeholder(n)|..]);
      outs := [u[..k]] + rest;
      assert outs[1..] == rest;
    }
  }

  lemma NoPlaceholder(s: string)
    requires s != "" && s[0] != NUL
    ensures PlaceholderEnd(s) == 0
  {
    assert |s| >= 5 ==> s[0..5][0] == s[0];
  }

  lemma RestoreCons(c: char, t: string, segs: seq<string>)
    requires c != NUL
    ensures Restore([c] + t, segs) == [c] + Restore(t, segs)
  {
    NoPlaceholder([c] + t);
    assert ([c] + t)[1..] == t;
  }

  lemma RestoreHead(g: string, rest: string, segs: seq<string>, r: string)
    requires g != "" && g[0] != NUL && Restore(g[1..] + rest, segs) == g[1..] + r
    ensures Restore(g + rest, segs) == g + r
  {
    HeadTail(g, rest);
    HeadTail(g, r);
    RestoreCons(g[0], g[1..] + rest, segs);
  }

  lemma {:induction false} RestorePlain(g: string, rest: string, segs: seq<string>)
    requires NUL !in g
    ensures Restore(g + rest, segs) == g + Restore(rest, segs)
    decreases |g|
  {
    if g == "" {
      assert "" + rest == rest && "" + Restore(rest, segs) == Restore(rest, segs);
    } else {
      RestorePlain(g[1..], rest, segs);
      RestoreHead(g, rest, segs, Restore(rest, segs));
    }
  }

  lemma PlaceholderFound(d: string, rest: string)
    requires d != "" && forall i :: 0 <= i < |d| ==> IsDigit(d[i])
    ensures var s := [NUL] + "CODE" + d + [NUL] + rest;
            PlaceholderEnd(s) == 6 + |d| && s[5..5 + |d|] == d && s[6 + |d|..] == rest
  {
    var s := [NUL] + "CODE" + d + [NUL] + rest;
    assert s[0..5] == [NUL] + "CODE" && s[5..5 + |d|] == d && s[5 + |d|] == NUL;
    assert forall i :: 5 <= i < 5 + |d| ==> s[i] == d[i - 5];
  }

  lemma RestorePlaceholder(n: nat, rest: string, segs: seq<string>)
    requires n < |segs|
    ensures Restore(Placeholder(n) + rest, segs) == segs[n] + Restore(rest, segs)
  {
    DecimalRoundTrip(n);
    PlaceholderFound(Decimal(n), rest);
  }

  lemma {:induction false} RestoreJoin(outs: seq<string>, n: nat, segs: seq<string>)
    requires |outs| > 0 && n + |outs| == |segs| + 1
    requires forall i :: 0 <= i < |outs| ==> NUL !in outs[i]
    ensures Restore(Join(outs, n), segs) == Weave(outs, segs[n..])
    decreases |outs|
  {
    if |outs| == 1 {
      RestorePlain(outs[0], "", segs);
      assert outs[0] + "" == outs[0];
    } else {
      var tail := Join(outs[1..], n + 1);
      RestorePlain(outs[0], Placeholder(n) + tail, segs);
      RestorePlaceholder(n, tail, segs);
      RestoreJoin(outs[1..], n + 1, segs);
      assert segs[n..][1..] == segs[n + 1..];
    }
  }

  lemma {:induction false} CountJoin(outs: seq<string>, n: nat, c: char)
    requires |outs| > 0 && Blank(c)
    ensures Count(Join(outs, n), c) == Count(Concat(outs), c)
    decreases |outs|
  {
    if |outs| == 1 {
      assert outs[1..] == [] && outs[0] + "" == outs[0];
    } else {
      var tail := Join(outs[1..], n + 1);
      PlaceholderIsVisible(n);
      CountNone(Placeholder(n), c);
      CountConcat(Placeholder(n), tail, c);
      CountConcat(outs[0], Placeholder(n) + tail, c);
      CountConcat(outs[0], Concat(outs[1..]), c);
      CountJoin(outs[1..], n + 1, c);
    }
  }

  // ---------------------------------------------------------------- the guarantee

  lemma RewrittenGaps(input: string) returns (outs: seq<string>)
    ensures |outs| == |Gaps(input)| && Rewrite(Mask(input, 0)) == Join(outs, 0)
    ensures forall i :: 0 <= i < |outs| ==> Edited(Gaps(input)[i], outs[i])
    ensures Balanced(Join(outs, 0))
  {
    var masked := Mask(input, 0);
    MaskIsJoin(input, 0);
    RewriteEdits(masked);
    RewriteBalances(masked);
    outs := EditedJoin(Gaps(input), 0, Rewrite(masked));
  }

  lemma BalancedOutside(outs: seq<string>)
    requires |outs| > 0 && Balanced(Join(outs, 0))
    ensures Balanced(Concat(outs))
  {
    CountJoin(outs, 0, '*');
    CountJoin(outs, 0, '_');
    CountJoin(outs, 0, '[');
    CountJoin(outs, 0, ']');
  }

  lemma EditedParts(gaps: seq<string>, outs: seq<string>, c: char)
    requires |gaps| == |outs| && !Blank(c) && forall i :: 0 <= i < |gaps| ==> c !in gaps[i]
    requires forall i :: 0 <= i < |gaps| ==> Edited(gaps[i], outs[i])
    ensures forall i :: 0 <= i < |outs| ==> c !in outs[i] && Visible(outs[i]) == Visible(gaps[i])
  {
    forall i | 0 <= i < |outs|
      ensures c !in outs[i] && Visible(outs[i]) == Visible(gaps[i])
    {
      EditedAdds(gaps[i], outs[i], c);
      EditedKeepsVisible(gaps[i], outs[i]);
    }
  }

  // Of a text without NUL, every code segment comes back byte for byte and in order; each stretch
  // between two of them keeps its visible characters, in order; and over all the stretches together
  // the numbers of '*' and of '_' are even and there are as many '[' as ']'.
  lemma SanitizeKeepsCode(input: string, gaps: seq<string>, segs: seq<string>) returns (outs: seq<string>)
    requires NUL !in input && gaps == Gaps(input) && segs == Segments(input)
    ensures |outs| == |gaps| == |segs| + 1 && Sanitize(input) == Weave(outs, segs)
    ensures forall i :: 0 <= i < |outs| ==> Visible(outs[i]) == Visible(gaps[i])
    ensures Balanced(Concat(outs))
  {
    if input == "" {
      outs := [""];
      assert Concat(outs) == "";
      return;
    }
    outs := RewrittenGaps(input);
    GapsHaveNo(input, NUL);
    EditedParts(gaps, outs, NUL);
    RestoreJoin(outs, 0, segs);
    assert segs[0..] == segs;
    BalancedOutside(outs);
  }
}
