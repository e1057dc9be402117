// What each rewriting pass does to the lines it is for, that it changes no other, and so that the
// sanitizer leaves plain text alone.
module SanitizeLines {
  import opened JsText
  import opened TelegramSanitize
  import opened TelegramSanitizeProof
  import opened SanitizePasses

  // ---------------------------------------------------------------- code

  // A fenced block is masked as a whole, up to its first closing fence.
  lemma FenceIsOneSegment(c: string, rest: string)
    requires Fenced(c)
    ensures CodeEnd(c + rest) == |c| && Segments(c + rest) == [c] + Segments(rest)
  {
    var s := c + rest;
    forall i | 0 <= i <= |c| - 3
      ensures MatchAt(s, FENCE, i) == MatchAt(c, FENCE, i)
    {
      assert s[i..i + 3] == c[i..i + 3];
    }
    assert FenceAfter(s, 3) == |c| - 3;
    assert s[..|c|] == c && s[|c|..] == rest;
  }

  // So is inline code with something in it.
  lemma InlineIsOneSegment(c: string, rest: string)
    requires Inline(c) && |c| > 2
    ensures CodeEnd(c + rest) == |c| && Segments(c + rest) == [c] + Segments(rest)
  {
    var s := c + rest;
    assert s[..|c|] == c && s[|c|..] == rest;
    assert forall i :: 0 <= i < |c| ==> s[i] == c[i];
    RunEndIs(s, 1, x => x != '`' && x != '\n', |c| - 1);
    assert !MatchAt(s, FENCE, 0) by {
      assert s[0..3][1] == s[1] == c[1];
    }
  }

  lemma {:induction false} NoCodeInside(s: string, n: nat)
    requires '`' !in s
    ensures Segments(s) == [] && Mask(s, n) == s
    decreases |s|
  {
    if s != "" {
      assert s[0] in s;
      NoCodeInside(s[1..], n);
      assert s == [s[0]] + s[1..];
    }
  }

  // Where a line ends for ^ and $ under the m flag, by code point.
  lemma LinesEndAt(c: char)
    ensures Terminator(c) <==> c as int == 10 || c as int == 13 || c as int == 8232 || c as int == 8233
  {
  }

  // ---------------------------------------------------------------- bullets and rules

  lemma BulletIsAt(s: string, w: nat, x: nat)
    requires w + 1 < x <= |s| && (s[w] == '-' || s[w] == '+')
    requires (forall i :: 0 <= i < w ==> IsSpace(s[i])) && (forall i :: w + 1 <= i < x ==> IsSpace(s[i]))
    requires x < |s| ==> !IsSpace(s[x])
    ensures Bullet(s) == (w, x)
  {
    RunEndIs(s, 0, IsSpace, w);
    RunEndIs(s, w + 1, IsSpace, x);
  }

  // A list item, w characters of white space, a marker and white space up to x: the white space in front
  // stays, the marker and the white space behind it become a round bullet and a blank.
  lemma BulletLine(s: string, w: nat, x: nat, rest: string)
    requires w + 1 < x <= |s| && (s[w] == '-' || s[w] == '+')
    requires (forall i :: 0 <= i < w ==> IsSpace(s[i])) && (forall i :: w + 1 <= i < x ==> IsSpace(s[i]))
    requires x < |s| ==> !IsSpace(s[x])
    requires rest == Bullets(s[x..], Terminator(s[x - 1]))
    ensures Bullets(s, true) == s[..w] + "\U{2022} " + rest
  {
    BulletIsAt(s, w, x);
    BulletWritten(s, w, x, rest);
  }

  lemma BulletWritten(s: string, w: nat, x: nat, rest: string)
    requires Bullet(s) == (w, x) && 0 < x <= |s| && w <= |s| && rest == Bullets(s[x..], Terminator(s[x - 1]))
    ensures Bullets(s, true) == s[..w] + "\U{2022} " + rest
  {
  }

  lemma {:induction false} BulletsChangeNothingElse(s: string, atStart: bool)
    requires NoLineStarts(s, atStart, BulletEnd)
    ensures Bullets(s, atStart) == s
    decreases |s|
  {
    if s != "" {
      BulletsChangeNothingElse(s[1..], Terminator(s[0]));
      assert s == [s[0]] + s[1..];
    }
  }

  // A line up to e of three or more rule marks, from a to b, with blanks or tabs around them becomes the
  // divider.
  lemma RuleLine(s: string, a: nat, b: nat, e: nat)
    requires a + 3 <= b <= e <= |s| && (e < |s| ==> Terminator(s[e]))
    requires forall i :: 0 <= i < a || b <= i < e ==> s[i] == ' ' || s[i] == '\t'
    requires forall i :: a <= i < b ==> s[i] == '-' || s[i] == '_' || s[i] == '*'
    ensures RuleEnd(s) == e
    ensures Rules(s, true) == "\U{23AF}\U{23AF}\U{23AF}" + Rules(s[e..], false)
  {
    RunEndIs(s, 0, IsBlankOrTab, a);
    RunEndIs(s, a, IsRuleMark, b);
    RunEndIs(s, b, IsBlankOrTab, e);
  }

  lemma {:induction false} RulesChangeNothingElse(s: string, atStart: bool)
    requires NoLineStarts(s, atStart, RuleEnd)
    ensures Rules(s, atStart) == s
    decreases |s|
  {
    if s != "" {
      RulesChangeNothingElse(s[1..], Terminator(s[0]));
      assert s == [s[0]] + s[1..];
    }
  }

  // ---------------------------------------------------------------- the other passes

  // Without two c's side by side there is no doubled pair.
  lemma {:induction false} PairsChangeNothingElse(s: string, c: char)
    requires forall i :: 0 <= i < |s| - 1 ==> s[i] != c || s[i + 1] != c
    ensures Pairs(s, c) == s
    decreases |s|
  {
    if s != "" {
      PairsChangeNothingElse(s[1..], c);
      assert s == [s[0]] + s[1..];
    }
  }

  lemma {:induction false} RestoreChangesNothingElse(s: string, segs: seq<string>)
    requires NUL !in s
    ensures Restore(s, segs) == s
    decreases |s|
  {
    if s != "" {
      assert s[0] in s;
      NoPlaceholder(s);
      RestoreChangesNothingElse(s[1..], segs);
      assert s == [s[0]] + s[1..];
    }
  }

  // Text without code, bullets, rules and doubled markers whose markers and brackets are balanced comes
  // out as it went in.
  lemma PlainTextIsLeftAlone(s: string)
    requires NUL !in s && '`' !in s && NoLineStarts(s, true, BulletEnd) && NoLineStarts(s, true, RuleEnd)
    requires forall i :: 0 <= i < |s| - 1 ==> (s[i] != '*' || s[i + 1] != '*') && (s[i] != '_' || s[i + 1] != '_')
    requires Count(s, '*') % 2 == 0 && Count(s, '_') % 2 == 0 && Count(s, '[') == Count(s, ']')
    ensures Sanitize(s) == s
  {
    NoCodeInside(s, 0);
    BulletsChangeNothingElse(s, true);
    RulesChangeNothingElse(s, true);
    PairsChangeNothingElse(s, '*');
    PairsChangeNothingElse(s, '_');
    RestoreChangesNothingElse(s, []);
  }
}
