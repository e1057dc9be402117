// What each rewriting pass of the Telegram sanitizer achieves by itself.
module SanitizePasses {
  import opened JsText
  import opened TelegramSanitize
  import opened TelegramSanitizeProof

  // No line of t starts with what `end` finds; atStart says whether t itself starts a line.
  ghost predicate NoLineStarts(t: string, atStart: bool, end: string -> nat)
    decreases |t|
  {
    (atStart ==> end(t) == 0) && (t != "" ==> NoLineStarts(t[1..], Terminator(t[0]), end))
  }

  // The same, position by position.
  lemma {:induction false} NoLineStartsAt(t: string, atStart: bool, end: string -> nat, i: nat)
    requires NoLineStarts(t, atStart, end) && i <= |t| && (if i == 0 then atStart else Terminator(t[i - 1]))
    ensures end(t[i..]) == 0
    decreases i
  {
    if i == 0 {
      assert t[0..] == t;
    } else {
      DropDrop(t, 1, i - 1);
      NoLineStartsAt(t[1..], Terminator(t[0]), end, i - 1);
    }
  }

  lemma NoLineStartsCons(c: char, rest: string, atStart: bool, end: string -> nat)
    requires NoLineStarts(rest, Terminator(c), end) && (atStart ==> end([c] + rest) == 0)
    ensures NoLineStarts([c] + rest, atStart, end)
  {
    assert ([c] + rest)[1..] == rest;
  }

  lemma NotAtStart(rest: string, atStart: bool, end: string -> nat)
    requires NoLineStarts(rest, atStart, end)
    ensures NoLineStarts(rest, false, end)
  {
  }

  lemma RunEndIs(s: string, k: nat, p: char -> bool, e: nat)
    requires k <= e <= |s| && (forall i :: k <= i < e ==> p(s[i])) && (e < |s| ==> !p(s[e]))
    ensures RunEnd(s, k, p) == e
  {
  }

  // ---------------------------------------------------------------- bullets

  // Where white space ends in a text that does not start with a bullet, what follows is no marker with
  // white space behind it.
  ghost predicate NoMarkerAt(s: string, w: nat) {
    w <= |s| && (forall i :: 0 <= i < w ==> IsSpace(s[i])) && (w < |s| ==> !IsSpace(s[w]))
    && (w + 1 < |s| && (s[w] == '-' || s[w] == '+') ==> !IsSpace(s[w + 1]))
  }

  lemma NoBulletMeans(s: string, w: nat)
    requires w <= |s| && (forall i :: 0 <= i < w ==> IsSpace(s[i])) && (w < |s| ==> !IsSpace(s[w]))
    ensures Bullet(s).1 == 0 <==> NoMarkerAt(s, w)
  {
    RunEndIs(s, 0, IsSpace, w);
    if w + 1 < |s| && IsSpace(s[w + 1]) {
      assert RunEnd(s, w + 1, IsSpace) > w + 1;
    }
  }

  // The pass leaves such a start as it is.
  lemma {:induction false} KeepsNoMarker(s: string, w: nat, atStart: bool)
    requires NoMarkerAt(s, w)
    ensures NoMarkerAt(Bullets(s, atStart), w)
    ensures w < |s| ==> w < |Bullets(s, atStart)| && Bullets(s, atStart)[w] == s[w]
    decreases |s|
  {
    NoBulletMeans(s, w);
    if w > 0 {
      assert NoMarkerAt(s[1..], w - 1);
      KeepsNoMarker(s[1..], w - 1, Terminator(s[0]));
    } else if |s| > 1 && (s[0] == '-' || s[0] == '+') {
      assert NoMarkerAt(s[1..], 0) || s[1] == '-' || s[1] == '+';
      assert Bullets(s[1..], false)[0] == s[1];
    }
  }

  function BulletEnd(s: string): nat { Bullet(s).1 }

  // The white space in front of a written bullet holds no bullet either.
  lemma {:induction false} WrittenBullet(ws: string, rest: string, atStart: bool)
    requires (forall j :: 0 <= j < |ws| ==> IsSpace(ws[j])) && NoLineStarts(rest, false, BulletEnd)
    ensures NoLineStarts(ws + ("\U{2022} " + rest), atStart, BulletEnd)
    decreases |ws|
  {
    var t := ws + ("\U{2022} " + rest);
    NoBulletMeans(t, |ws|);
    if ws == "" {
      assert t == ['\U{2022}'] + ([' '] + rest);
      NoLineStartsCons(' ', rest, false, BulletEnd);
      NoLineStartsCons('\U{2022}', [' '] + rest, atStart, BulletEnd);
    } else {
      WrittenBullet(ws[1..], rest, Terminator(ws[0]));
      HeadTail(ws, "\U{2022} " + rest);
      NoLineStartsCons(ws[0], ws[1..] + ("\U{2022} " + rest), atStart, BulletEnd);
    }
  }

  lemma WithoutBullet(s: string)
    requires s != "" && Bullet(s).1 == 0
    ensures Bullet(Bullets(s, true)).1 == 0
  {
    var w := RunEnd(s, 0, IsSpace);
    NoBulletMeans(s, w);
    KeepsNoMarker(s, w, true);
    NoBulletMeans(Bullets(s, true), w);
  }

  // After the pass no line starts with a list bullet.
  lemma {:induction false} BulletsLeaveNone(s: string, atStart: bool)
    ensures NoLineStarts(Bullets(s, atStart), atStart, BulletEnd)
    decreases |s|
  {
    if s != "" {
      if atStart && Bullet(s).1 > 0 {
        var (w, x) := Bullet(s);
        var rest := Bullets(s[x..], Terminator(s[x - 1]));
        BulletsLeaveNone(s[x..], Terminator(s[x - 1]));
        NotAtStart(rest, Terminator(s[x - 1]), BulletEnd);
        WrittenBullet(s[..w], rest, atStart);
        Assoc(s[..w], "\U{2022} ", rest);
      } else {
        BulletsLeaveNone(s[1..], Terminator(s[0]));
        if atStart { WithoutBullet(s); }
        NoLineStartsCons(s[0], Bullets(s[1..], Terminator(s[0])), atStart, BulletEnd);
      }
    }
  }

  // ---------------------------------------------------------------- rules

  // The first n characters of s are its first line.
  ghost predicate LineEndsAt(s: string, n: nat) {
    n <= |s| && (forall i :: 0 <= i < n ==> !Terminator(s[i])) && (n < |s| ==> Terminator(s[n]))
  }

  lemma FirstLine(s: string) returns (n: nat)
    ensures LineEndsAt(s, n)
  {
    n := 0;
    while n < |s| && !Terminator(s[n])
      invariant n <= |s| && forall i :: 0 <= i < n ==> !Terminator(s[i])
    {
      n := n + 1;
    }
  }

  lemma RunInLine(s: string, t: string, n: nat, k: nat, p: char -> bool)
    requires LineEndsAt(s, n) && LineEndsAt(t, n) && s[..n] == t[..n] && k <= n
    requires forall c :: Terminator(c) ==> !p(c)
    ensures RunEnd(s, k, p) == RunEnd(t, k, p) <= n
  {
    assert forall i :: 0 <= i < n ==> s[i] == s[..n][i] && t[i] == t[..n][i];
    RunEndIs(t, k, p, RunEnd(s, k, p));
  }

  lemma RuleEndIs(s: string, a: nat, b: nat, e: nat)
    requires a <= |s| && b <= |s| && a == RunEnd(s, 0, IsBlankOrTab)
    requires b == RunEnd(s, a, IsRuleMark) && e == RunEnd(s, b, IsBlankOrTab)
    ensures RuleEnd(s) == if b - a >= 3 && (e == |s| || Terminator(s[e])) then e else 0
  {
  }

  // Whether a text starts with a rule depends on its first line only.
  lemma RuleIsInItsLine(s: string, t: string, n: nat)
    requires LineEndsAt(s, n) && LineEndsAt(t, n) && s[..n] == t[..n]
    ensures RuleEnd(s) == RuleEnd(t)
  {
    var a := RunEnd(s, 0, IsBlankOrTab);
    RunInLine(s, t, n, 0, IsBlankOrTab);
    var b := RunEnd(s, a, IsRuleMark);
    RunInLine(s, t, n, a, IsRuleMark);
    var e := RunEnd(s, b, IsBlankOrTab);
    RunInLine(s, t, n, b, IsBlankOrTab);
    RuleEndIs(s, a, b, e);
    RuleEndIs(t, a, b, e);
    assert e < n ==> s[e] == s[..n][e] && t[e] == t[..n][e];
  }

  // A first line that is no rule is left as it is.
  lemma {:induction false} RulesKeepLine(s: string, atStart: bool, n: nat)
    requires LineEndsAt(s, n) && (atStart ==> RuleEnd(s) == 0)
    ensures LineEndsAt(Rules(s, atStart), n) && Rules(s, atStart)[..n] == s[..n]
    decreases |s|
  {
    if n > 0 {
      assert LineEndsAt(s[1..], n - 1);
      RulesKeepLine(s[1..], false, n - 1);
      assert s[..n] == [s[0]] + s[1..][..n - 1];
    }
  }

  lemma WithoutRule(s: string)
    requires RuleEnd(s) == 0
    ensures RuleEnd(Rules(s, true)) == 0
  {
    var n := FirstLine(s);
    RulesKeepLine(s, true, n);
    RuleIsInItsLine(s, Rules(s, true), n);
  }

  lemma WrittenRule(rest: string, atStart: bool)
    requires NoLineStarts(rest, false, RuleEnd)
    ensures NoLineStarts("\U{23AF}\U{23AF}\U{23AF}" + rest, atStart, RuleEnd)
  {
    var line := '\U{23AF}';
    var t := [line] + ([line] + ([line] + rest));
    assert "\U{23AF}\U{23AF}\U{23AF}" + rest == t;
    RunEndIs(t, 0, IsBlankOrTab, 0);
    RunEndIs(t, 0, IsRuleMark, 0);
    NoLineStartsCons(line, rest, false, RuleEnd);
    NoLineStartsCons(line, [line] + rest, false, RuleEnd);
    NoLineStartsCons(line, [line] + ([line] + rest), atStart, RuleEnd);
  }

  // After the pass no line is a horizontal rule.
  lemma {:induction false} RulesLeaveNone(s: string, atStart: bool)
    ensures NoLineStarts(Rules(s, atStart), atStart, RuleEnd)
    decreases |s|
  {
    if s != "" {
      var e := RuleEnd(s);
      if atStart && e > 0 {
        RulesLeaveNone(s[e..], false);
        WrittenRule(Rules(s[e..], false), atStart);
      } else {
        RulesLeaveNone(s[1..], Terminator(s[0]));
        if atStart { WithoutRule(s); }
        NoLineStartsCons(s[0], Rules(s[1..], Terminator(s[0])), atStart, RuleEnd);
      }
    }
  }

  // ---------------------------------------------------------------- paired markers

  // The pass turns a doubled pair into a single one, wherever the first doubled c stands.
  lemma {:induction false} PairsDowngrade(a: string, x: string, b: string, c: char)
    requires c !in a && c !in x && '\n' !in x && x != ""
    ensures Pairs(a + ([c, c] + x + [c, c] + b), c) == a + ([c] + x + [c] + Pairs(b, c))
    decreases |a|
  {
    var s := a + ([c, c] + x + [c, c] + b);
    if a == "" {
      var e := |x| + 2;
      assert s[2..e] == x && s[e] == c && s[e + 1] == c && s[e + 2..] == b;
      RunEndIs(s, 2, y => y != c && y != '\n', e);
      assert PairEnd(s, c) == e;
    } else {
      assert s[1..] == a[1..] + ([c, c] + x + [c, c] + b);
      PairsDowngrade(a[1..], x, b, c);
      HeadTail(a, [c] + x + [c] + Pairs(b, c));
    }
  }

  // A line without a bullet, a rule or a doubled marker passes unchanged.
  lemma {:induction false} PlainLine(s: string, c: char)
    requires forall i :: 0 <= i < |s| ==> !Terminator(s[i])
    requires forall i :: 0 <= i < |s| - 1 ==> s[i] != s[i + 1]
    ensures Bullets(s, false) == s && Rules(s, false) == s && Pairs(s, c) == s
    decreases |s|
  {
    if s != "" {
      PlainLine(s[1..], c);
      assert s == [s[0]] + s[1..];
    }
  }

  lemma StarFirst(s: string)
    requires |s| > 1 && s[0] == '*' && s[1] == '-' && |s| > 2 && s[2] == ' '
    ensures Bullet(s).1 == 0 && RuleEnd(s) == 0
  {
    NoBulletMeans(s, 0);
    RunEndIs(s, 0, IsBlankOrTab, 0);
    RunEndIs(s, 0, IsRuleMark, 2);
  }

  lemma {:induction false} StripNone(s: string, a: char, b: char)
    requires a !in s && b !in s
    ensures Strip(s, a, b) == s
    decreases |s|
  {
    if s != "" {
      StripNone(s[1..], a, b);
      assert s == [s[0]] + s[1..];
    }
  }

  lemma LoneStar(t: string)
    requires '*' !in t && '_' !in t && '[' !in t && ']' !in t
    ensures BalanceBrackets(BalanceMarkers(['*'] + t)) == t
  {
    var s := ['*'] + t;
    assert s[1..] == t;
    CountNone(t, '*');
    CountNone(t, '[');
    CountNone(t, ']');
    StripNone(t, '*', '_');
    assert Count(s, '*') == 1 && Strip(s, '*', '_') == t;
  }

  lemma DashIsBullet(t: string)
    requires |t| > 1 && t[0] == '-' && t[1] == ' '
    ensures Bullet(t).1 > 0
  {
    RunEndIs(t, 0, IsSpace, 0);
    assert RunEnd(t, 1, IsSpace) > 1;
  }

  lemma LoneStarPasses(s: string)
    requires |s| > 3 && s[0] == '*' && s[1] == '-' && s[2] == ' '
    requires forall i :: 0 <= i < |s| ==> !Terminator(s[i])
    requires forall i :: 0 <= i < |s| - 1 ==> s[i] != s[i + 1]
    ensures Pairs(Pairs(Rules(Bullets(s, true), true), '*'), '_') == s
  {
    StarFirst(s);
    PlainLine(s[1..], '*');
    PlainLine(s, '*');
    PlainLine(s, '_');
    assert s == [s[0]] + s[1..];
    assert Bullets(s, true) == s && Rules(s, true) == s;
  }

  // Stripping the unbalanced markers can bring a bullet back to the start of a line: "*- x" becomes "- x".
  lemma StrippingBringsBulletBack(t: string)
    requires |t| == 3 && t[0] == '-' && t[1] == ' ' && t[2] == 'x'
    ensures Bullet(['*'] + t).1 == 0 && Rewrite(['*'] + t) == t && Bullet(t).1 > 0
  {
    StarFirst(['*'] + t);
    LoneStarPasses(['*'] + t);
    LoneStar(t);
    DashIsBullet(t);
  }
}
