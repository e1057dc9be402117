// Which sanitized texts still have a list bullet at the start of a line: none before the balancing steps
// strip anything, and afterwards exactly those where a stripped line starts with one.
module SanitizeBullets {
  import opened JsText
  import opened TelegramSanitize
  import opened SanitizePasses
  import TelegramSanitizeProof

  predicate IsMarker(c: char) { c == '-' || c == '+' }

  // A line start with only white space behind it goes on through c.
  predicate StillOpen(open: bool, c: char) { Terminator(c) || (open && IsSpace(c)) }

  // ---------------------------------------------------------------- bullets, reading past stripped characters

  predicate SpaceFollows(s: string, S: set<char>) {
    s != "" && if s[0] in S then SpaceFollows(s[1..], S) else IsSpace(s[0])
  }

  // Somewhere in s a line starts with a bullet, once the characters of S are left out; open says that s
  // itself is at the start of a line or behind its white space.
  predicate BulletIn(s: string, open: bool, S: set<char>) {
    s != "" &&
    if s[0] in S then BulletIn(s[1..], open, S)
    else (open && IsMarker(s[0]) && SpaceFollows(s[1..], S)) || BulletIn(s[1..], StillOpen(open, s[0]), S)
  }

  lemma {:induction false} OpenIsWorse(s: string, open: bool, S: set<char>)
    requires BulletIn(s, false, S)
    ensures BulletIn(s, open, S)
    decreases |s|
  {
    if s[0] in S {
      OpenIsWorse(s[1..], open, S);
    } else if BulletIn(s[1..], StillOpen(false, s[0]), S) && StillOpen(open, s[0]) != StillOpen(false, s[0]) {
      OpenIsWorse(s[1..], StillOpen(open, s[0]), S);
    }
  }

  // ---------------------------------------------------------------- the same, in terms of the bullet pattern

  lemma BulletAfterSpace(s: string)
    requires s != "" && IsSpace(s[0])
    ensures Bullet(s).1 > 0 <==> Bullet(s[1..]).1 > 0
  {
    var w := RunEnd(s, 0, IsSpace);
    NoBulletMeans(s, w);
    NoBulletMeans(s[1..], w - 1);
  }

  lemma BulletAtMarker(s: string)
    requires s != "" && !IsSpace(s[0])
    ensures Bullet(s).1 > 0 <==> IsMarker(s[0]) && SpaceFollows(s[1..], {})
  {
    NoBulletMeans(s, 0);
  }

  lemma {:induction false} BulletInIsPattern(s: string, open: bool)
    ensures BulletIn(s, open, {}) <==> !NoLineStarts(s, open, BulletEnd)
    decreases |s|
  {
    if s != "" {
      BulletInIsPattern(s[1..], StillOpen(open, s[0]));
      if IsSpace(s[0]) { BulletAfterSpace(s); } else { BulletAtMarker(s); }
    }
  }

  // ---------------------------------------------------------------- rules and pairs bring no bullet

  lemma {:induction false} RulesBringNone(s: string, atStart: bool, open: bool)
    requires !BulletIn(s, open, {})
    ensures !BulletIn(Rules(s, atStart), open, {})
    decreases |s|
  {
    if s != "" {
      var e := RuleEnd(s);
      if atStart && e > 0 {
        DropBullet(s, open, e);
        RulesBringNone(s[e..], false, false);
        WrittenRuleHasNone(Rules(s[e..], false), open);
      } else {
        RulesBringNone(s[1..], Terminator(s[0]), StillOpen(open, s[0]));
        KeepFirst(s, Rules(s[1..], Terminator(s[0])), open);
      }
    }
  }

  // What follows a bullet-free text's first characters is bullet-free in the middle of a line.
  lemma {:induction false} DropBullet(s: string, open: bool, n: nat)
    requires !BulletIn(s, open, {}) && n <= |s|
    ensures !BulletIn(s[n..], false, {})
    decreases n
  {
    if n == 0 {
      assert s[0..] == s;
      if BulletIn(s, false, {}) { OpenIsWorse(s, open, {}); }
    } else {
      DropDrop(s, 1, n - 1);
      DropBullet(s[1..], StillOpen(open, s[0]), n - 1);
    }
  }

  lemma WrittenRuleHasNone(rest: string, open: bool)
    requires !BulletIn(rest, false, {})
    ensures !BulletIn("\U{23AF}\U{23AF}\U{23AF}" + rest, open, {})
  {
    var t := "\U{23AF}\U{23AF}\U{23AF}" + rest;
    assert t[1..][1..][1..] == rest;
    assert !BulletIn(t[1..][1..], false, {});
    assert !BulletIn(t[1..], false, {});
  }

  // A character is kept in front of a rest that brings no bullet and, behind a marker, starts alike.
  lemma KeepFirst(s: string, rest: string, open: bool)
    requires s != "" && !BulletIn(s, open, {}) && !BulletIn(rest, StillOpen(open, s[0]), {})
    requires IsMarker(s[0]) && rest != "" ==> |s| > 1 && rest[0] == s[1]
    ensures !BulletIn([s[0]] + rest, open, {})
  {
    assert ([s[0]] + rest)[1..] == rest;
  }

  lemma PairsStartAlike(s: string, c: char)
    requires s != ""
    ensures Pairs(s, c) != "" && Pairs(s, c)[0] == s[0]
  {
  }

  // A character that is neither white space nor a marker parts a text in two.
  lemma {:induction false} PartedBy(x: string, c: char, rest: string, open: bool)
    requires !IsSpace(c) && !IsMarker(c)
    ensures BulletIn(x + ([c] + rest), open, {}) <==> BulletIn(x + [c], open, {}) || BulletIn(rest, false, {})
    decreases |x|
  {
    var t := x + ([c] + rest);
    if x == "" {
      assert t[1..] == rest && (x + [c])[1..] == "";
    } else {
      assert t[1..] == x[1..] + ([c] + rest) && (x + [c])[1..] == x[1..] + [c];
      assert (x[1..] + ([c] + rest))[0] == (x[1..] + [c])[0];
      PartedBy(x[1..], c, rest, StillOpen(open, x[0]));
    }
  }

  lemma PairHasNone(x: string, c: char, tail: string, rest: string, open: bool)
    requires !IsSpace(c) && !IsMarker(c)
    requires !BulletIn([c] + ([c] + (x + ([c] + ([c] + tail)))), open, {}) && !BulletIn(rest, false, {})
    ensures !BulletIn([c] + (x + ([c] + rest)), open, {})
  {
    assert ([c] + ([c] + (x + ([c] + ([c] + tail)))))[1..] == [c] + (x + ([c] + ([c] + tail)));
    assert ([c] + (x + ([c] + ([c] + tail))))[1..] == x + ([c] + ([c] + tail));
    PartedBy(x, c, [c] + tail, false);
    PartedBy(x, c, rest, false);
    assert ([c] + (x + ([c] + rest)))[1..] == x + ([c] + rest);
  }

  lemma PairParts(s: string, c: char, e: nat, rest: string)
    requires 2 <= e && e + 2 <= |s| && s[0] == s[1] == s[e] == s[e + 1] == c
    ensures s == [c] + ([c] + (s[2..e] + ([c] + ([c] + s[e + 2..]))))
    ensures [c] + s[2..e] + [c] + rest == [c] + (s[2..e] + ([c] + rest))
  {
  }

  lemma {:induction false} PairsBringNone(s: string, c: char, open: bool)
    requires !BulletIn(s, open, {}) && !IsSpace(c) && !IsMarker(c)
    ensures !BulletIn(Pairs(s, c), open, {})
    decreases |s|
  {
    if s != "" {
      var e := PairEnd(s, c);
      if e > 0 {
        var x, tail := s[2..e], s[e + 2..];
        DropBullet(s, open, e + 2);
        PairsBringNone(tail, c, false);
        PairParts(s, c, e, Pairs(tail, c));
        PairHasNone(x, c, tail, Pairs(tail, c), open);
      } else {
        PairsBringNone(s[1..], c, StillOpen(open, s[0]));
        if |s| > 1 { PairsStartAlike(s[1..], c); }
        KeepFirst(s, Pairs(s[1..], c), open);
      }
    }
  }

  // The text in front of the two balancing steps.
  function Unbalanced(s: string): string { Pairs(Pairs(Rules(Bullets(s, true), true), '*'), '_') }

  // Until something is stripped, no line starts with a list bullet.
  lemma NoBulletBeforeBalancing(s: string)
    ensures !BulletIn(Unbalanced(s), true, {})
    ensures NoLineStarts(Unbalanced(s), true, BulletEnd)
  {
    BulletsLeaveNone(s, true);
    BulletInIsPattern(Bullets(s, true), true);
    RulesBringNone(Bullets(s, true), true, true);
    PairsBringNone(Rules(Bullets(s, true), true), '*', true);
    PairsBringNone(Pairs(Rules(Bullets(s, true), true), '*'), '_', true);
    BulletInIsPattern(Unbalanced(s), true);
  }

  // ---------------------------------------------------------------- stripping

  function Without(s: string, S: set<char>): string {
    if s == "" then "" else if s[0] in S then Without(s[1..], S) else [s[0]] + Without(s[1..], S)
  }

  lemma {:induction false} StripIsWithout(s: string, a: char, b: char)
    ensures Strip(s, a, b) == Without(s, {a, b})
    decreases |s|
  {
    if s != "" { StripIsWithout(s[1..], a, b); }
  }

  lemma {:induction false} WithoutBoth(s: string, S: set<char>, T: set<char>)
    ensures Without(Without(s, S), T) == Without(s, S + T)
    decreases |s|
  {
    if s != "" {
      WithoutBoth(s[1..], S, T);
      if s[0] !in S { assert ([s[0]] + Without(s[1..], S))[1..] == Without(s[1..], S); }
    }
  }

  lemma {:induction false} WithoutNone(s: string)
    ensures Without(s, {}) == s
    decreases |s|
  {
    if s != "" {
      WithoutNone(s[1..]);
      assert s == [s[0]] + s[1..];
    }
  }

  predicate OddMarkers(s: string) { Count(s, '*') % 2 != 0 || Count(s, '_') % 2 != 0 }

  predicate UnequalBrackets(s: string) { Count(s, '[') != Count(s, ']') }

  function Stripped(s: string): set<char> {
    (if OddMarkers(s) then {'*', '_'} else {}) + (if UnequalBrackets(s) then {'[', ']'} else {})
  }

  // The two balancing steps together leave out the characters whose counts are off.
  lemma BalancingStrips(s: string)
    ensures BalanceBrackets(BalanceMarkers(s)) == Without(s, Stripped(s))
  {
    var M: set<char> := if OddMarkers(s) then {'*', '_'} else {};
    var B: set<char> := if UnequalBrackets(s) then {'[', ']'} else {};
    MarkersKeepBrackets(s);
    StripIsWithout(s, '*', '_');
    WithoutNone(s);
    assert BalanceMarkers(s) == Without(s, M);
    StripIsWithout(BalanceMarkers(s), '[', ']');
    WithoutNone(BalanceMarkers(s));
    WithoutBoth(s, M, B);
  }

  lemma MarkersKeepBrackets(s: string)
    ensures UnequalBrackets(BalanceMarkers(s)) <==> UnequalBrackets(s)
  {
    TelegramSanitizeProof.StripCounts(s, '*', '_', '[');
    TelegramSanitizeProof.StripCounts(s, '*', '_', ']');
  }

  lemma {:induction false} SpaceFollowsWithout(s: string, S: set<char>)
    ensures SpaceFollows(Without(s, S), {}) <==> SpaceFollows(s, S)
    decreases |s|
  {
    if s != "" && s[0] in S { SpaceFollowsWithout(s[1..], S); }
  }

  lemma {:induction false} BulletInWithout(s: string, open: bool, S: set<char>)
    ensures BulletIn(Without(s, S), open, {}) <==> BulletIn(s, open, S)
    decreases |s|
  {
    if s != "" {
      if s[0] in S {
        BulletInWithout(s[1..], open, S);
      } else {
        BulletInWithout(s[1..], StillOpen(open, s[0]), S);
        SpaceFollowsWithout(s[1..], S);
        assert ([s[0]] + Without(s[1..], S))[1..] == Without(s[1..], S);
      }
    }
  }

  // ---------------------------------------------------------------- where in the text

  // From the line start i on, white space and characters of S up to a marker j, behind it characters of
  // S up to white space at k.
  ghost predicate BulletAt(s: string, open: bool, S: set<char>, i: nat, j: nat, k: nat) {
    && i <= j < k < |s| && (if i == 0 then open else Terminator(s[i - 1]))
    && (forall x :: i <= x < j ==> IsSpace(s[x]) || s[x] in S) && IsMarker(s[j])
    && (forall x :: j < x < k ==> s[x] in S) && IsSpace(s[k])
  }

  ghost predicate Inert(S: set<char>) { forall c :: c in S ==> !IsSpace(c) && !IsMarker(c) }

  lemma {:induction false} SpaceFollowsAt(s: string, S: set<char>) returns (k: nat)
    requires SpaceFollows(s, S)
    ensures k < |s| && (forall x :: 0 <= x < k ==> s[x] in S) && IsSpace(s[k])
    decreases |s|
  {
    if s[0] in S {
      var k1 := SpaceFollowsAt(s[1..], S);
      k := k1 + 1;
      assert forall x :: 1 <= x < |s| ==> s[x] == s[1..][x - 1];
    } else {
      k := 0;
    }
  }

  lemma {:induction false} FindBullet(s: string, open: bool, S: set<char>) returns (i: nat, j: nat, k: nat)
    requires BulletIn(s, open, S) && Inert(S)
    ensures BulletAt(s, open, S, i, j, k)
    decreases |s|
  {
    assert forall x :: 1 <= x < |s| ==> s[x] == s[1..][x - 1];
    if s[0] !in S && open && IsMarker(s[0]) && SpaceFollows(s[1..], S) {
      var k1 := SpaceFollowsAt(s[1..], S);
      i, j, k := 0, 0, k1 + 1;
    } else {
      var i1, j1, k1 := FindBullet(s[1..], if s[0] in S then open else StillOpen(open, s[0]), S);
      i := if i1 == 0 && !(s[0] !in S && Terminator(s[0])) then 0 else i1 + 1;
      j, k := j1 + 1, k1 + 1;
    }
  }

  lemma {:induction false} SpaceAt(s: string, S: set<char>, k: nat)
    requires k < |s| && (forall x :: 0 <= x < k ==> s[x] in S) && IsSpace(s[k]) && Inert(S)
    ensures SpaceFollows(s, S)
    decreases k
  {
    if k > 0 { SpaceAt(s[1..], S, k - 1); }
  }

  lemma {:induction false} BulletAtIsIn(s: string, open: bool, S: set<char>, i: nat, j: nat, k: nat)
    requires BulletAt(s, open, S, i, j, k) && Inert(S)
    ensures BulletIn(s, open, S)
    decreases |s|
  {
    assert forall x :: 0 <= x < |s| - 1 ==> s[1..][x] == s[x + 1];
    if j == 0 {
      SpaceAt(s[1..], S, k - 1);
    } else {
      var later := if s[0] in S then open else StillOpen(open, s[0]);
      BulletAtIsIn(s[1..], later, S, if i == 0 then 0 else i - 1, j - 1, k - 1);
    }
  }

  lemma StrippedIsInert(t: string)
    ensures Inert(Stripped(t))
  {
  }

  lemma BulletPlaces(t: string, open: bool, S: set<char>)
    requires Inert(S)
    ensures BulletIn(t, open, S) <==> exists i: nat, j: nat, k: nat :: BulletAt(t, open, S, i, j, k)
  {
    if BulletIn(t, open, S) {
      var i, j, k := FindBullet(t, open, S);
    }
    if i: nat, j: nat, k: nat :| BulletAt(t, open, S, i, j, k) {
      BulletAtIsIn(t, open, S, i, j, k);
    }
  }

  // A sanitized text has a line that starts with a list bullet if and only if a balancing step strips
  // something and, in the text in front of it, some line reads white space, a marker and white space once
  // the stripped characters are left out.
  lemma BulletExactlyWhen(s: string, t: string)
    requires t == Unbalanced(s)
    ensures !NoLineStarts(Rewrite(s), true, BulletEnd)
            <==> (OddMarkers(t) || UnequalBrackets(t))
                 && exists i: nat, j: nat, k: nat :: BulletAt(t, true, Stripped(t), i, j, k)
  {
    NoBulletBeforeBalancing(s);
    BalancingStrips(t);
    BulletInIsPattern(Rewrite(s), true);
    BulletInWithout(t, true, Stripped(t));
    StrippedIsInert(t);
    BulletPlaces(t, true, Stripped(t));
  }

  // With even marker counts and equal bracket counts no bullet is left.
  lemma BalancedTextHasNone(s: string)
    requires !OddMarkers(Unbalanced(s)) && !UnequalBrackets(Unbalanced(s))
    ensures NoLineStarts(Rewrite(s), true, BulletEnd)
  {
    BulletExactlyWhen(s, Unbalanced(s));
  }
}
