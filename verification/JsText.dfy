// JavaScript string operations the program uses: whitespace as in ECMAScript's WhiteSpace and
// LineTerminator, trim, trimStart, trimEnd, lastIndexOf. A string is a sequence of chars.
module JsText {

  predicate IsSpace(c: char) {
    c == ' ' || '\t' <= c <= '\r' || c == '\U{00A0}' || c == '\U{1680}' || '\U{2000}' <= c <= '\U{200A}'
    || c == '\U{2028}' || c == '\U{2029}' || c == '\U{202F}' || c == '\U{205F}' || c == '\U{3000}' || c == '\U{FEFF}'
  }

  ghost predicate AllSpace(s: string) { forall i :: 0 <= i < |s| ==> IsSpace(s[i]) }

  function TrimStart(s: string): (r: string)
    ensures |r| <= |s|
  {
    if s == [] || !IsSpace(s[0]) then s else TrimStart(s[1..])
  }

  // What is left is a suffix without leading white space, behind white space only.
  lemma {:induction false} TrimStartIs(s: string, r: string)
    requires r == TrimStart(s)
    ensures |r| <= |s| && s[|s| - |r|..] == r && AllSpace(s[..|s| - |r|])
    ensures r != [] ==> !IsSpace(r[0])
    decreases |s|
  {
    if s != [] && IsSpace(s[0]) {
      TrimStartIs(s[1..], r);
      var n := |s| - 1 - |r|;
      DropDrop(s, 1, n);
      var head, inner := s[..|s| - |r|], s[1..][..n];
      assert forall i :: 1 <= i < |head| ==> head[i] == inner[i - 1];
    }
  }

  function TrimEnd(s: string): (r: string)
    ensures |r| <= |s|
  {
    if s == [] || !IsSpace(s[|s| - 1]) then s else TrimEnd(s[..|s| - 1])
  }

  // What is left is a prefix without trailing white space, before white space only.
  lemma {:induction false} TrimEndIs(s: string, r: string)
    requires r == TrimEnd(s)
    ensures |r| <= |s| && s[..|r|] == r && AllSpace(s[|r|..])
    ensures r != [] ==> !IsSpace(r[|r| - 1])
    decreases |s|
  {
    if s != [] && IsSpace(s[|s| - 1]) {
      TrimEndIs(s[..|s| - 1], r);
      TakeTake(s, |s| - 1, |r|);
      assert forall i :: 0 <= i < |s| - 1 - |r| ==> s[|r|..][i] == s[..|s| - 1][|r|..][i];
    }
  }

  function Trim(s: string): string { TrimEnd(TrimStart(s)) }

  lemma TrimLeadingSpace(s: string)
    ensures Trim(" " + s) == Trim(s)
  {
    assert (" " + s)[1..] == s;
  }

  lemma TrimEndKeepsHead(s: string)
    requires s != [] && !IsSpace(s[0])
    ensures TrimEnd(s) != []
  {
    TrimEndIs(s, TrimEnd(s));
  }

  // White space by code point, as ECMAScript lists it.
  lemma SpacesAre(c: char)
    ensures IsSpace(c) <==>
              var n := c as int;
              9 <= n <= 13 || n == 32 || n == 160 || n == 5760 || 8192 <= n <= 8202
              || n == 8232 || n == 8233 || n == 8239 || n == 8287 || n == 12288 || n == 65279
  {
  }

  lemma {:induction false} TrimStartDrops(ws: string, s: string)
    requires AllSpace(ws) && (s == "" || !IsSpace(s[0]))
    ensures TrimStart(ws + s) == s
    decreases |ws|
  {
    if ws == "" {
      assert ws + s == s;
    } else {
      assert (ws + s)[1..] == ws[1..] + s;
      TrimStartDrops(ws[1..], s);
    }
  }

  lemma {:induction false} TrimEndDrops(s: string, ws: string)
    requires AllSpace(ws) && (s == "" || !IsSpace(s[|s| - 1]))
    ensures TrimEnd(s + ws) == s
    decreases |ws|
  {
    if ws == "" {
      assert s + ws == s;
    } else {
      var n := |ws| - 1;
      assert (s + ws)[|s| + n] == ws[n] && (s + ws)[..|s| + n] == s + ws[..n];
      TrimEndDrops(s, ws[..n]);
    }
  }

  // Trimming drops exactly the white space on both sides.
  lemma TrimDropsBoth(a: string, s: string, b: string)
    requires AllSpace(a) && AllSpace(b) && (s == "" || (!IsSpace(s[0]) && !IsSpace(s[|s| - 1])))
    ensures Trim(a + (s + b)) == s
  {
    if s == "" {
      assert a + (s + b) == (a + b) + "";
      assert forall i :: 0 <= i < |a + b| ==> IsSpace((a + b)[i]);
      TrimStartDrops(a + b, "");
    } else {
      assert (s + b)[0] == s[0];
      TrimStartDrops(a, s + b);
      TrimEndDrops(s, b);
    }
  }

  lemma DropDrop(s: string, a: nat, b: nat)
    requires a + b <= |s|
    ensures s[a..][b..] == s[a + b..]
  {
  }

  lemma TakeTake(s: string, a: nat, b: nat)
    requires b <= a <= |s|
    ensures s[..a][..b] == s[..b]
  {
  }

  lemma Assoc<T>(a: seq<T>, b: seq<T>, c: seq<T>)
    ensures (a + b) + c == a + (b + c)
  {
  }

  lemma HeadTail<T>(a: seq<T>, b: seq<T>)
    requires a != []
    ensures [a[0]] + (a[1..] + b) == a + b
  {
  }

  predicate MatchAt(s: string, pat: string, i: int) { 0 <= i && i + |pat| <= |s| && s[i..i + |pat|] == pat }

  // s.lastIndexOf(pat, from)
  function LastIndexOf(s: string, pat: string, from: int): (r: int)
    ensures r == -1 || (0 <= r <= from && MatchAt(s, pat, r))
    ensures forall i :: r < i <= from ==> !MatchAt(s, pat, i)
    decreases if from < 0 then 0 else from + 1
  {
    if from < 0 then -1 else if MatchAt(s, pat, from) then from else LastIndexOf(s, pat, from - 1)
  }

  // s.indexOf(c)
  function IndexOf(s: string, c: char): (r: int)
    ensures r == -1 || (0 <= r < |s| && s[r] == c)
    ensures forall i :: 0 <= i < (if r == -1 then |s| else r) ==> s[i] != c
  {
    if s == [] then -1
    else if s[0] == c then 0
    else
      var r := IndexOf(s[1..], c);
      if r == -1 then -1 else r + 1
  }

  function Concat(parts: seq<string>): string { if parts == [] then "" else parts[0] + Concat(parts[1..]) }
}
