// src/channels/telegram-markdown-sanitize.ts: masking code, rewriting the rest for Telegram's legacy
// Markdown, and putting the code back.
//
// The regular expressions are written out: each has at most one match at a position, which the
// functions below find, and a global replace scans from left to right and goes on after each match.
module TelegramSanitize {
  import opened JsText
  import opened SanitizeEdits

  // The end of the run of characters satisfying p that starts at k.
  function RunEnd(s: string, k: nat, p: char -> bool): (e: nat)
    requires k <= |s|
    ensures k <= e <= |s|
    ensures forall i :: k <= i < e ==> p(s[i])
    ensures e < |s| ==> !p(s[e])
    decreases |s| - k
  {
    if k == |s| || !p(s[k]) then k else RunEnd(s, k + 1, p)
  }

  predicate Terminator(c: char) { c == '\n' || c == '\r' || c == '\U{2028}' || c == '\U{2029}' }

  // ---------------------------------------------------------------- masking code

  const FENCE := "```"

  function FenceAfter(s: string, k: nat): (j: nat)
    requires k <= |s|
    ensures k <= j <= |s| && (j < |s| ==> MatchAt(s, FENCE, j))
    ensures forall i :: k <= i < j ==> !MatchAt(s, FENCE, i)
    decreases |s| - k
  {
    if k == |s| || MatchAt(s, FENCE, k) then k else FenceAfter(s, k + 1)
  }

  // Where the inline code that starts s ends; 0 if none does.
  function InlineEnd(s: string): (e: nat)
    ensures e <= |s|
  {
    if s == "" || s[0] != '`' then 0
    else
      var e := RunEnd(s, 1, c => c != '`' && c != '\n');
      if e < |s| && s[e] == '`' then e + 1 else 0
  }

  // Where the code segment that starts s ends: a fenced block if it is closed, inline code otherwise.
  function CodeEnd(s: string): (e: nat)
    ensures e <= |s|
  {
    if MatchAt(s, FENCE, 0) && FenceAfter(s, 3) < |s| then FenceAfter(s, 3) + 3 else InlineEnd(s)
  }

  function Segments(s: string): seq<string>
    decreases |s|
  {
    if s == "" then []
    else if CodeEnd(s) > 0 then [s[..CodeEnd(s)]] + Segments(s[CodeEnd(s)..])
    else Segments(s[1..])
  }

  // The text before, between and after the code segments.
  function Gaps(s: string): (g: seq<string>)
    ensures |g| == |Segments(s)| + 1
    decreases |s|
  {
    if s == "" then [""]
    else if CodeEnd(s) > 0 then [""] + Gaps(s[CodeEnd(s)..])
    else
      var g := Gaps(s[1..]);
      [[s[0]] + g[0]] + g[1..]
  }

  const NUL: char := '\0'

  function Decimal(n: nat): string {
    var d := ['0', '1', '2', '3', '4', '5', '6', '7', '8', '9'][n % 10];
    if n < 10 then [d] else Decimal(n / 10) + [d]
  }

  function Placeholder(n: nat): string { [NUL] + "CODE" + Decimal(n) + [NUL] }

  function Mask(s: string, n: nat): string
    decreases |s|
  {
    if s == "" then ""
    else if CodeEnd(s) > 0 then Placeholder(n) + Mask(s[CodeEnd(s)..], n + 1)
    else [s[0]] + Mask(s[1..], n)
  }

  // ---------------------------------------------------------------- the rewriting passes

  // /^(\s*)[-+]\s+/: where the white space before the bullet and the match end; (0, 0) if there is none.
  function Bullet(s: string): (r: (nat, nat))
    ensures r.1 > 0 ==> r.0 < r.1 <= |s|
  {
    var w := RunEnd(s, 0, IsSpace);
    if w < |s| && (s[w] == '-' || s[w] == '+') && RunEnd(s, w + 1, IsSpace) > w + 1 then (w, RunEnd(s, w + 1, IsSpace))
    else (0, 0)
  }

  function Bullets(s: string, atStart: bool): string
    decreases |s|
  {
    if s == "" then ""
    else if atStart && Bullet(s).1 > 0 then
      s[..Bullet(s).0] + "\U{2022} " + Bullets(s[Bullet(s).1..], Terminator(s[Bullet(s).1 - 1]))
    else [s[0]] + Bullets(s[1..], Terminator(s[0]))
  }

  predicate IsBlankOrTab(c: char) { c == ' ' || c == '\t' }

  predicate IsRuleMark(c: char) { c == '-' || c == '_' || c == '*' }

  // /^[ \t]*[-_*]{3,}[ \t]*$/: where the match ends; 0 if there is none.
  function RuleEnd(s: string): (e: nat)
    ensures e <= |s|
  {
    var a := RunEnd(s, 0, IsBlankOrTab);
    var b := RunEnd(s, a, IsRuleMark);
    var e := RunEnd(s, b, IsBlankOrTab);
    if b - a >= 3 && (e == |s| || Terminator(s[e])) then e else 0
  }

  function Rules(s: string, atStart: bool): string
    decreases |s|
  {
    if s == "" then ""
    else if atStart && RuleEnd(s) > 0 then "\U{23AF}\U{23AF}\U{23AF}" + Rules(s[RuleEnd(s)..], false)
    else [s[0]] + Rules(s[1..], Terminator(s[0]))
  }

  // Two c's, characters other than c and newline, two c's: where the second two start; 0 if there is none.
  function PairEnd(s: string, c: char): (e: nat)
    ensures e > 0 ==> 2 < e && e + 2 <= |s| && s[0] == s[1] == s[e] == s[e + 1] == c
  {
    if |s| < 2 || s[0] != c || s[1] != c then 0
    else
      var e := RunEnd(s, 2, x => x != c && x != '\n');
      if e > 2 && e + 2 <= |s| && s[e] == c && s[e + 1] == c then e else 0
  }

  function Pairs(s: string, c: char): string
    decreases |s|
  {
    if s == "" then ""
    else if PairEnd(s, c) > 0 then [c] + s[2..PairEnd(s, c)] + [c] + Pairs(s[PairEnd(s, c) + 2..], c)
    else [s[0]] + Pairs(s[1..], c)
  }

  function Count(s: string, c: char): nat {
    if s == "" then 0 else (if s[0] == c then 1 else 0) + Count(s[1..], c)
  }

  // Without the characters a and b.
  function Strip(s: string, a: char, b: char): string {
    if s == "" then "" else if s[0] == a || s[0] == b then Strip(s[1..], a, b) else [s[0]] + Strip(s[1..], a, b)
  }

  function BalanceMarkers(s: string): string {
    if Count(s, '*') % 2 != 0 || Count(s, '_') % 2 != 0 then Strip(s, '*', '_') else s
  }

  function BalanceBrackets(s: string): string {
    if Count(s, '[') != Count(s, ']') then Strip(s, '[', ']') else s
  }

  function Rewrite(s: string): string {
    BalanceBrackets(BalanceMarkers(Pairs(Pairs(Rules(Bullets(s, true), true), '*'), '_')))
  }

  // ---------------------------------------------------------------- putting the code back

  predicate IsDigit(c: char) { '0' <= c <= '9' }

  function Number(s: string): nat
    requires forall i :: 0 <= i < |s| ==> IsDigit(s[i])
    decreases |s|
  {
    if s == "" then 0 else assert IsDigit(s[|s| - 1]); Number(s[..|s| - 1]) * 10 + (s[|s| - 1] as int - '0' as int)
  }

  // Where the placeholder that starts s ends; 0 if none does.
  function PlaceholderEnd(s: string): (e: nat)
    ensures e <= |s|
    ensures e > 0 ==> e > 6 && forall i :: 5 <= i < e - 1 ==> IsDigit(s[i])
  {
    if MatchAt(s, [NUL] + "CODE", 0) then
      var e := RunEnd(s, 5, IsDigit);
      if e > 5 && e < |s| && s[e] == NUL then e + 1 else 0
    else 0
  }

  // What the callback returns: an index past the end of the array gives undefined, written out as text.
  function SegmentAt(segs: seq<string>, n: nat): string { if n < |segs| then segs[n] else "undefined" }

  function Restore(s: string, segs: seq<string>): string
    decreases |s|
  {
    if s == "" then ""
    else
      var e := PlaceholderEnd(s);
      if e > 0 then SegmentAt(segs, Number(s[5..e - 1])) + Restore(s[e..], segs)
      else [s[0]] + Restore(s[1..], segs)
  }

  function Sanitize(input: string): string {
    if input == "" then input else Restore(Rewrite(Mask(input, 0)), Segments(input))
  }

  lemma MaskStep(rest: string, n: nat, text: string, segs: seq<string>, e: nat)
    requires rest != "" && e == CodeEnd(rest)
    ensures e > 0 ==> text + Mask(rest, n) == (text + Placeholder(n)) + Mask(rest[e..], n + 1)
    ensures e > 0 ==> segs + Segments(rest) == (segs + [rest[..e]]) + Segments(rest[e..])
    ensures e == 0 ==>
            text + Mask(rest, n) == (text + [rest[0]]) + Mask(rest[1..], n) && Segments(rest) == Segments(rest[1..])
  {
    if e > 0 {
      Assoc(text, Placeholder(n), Mask(rest[e..], n + 1));
      Assoc(segs, [rest[..e]], Segments(rest[e..]));
    } else {
      Assoc(text, [rest[0]], Mask(rest[1..], n));
    }
  }

  // The replace with CODE_PATTERN and its callback; rest is what is still to be scanned.
  method MaskCode(input: string) returns (text: string, codeSegments: seq<string>)
    ensures text == Mask(input, 0) && codeSegments == Segments(input)
  {
    text, codeSegments := "", [];
    var rest := input;
    ghost var masked, segs := Mask(input, 0), Segments(input);
    while rest != ""
      invariant masked == text + Mask(rest, |codeSegments|)
      invariant segs == codeSegments + Segments(rest)
      decreases |rest|
    {
      var e := CodeEnd(rest);
      MaskStep(rest, |codeSegments|, text, codeSegments, e);
      if e > 0 {
        text := text + Placeholder(|codeSegments|);
        codeSegments := codeSegments + [rest[..e]];
        rest := rest[e..];
      } else {
        text := text + [rest[0]];
        rest := rest[1..];
      }
    }
  }

  method SanitizeTelegramLegacyMarkdown(input: string) returns (r: string)
    ensures r == Sanitize(input)
  {
    if input == "" { return input; }
    var text, codeSegments := MaskCode(input);
    text := Bullets(text, true);
    text := Rules(text, true);
    text := Pairs(text, '*');
    text := Pairs(text, '_');
    var starCount := Count(text, '*');
    var underCount := Count(text, '_');
    if starCount % 2 != 0 || underCount % 2 != 0 {
      text := Strip(text, '*', '_');
    }
    var openBrackets := Count(text, '[');
    var closeBrackets := Count(text, ']');
    if openBrackets != closeBrackets {
      text := Strip(text, '[', ']');
    }
    r := Restore(text, codeSegments);
  }
}
