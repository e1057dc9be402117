// What a rewriting pass of the Telegram sanitizer may do to a text: keep every visible character, in
// order and adjacent where it was adjacent, and replace white space and markup characters by others.
module SanitizeEdits {
  import opened JsText

  // White space, the markup characters the passes look at, and the characters they write.
  predicate Blank(c: char) {
    || IsSpace(c) || c == '-' || c == '+' || c == '*' || c == '_' || c == '[' || c == ']'
    || c == '\U{2022}' || c == '\U{23AF}'
  }

  ghost predicate AllBlank(s: string) { forall i :: 0 <= i < |s| ==> Blank(s[i]) }

  ghost predicate NoBlank(s: string) { forall i :: 0 <= i < |s| ==> !Blank(s[i]) }

  // The first character of t stays, or it is blank and becomes the first k characters of u.
  ghost predicate Edited(t: string, u: string)
    decreases |t|
  {
    if t == "" then u == "" else KeepsFirst(t, u) || exists k :: 0 <= k <= |u| && DropsFirst(t, u, k)
  }

  ghost predicate KeepsFirst(t: string, u: string)
    requires t != ""
    decreases |t|, 0
  {
    u != "" && u[0] == t[0] && Edited(t[1..], u[1..])
  }

  ghost predicate DropsFirst(t: string, u: string, k: nat)
    requires t != "" && k <= |u|
    decreases |t|, 0
  {
    Blank(t[0]) && AllBlank(u[..k]) && Edited(t[1..], u[k..])
  }

  lemma {:induction false} EditedRefl(t: string)
    ensures Edited(t, t)
    decreases |t|
  {
    if t != "" {
      EditedRefl(t[1..]);
      assert KeepsFirst(t, t);
    }
  }

  lemma {:induction false} EditedConcat(a: string, u: string, b: string, v: string)
    requires Edited(a, u) && Edited(b, v)
    ensures Edited(a + b, u + v)
    decreases |a|
  {
    if a == "" {
      assert a + b == b && u + v == v;
    } else {
      assert (a + b)[1..] == a[1..] + b;
      if KeepsFirst(a, u) {
        EditedConcat(a[1..], u[1..], b, v);
        assert (u + v)[1..] == u[1..] + v;
        assert KeepsFirst(a + b, u + v);
      } else {
        var k :| 0 <= k <= |u| && DropsFirst(a, u, k);
        EditedConcat(a[1..], u[k..], b, v);
        assert (u + v)[k..] == u[k..] + v && (u + v)[..k] == u[..k];
        assert DropsFirst(a + b, u + v, k);
      }
    }
  }

  lemma {:induction false} EditedAway(a: string)
    requires AllBlank(a)
    ensures Edited(a, "")
    decreases |a|
  {
    if a != "" {
      EditedAway(a[1..]);
      assert ""[0..] == "";
      assert DropsFirst(a, "", 0);
    }
  }

  lemma EditedBlank(a: string, u: string)
    requires a != "" && AllBlank(a) && AllBlank(u)
    ensures Edited(a, u)
  {
    EditedAway(a[1..]);
    assert u[|u|..] == "" && u[..|u|] == u;
    assert DropsFirst(a, u, |u|);
  }

  lemma SplitFirstKept(a: string, b: string, u: string, m: nat)
    requires a != "" && u != "" && u[0] == a[0] && m + 1 <= |u| && Edited(a[1..], u[1..][..m]) && Edited(b, u[1..][m..])
    ensures Edited(a, u[..m + 1]) && Edited(b, u[m + 1..])
  {
    assert u[..m + 1][1..] == u[1..][..m] && u[1..][m..] == u[m + 1..];
    assert KeepsFirst(a, u[..m + 1]);
  }

  lemma SplitFirstDropped(a: string, b: string, u: string, j: nat, m: nat)
    requires a != "" && Blank(a[0]) && j + m <= |u| && AllBlank(u[..j])
    requires Edited(a[1..], u[j..][..m]) && Edited(b, u[j..][m..])
    ensures Edited(a, u[..j + m]) && Edited(b, u[j + m..])
  {
    assert u[..j + m][j..] == u[j..][..m] && u[j..][m..] == u[j + m..] && u[..j + m][..j] == u[..j];
    assert DropsFirst(a, u[..j + m], j);
  }

  lemma {:induction false} EditedSplit(t: string, a: string, b: string, u: string) returns (k: nat)
    requires t == a + b && Edited(t, u)
    ensures k <= |u| && Edited(a, u[..k]) && Edited(b, u[k..])
    decreases |a|
  {
    if a == "" {
      assert t == b && u[0..] == u && u[..0] == "";
      k := 0;
    } else if KeepsFirst(t, u) {
      var m := EditedSplit(t[1..], a[1..], b, u[1..]);
      SplitFirstKept(a, b, u, m);
      k := m + 1;
    } else {
      var j :| 0 <= j <= |u| && DropsFirst(t, u, j);
      var m := EditedSplit(t[1..], a[1..], b, u[j..]);
      SplitFirstDropped(a, b, u, j, m);
      k := j + m;
    }
  }

  lemma {:induction false} VisibleStays(p: string, u: string)
    requires NoBlank(p) && Edited(p, u)
    ensures u == p
    decreases |p|
  {
    if p != "" {
      assert !Blank(p[0]) && KeepsFirst(p, u);
      VisibleStays(p[1..], u[1..]);
    }
  }

  lemma {:induction false} BlankStaysBlank(a: string, u: string)
    requires AllBlank(a) && Edited(a, u)
    ensures AllBlank(u)
    decreases |a|
  {
    if a != "" {
      if KeepsFirst(a, u) {
        BlankStaysBlank(a[1..], u[1..]);
        assert forall i :: 1 <= i < |u| ==> u[i] == u[1..][i - 1];
      } else {
        var k :| 0 <= k <= |u| && DropsFirst(a, u, k);
        BlankStaysBlank(a[1..], u[k..]);
        assert forall i :: 0 <= i < |u| ==> u[i] == if i < k then u[..k][i] else u[k..][i - k];
      }
    }
  }

  lemma {:induction false} EditedTwice(t: string, u: string, v: string)
    requires Edited(t, u) && Edited(u, v)
    ensures Edited(t, v)
    decreases |t|
  {
    if t != "" {
      if KeepsFirst(t, u) {
        if KeepsFirst(u, v) {
          EditedTwice(t[1..], u[1..], v[1..]);
          assert KeepsFirst(t, v);
        } else {
          var k :| 0 <= k <= |v| && DropsFirst(u, v, k);
          EditedTwice(t[1..], u[1..], v[k..]);
          assert DropsFirst(t, v, k);
        }
      } else {
        var j :| 0 <= j <= |u| && DropsFirst(t, u, j);
        assert u == u[..j] + u[j..];
        var k := EditedSplit(u, u[..j], u[j..], v);
        BlankStaysBlank(u[..j], v[..k]);
        EditedTwice(t[1..], u[j..], v[k..]);
        assert DropsFirst(t, v, k);
      }
    }
  }

  // The visible characters of a text, in order.
  function Visible(s: string): string {
    if s == "" then "" else if Blank(s[0]) then Visible(s[1..]) else [s[0]] + Visible(s[1..])
  }

  lemma {:induction false} VisibleConcat(a: string, b: string)
    ensures Visible(a + b) == Visible(a) + Visible(b)
    decreases |a|
  {
    if a == "" {
      assert a + b == b;
    } else {
      assert (a + b)[1..] == a[1..] + b;
      VisibleConcat(a[1..], b);
    }
  }

  lemma {:induction false} VisibleOfBlank(a: string)
    requires AllBlank(a)
    ensures Visible(a) == ""
    decreases |a|
  {
    if a != "" { VisibleOfBlank(a[1..]); }
  }

  // An edited text shows the same visible characters in the same order.
  lemma {:induction false} EditedKeepsVisible(t: string, u: string)
    requires Edited(t, u)
    ensures Visible(u) == Visible(t)
    decreases |t|
  {
    if t != "" {
      if KeepsFirst(t, u) {
        EditedKeepsVisible(t[1..], u[1..]);
      } else {
        var k :| 0 <= k <= |u| && DropsFirst(t, u, k);
        EditedKeepsVisible(t[1..], u[k..]);
        VisibleOfBlank(u[..k]);
        VisibleConcat(u[..k], u[k..]);
        assert u == u[..k] + u[k..];
      }
    }
  }

  // Nor does a visible character appear that was not there.
  lemma {:induction false} EditedAdds(t: string, u: string, c: char)
    requires Edited(t, u) && !Blank(c) && c !in t
    ensures c !in u
    decreases |t|
  {
    if t != "" {
      assert c !in t[1..];
      if KeepsFirst(t, u) {
        EditedAdds(t[1..], u[1..], c);
        assert u == [u[0]] + u[1..];
      } else {
        var k :| 0 <= k <= |u| && DropsFirst(t, u, k);
        EditedAdds(t[1..], u[k..], c);
        assert u == u[..k] + u[k..];
      }
    }
  }
}
