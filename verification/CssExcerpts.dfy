/** What the two text helpers of the cascade gate cut out of a prelude. */
module CssExcerpts {
  import opened Text
  import opened CssCascade

  predicate NameFrom(p: string, n: nat)
    requires n <= |p|
  {
    n >= 2 && p[0] == '@'
    && forall i :: 1 <= i < n ==> 'a' <= p[i] <= 'z' || 'A' <= p[i] <= 'Z' || '0' <= p[i] <= '9' || p[i] in "_-"
  }

  lemma {:induction false} NameLengthIsLongest(s: string)
    ensures forall i :: 0 <= i < NameLength(s) ==> NameCharacter(s[i])
    ensures NameLength(s) < |s| ==> !NameCharacter(s[NameLength(s)])
  {
    if s != "" && NameCharacter(s[0]) {
      NameLengthIsLongest(s[1..]);
    }
  }

  /** The name is the longest prefix that is an at sign and name characters; empty if there is none. */
  lemma AtRuleNameIsLongest(p: string)
    ensures AtRuleName(p) <= p
    ensures AtRuleName(p) != "" ==> NameFrom(p, |AtRuleName(p)|)
    ensures forall n :: |AtRuleName(p)| < n <= |p| ==> !NameFrom(p, n)
  {
    if p != "" {
      NameLengthIsLongest(p[1..]);
      var n := NameLength(p[1..]);
      forall i | 1 <= i < 1 + n ensures NameCharacter(p[i]) {
        assert p[i] == p[1..][i - 1];
      }
      if 1 + n < |p| {
        assert p[1..][n] == p[1 + n];
      }
    }
  }

  /** White space only as single blanks. */
  predicate OneLine(s: string) {
    && (forall i :: 0 <= i < |s| && JsSpace(s[i]) ==> s[i] == ' ')
    && (forall i :: 0 < i < |s| && JsSpace(s[i]) ==> !JsSpace(s[i - 1]))
  }

  // The characters that are not white space, in order.
  function Ink(s: string): string {
    if s == "" then "" else (if JsSpace(s[0]) then "" else [s[0]]) + Ink(s[1..])
  }

  lemma {:induction false} CollapsedIsOneLine(s: string)
    ensures OneLine(CollapseSpace(s)) && Ink(CollapseSpace(s)) == Ink(s)
    ensures s != "" && !JsSpace(s[0]) ==> CollapseSpace(s) != "" && CollapseSpace(s)[0] == s[0]
  {
    if s != "" {
      var rest := CollapseSpace(s[1..]);
      CollapsedIsOneLine(s[1..]);
      assert ([s[0]] + rest)[1..] == rest && (" " + rest)[1..] == rest;
      if JsSpace(s[0]) && |s| > 1 && !JsSpace(s[1]) {
        assert s[1..][0] == s[1];
      }
    }
  }

  lemma CollapseOn(c: char, s: string)
    ensures CollapseSpace([c] + s)
            == if !JsSpace(c) then [c] + CollapseSpace(s)
               else if s != "" && JsSpace(s[0]) then CollapseSpace(s) else " " + CollapseSpace(s)
  {
    assert ([c] + s)[1..] == s;
  }

  /** A run of white space becomes one blank, and what stands around it is collapsed on its own. */
  lemma {:induction false} CollapsesRun(a: string, w: string, b: string)
    requires w != "" && (forall i :: 0 <= i < |w| ==> JsSpace(w[i]))
    requires (a != "" ==> !JsSpace(a[|a| - 1])) && (b != "" ==> !JsSpace(b[0]))
    ensures CollapseSpace(a + w + b) == CollapseSpace(a) + " " + CollapseSpace(b)
    decreases |a| + |w|
  {
    hide CollapseSpace, JsSpace;
    if a != "" {
      var c, rest := a[0], a[1..];
      assert a == [c] + rest && a + w + b == [c] + (rest + w + b);
      CollapseOn(c, rest);
      CollapseOn(c, rest + w + b);
      if rest != "" { assert (rest + w + b)[0] == rest[0]; }
      CollapsesRun(rest, w, b);
      Regroup(" ", CollapseSpace(rest), " ", CollapseSpace(b));
      Regroup([c], CollapseSpace(rest), " ", CollapseSpace(b));
    } else {
      CollapseNothing();
      var c, rest := w[0], w[1..];
      assert a + w + b == [c] + (rest + b);
      CollapseOn(c, rest + b);
      assert "" + " " + CollapseSpace(b) == " " + CollapseSpace(b);
      if rest == "" {
        assert rest + b == b;
      } else {
        assert "" + rest + b == rest + b;
        assert (rest + b)[0] == rest[0];
        CollapsesRun("", rest, b);
      }
    }
  }

  lemma Regroup(w: string, x: string, y: string, z: string)
    ensures w + (x + y + z) == w + x + y + z
  {}

  lemma CollapseNothing()
    ensures CollapseSpace("") == ""
  {}

  lemma {:induction false} InkIsFixed(s: string)
    requires forall i :: 0 <= i < |s| ==> !JsSpace(s[i])
    ensures CollapseSpace(s) == s
  {
    if s != "" {
      InkIsFixed(s[1..]);
      assert s == [s[0]] + s[1..];
    }
  }

  /** Every allowed block at-rule is a name as it stands, in front of whatever cannot go on a name. */
  lemma AllowedRulesAreNames(rest: string)
    requires rest == "" || !NameCharacter(rest[0])
    ensures forall name :: name in ALLOWED_BLOCK_AT_RULES ==> BlockAllowed(name + rest)
  {
    forall name | name in ALLOWED_BLOCK_AT_RULES ensures BlockAllowed(name + rest) {
      AllowedIsName(name);
      NameStands(name, rest);
    }
  }

  lemma AllowedIsName(name: string)
    requires name in ALLOWED_BLOCK_AT_RULES
    ensures |name| > 1 && name[0] == '@' && forall i :: 1 <= i < |name| ==> NameCharacter(name[i])
  {}

  lemma NameStands(name: string, rest: string)
    requires |name| > 1 && name[0] == '@' && forall i :: 1 <= i < |name| ==> NameCharacter(name[i])
    requires rest == "" || !NameCharacter(rest[0])
    ensures AtRuleName(name + rest) == name
  {
    var whole := name + rest;
    assert whole[1..] == name[1..] + rest;
    assert whole[..|name|] == name;
    NameLengthOf(name[1..], rest);
    hide NameCharacter, NameLength;
  }

  lemma {:induction false} NameLengthOf(name: string, rest: string)
    requires (forall i :: 0 <= i < |name| ==> NameCharacter(name[i])) && (rest == "" || !NameCharacter(rest[0]))
    ensures NameLength(name + rest) == |name|
  {
    if name == "" {
      assert name + rest == rest;
    } else {
      assert (name + rest)[1..] == name[1..] + rest;
      NameLengthOf(name[1..], rest);
    }
  }

  /** An excerpt fits a line of a report: at most 100 characters, no run of white space, nothing else lost. */
  lemma ExcerptIsOneLine(prelude: string)
    ensures |ShortPrelude(prelude)| <= 100 && OneLine(ShortPrelude(prelude))
    ensures ShortPrelude(prelude) <= CollapseSpace(prelude)
    ensures |ShortPrelude(prelude)| < 100 ==> ShortPrelude(prelude) == CollapseSpace(prelude)
    ensures Ink(ShortPrelude(prelude)) <= Ink(prelude)
    ensures |CollapseSpace(prelude)| <= 100 ==> Ink(ShortPrelude(prelude)) == Ink(prelude)
  {
    var c := CollapseSpace(prelude);
    CollapsedIsOneLine(prelude);
    InkOfPrefix(c, |ShortPrelude(prelude)|);
  }

  lemma {:induction false} InkOfPrefix(s: string, n: nat)
    requires n <= |s|
    ensures Ink(s[..n]) <= Ink(s)
  {
    if n > 0 {
      assert s[..n][1..] == s[1..][..n - 1];
      InkOfPrefix(s[1..], n - 1);
    }
  }
}
