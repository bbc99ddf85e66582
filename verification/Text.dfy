// Character classes and trimming, shared by the models of the JavaScript and Go sources.
module Text {

  // What String.prototype.trim and the regular-expression class \s remove in JavaScript.
  predicate JsSpace(c: char) {
    UnicodeSpace(c) || c as int == 0xFEFF
  }

  // What strings.TrimSpace removes in Go.
  predicate GoSpace(c: char) {
    UnicodeSpace(c) || c as int == 0x85
  }

  predicate UnicodeSpace(c: char) {
    var u := c as int;
    || 9 <= u <= 13
    || u in {0x20, 0xA0, 0x1680, 0x2028, 0x2029, 0x202F, 0x205F, 0x3000}
    || 0x2000 <= u <= 0x200A
  }

  predicate All(p: char -> bool, s: string) {
    forall i :: 0 <= i < |s| ==> p(s[i])
  }

  function TrimStart(space: char -> bool, s: string): string {
    if s != "" && space(s[0]) then TrimStart(space, s[1..]) else s
  }

  function TrimEnd(space: char -> bool, s: string): string {
    if s != "" && space(s[|s| - 1]) then TrimEnd(space, s[..|s| - 1]) else s
  }

  function Trim(space: char -> bool, s: string): string {
    TrimEnd(space, TrimStart(space, s))
  }

  lemma {:induction false} TrimStartOver(space: char -> bool, pre: string, s: string)
    requires All(space, pre)
    ensures TrimStart(space, pre + s) == TrimStart(space, s)
  {
    if pre == "" {
      assert pre + s == s;
    } else {
      assert (pre + s)[1..] == pre[1..] + s;
      TrimStartOver(space, pre[1..], s);
    }
  }

  lemma {:induction false} TrimEndOver(space: char -> bool, s: string, post: string)
    requires All(space, post)
    ensures TrimEnd(space, s + post) == TrimEnd(space, s)
  {
    if post == "" {
      assert s + post == s;
    } else {
      assert (s + post)[..|s + post| - 1] == s + post[..|post| - 1];
      TrimEndOver(space, s, post[..|post| - 1]);
    }
  }

  /** Where the first surviving character stands: TrimStart removes exactly the leading spaces. */
  lemma {:induction false} TrimStartSplits(space: char -> bool, s: string) returns (pre: string)
    ensures s == pre + TrimStart(space, s) && All(space, pre)
    ensures var t := TrimStart(space, s); t == "" || !space(t[0])
  {
    if s != "" && space(s[0]) {
      var rest := TrimStartSplits(space, s[1..]);
      assert TrimStart(space, s) == TrimStart(space, s[1..]);
      hide TrimStart, All;
      pre := [s[0]] + rest;
      AllCons(space, s[0], rest);
      assert s == [s[0]] + s[1..];
    } else {
      pre := "";
    }
  }

  lemma AllCons(space: char -> bool, c: char, s: string)
    requires space(c) && All(space, s)
    ensures All(space, [c] + s)
  {}

  lemma {:induction false} TrimEndSplits(space: char -> bool, s: string) returns (post: string)
    ensures s == TrimEnd(space, s) + post && All(space, post)
    ensures var t := TrimEnd(space, s); t == "" || !space(t[|t| - 1])
  {
    if s != "" && space(s[|s| - 1]) {
      var rest := TrimEndSplits(space, s[..|s| - 1]);
      post := rest + [s[|s| - 1]];
      assert s == s[..|s| - 1] + [s[|s| - 1]];
    } else {
      post := "";
    }
  }

  lemma TrimIgnoresLeading(space: char -> bool, pre: string, s: string)
    requires All(space, pre)
    ensures Trim(space, pre + s) == Trim(space, s)
  {
    TrimStartOver(space, pre, s);
  }

  lemma {:induction false} TrimStartStopsAt(space: char -> bool, h: string, q: char, rest: string) returns (g: string)
    requires !space(q)
    ensures TrimStart(space, h + [q] + rest) == g + [q] + rest
    ensures TrimStart(space, h + [q]) == g + [q]
  {
    if h != "" && space(h[0]) {
      assert (h + [q] + rest)[1..] == h[1..] + [q] + rest && (h + [q])[1..] == h[1..] + [q];
      g := TrimStartStopsAt(space, h[1..], q, rest);
    } else {
      g := h;
    }
  }

  lemma {:induction false} TrimEndStopsAt(space: char -> bool, g: string, q: char, rest: string)
    requires !space(q)
    ensures g + [q] <= TrimEnd(space, g + [q] + rest)
  {
    if rest != "" {
      assert (g + [q] + rest)[..|g + [q] + rest| - 1] == g + [q] + rest[..|rest| - 1];
      TrimEndStopsAt(space, g, q, rest[..|rest| - 1]);
    }
  }

  /** Trimming keeps everything up to a non-space character, except the leading spaces. */
  lemma TrimKeepsHead(space: char -> bool, h: string, q: char, x: string) returns (g: string)
    requires !space(q) && h + [q] <= x
    ensures TrimStart(space, h + [q]) == g + [q] && g + [q] <= Trim(space, x)
  {
    var rest := x[|h| + 1..];
    assert x == h + [q] + rest;
    g := TrimStartStopsAt(space, h, q, rest);
    TrimEndStopsAt(space, g, q, rest);
  }

  lemma TrimEmptyIff(space: char -> bool, s: string)
    ensures Trim(space, s) == "" <==> All(space, s)
  {
    if All(space, s) {
      TrimStartOver(space, s, "");
      assert s + "" == s;
    } else {
      var i :| 0 <= i < |s| && !space(s[i]);
      assert s[..i] + [s[i]] <= s;
      var _ := TrimKeepsHead(space, s[..i], s[i], s);
    }
  }

  /** Nothing to trim at either end. */
  predicate Trimmed(space: char -> bool, s: string) {
    s == "" || (!space(s[0]) && !space(s[|s| - 1]))
  }

  lemma TrimIsTrimmed(space: char -> bool, s: string)
    ensures Trimmed(space, Trim(space, s))
  {
    var pre := TrimStartSplits(space, s);
    var post := TrimEndSplits(space, TrimStart(space, s));
    var t := Trim(space, s);
    assert t != "" ==> t[0] == TrimStart(space, s)[0];
  }

  lemma TrimmedIsFixed(space: char -> bool, s: string)
    ensures Trim(space, s) == s <==> Trimmed(space, s)
  {
    TrimIsTrimmed(space, s);
  }
}
