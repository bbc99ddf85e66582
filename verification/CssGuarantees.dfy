/**
 What a report of the cascade gate means. All statements are about `Inspect`, which the
 one-pass loop `InspectTopLevelBlocks` appends to its log.
 */
module CssGuarantees {
  import opened Text
  import opened CssLexer
  import opened Clamping
  import opened CssCascade

  // ----- The string-blind comment stripper and the string-aware scanner -----

  lemma {:induction false} StrippedIsSpaceIff(v: string)
    ensures All(JsSpace, StripComments(v)) <==> OnlyTrivia(JsSpace, v)
    decreases |v|
  {
    if v != "" {
      if OpensComment(v) && BodyCloses(v[2..]) {
        StrippedIsSpaceIff(v[TokenLength(v)..]);
      } else {
        var rest := StripComments(v[1..]);
        var all := [v[0]] + rest;
        StrippedIsSpaceIff(v[1..]);
        assert all[0] == v[0] && all[1..] == rest;
        if All(JsSpace, all) {
          forall i | 0 <= i < |rest| ensures JsSpace(rest[i]) { assert rest[i] == all[i + 1]; }
        }
      }
    }
  }

  /** The stripper finds nothing in a slice exactly when the scanner sees only space and closed comments there. */
  lemma BlankIffOnlyTrivia(v: string)
    ensures WithoutComments(v) == "" <==> OnlyTrivia(JsSpace, v)
  {
    StrippedIsSpaceIff(v);
    TrimEmptyIff(JsSpace, StripComments(v));
  }

  // The text with its closed comment tokens removed, strings left alone.
  function CodeText(v: string): string
    decreases |v|
  {
    if v == "" then ""
    else if OpensComment(v) then (if BodyCloses(v[2..]) then CodeText(v[TokenLength(v)..]) else v)
    else v[..TokenLength(v)] + CodeText(v[TokenLength(v)..])
  }

  lemma {:induction false} NothingClosesNothingStripped(r: string)
    requires !BodyCloses(r)
    ensures StripComments(r) == r
  {
    if r != "" {
      if |r| >= 2 {
        NothingClosesNothingStripped(r[1..]);
        assert OpensComment(r) ==> !BodyCloses(r[2..]) by { assert r[2..] == r[1..][1..]; }
      }
      assert [r[0]] + r[1..] == r;
    }
  }

  // x and y agree up to and including their first quote, or are equal.
  ghost predicate AgreeUpToQuote(x: string, y: string, h: string, q: char) {
    x == y || (IsQuote(q) && h + [q] <= x && h + [q] <= y)
  }

  lemma {:induction false} StrippersAgree(v: string) returns (h: string, q: char)
    ensures AgreeUpToQuote(StripComments(v), CodeText(v), h, q)
    decreases |v|
  {
    h, q := "", '"';
    if v != "" {
      if OpensComment(v) {
        if BodyCloses(v[2..]) {
          h, q := StrippersAgree(v[TokenLength(v)..]);
        } else {
          NothingClosesNothingStripped(v[2..]);
          assert v[1..][1..] == v[2..] && v == [v[0]] + ([v[1]] + v[2..]);
        }
      } else if IsQuote(v[0]) {
        q := v[0];
        assert v[..TokenLength(v)][0] == q;
      } else {
        var g, p := StrippersAgree(v[1..]);
        h, q := [v[0]] + g, p;
        assert [v[0]] + g + [p] == [v[0]] + (g + [p]);
        assert v[..1] == [v[0]];
      }
    }
  }

  lemma {:induction false} NameEndsBeforeQuote(g: string, q: char, rest: string)
    requires IsQuote(q)
    ensures NameLength(g + [q] + rest) == NameLength(g) 
  {
    if g != "" {
      assert (g + [q] + rest)[1..] == g[1..] + [q] + rest;
      NameEndsBeforeQuote(g[1..], q, rest);
    } else {
      assert (g + [q] + rest)[0] == q;
    }
  }

  lemma AtRuleNameBeforeQuote(g: string, q: char, t: string)
    requires IsQuote(q) && g + [q] <= t
    ensures AtRuleName(t) == AtRuleName(g)
  {
    var rest := t[|g| + 1..];
    assert t == g + [q] + rest;
    if g != "" {
      assert t[1..] == g[1..] + [q] + rest;
      NameEndsBeforeQuote(g[1..], q, rest);
    }
  }

  lemma StatementBeforeQuote(g: string, q: char, t: string)
    requires IsQuote(q) && g + [q] <= t
    ensures StatementAllowed(t) <==> StatementAllowed(g)
  {
    forall i | 0 <= i < |ALLOWED_STATEMENT_AT_RULES|
      ensures ALLOWED_STATEMENT_AT_RULES[i] <= t <==> ALLOWED_STATEMENT_AT_RULES[i] <= g
    {
      var a := ALLOWED_STATEMENT_AT_RULES[i];
      assert g <= t && t[|g|] == q;
      assert a <= t ==> |a| <= |g| by { assert q !in a; }
    }
  }

  /** Stripping comments without regard for strings never changes a verdict. */
  lemma StringBlindnessIsHarmless(v: string)
    ensures var blind, aware := WithoutComments(v), Trim(JsSpace, CodeText(v));
            && (blind == "" <==> aware == "")
            && AtRuleName(blind) == AtRuleName(aware)
            && (StatementAllowed(blind) <==> StatementAllowed(aware))
  {
    var h, q := StrippersAgree(v);
    if StripComments(v) != CodeText(v) {
      var g := TrimKeepsHead(JsSpace, h, q, StripComments(v));
      var g' := TrimKeepsHead(JsSpace, h, q, CodeText(v));
      AtRuleNameBeforeQuote(g, q, WithoutComments(v));
      AtRuleNameBeforeQuote(g, q, Trim(JsSpace, CodeText(v)));
      StatementBeforeQuote(g, q, WithoutComments(v));
      StatementBeforeQuote(g, q, Trim(JsSpace, CodeText(v)));
    }
  }

  // ----- Texts behind a clean one -----

  lemma StripNothing(b: string)
    ensures StripComments("" + b) == StripComments("") + StripComments(b)
  {
    assert "" + b == b;
  }

  lemma StripCommentOver(a: string, b: string)
    requires OpensComment(a) && BodyCloses(a[2..])
    ensures StripComments(a) == StripComments(a[TokenLength(a)..])
    ensures StripComments(a + b) == StripComments(a[TokenLength(a)..] + b)
  {
    TokenAppend(a, b);
    assert (a + b)[TokenLength(a)..] == a[TokenLength(a)..] + b;
  }

  lemma StripSpaceOver(a: string, b: string)
    requires a != "" && JsSpace(a[0])
    ensures StripComments(a) == [a[0]] + StripComments(a[1..])
    ensures StripComments(a + b) == [a[0]] + StripComments(a[1..] + b)
  {
    assert (a + b)[0] == a[0] && (a + b)[1..] == a[1..] + b;
  }

  lemma Regroup(x: string, y: string, z: string)
    ensures x + (y + z) == x + y + z
  {}

  lemma TriviaCases(a: string)
    requires a != "" && OnlyTrivia(JsSpace, a)
    ensures if OpensComment(a) then BodyCloses(a[2..]) && OnlyTrivia(JsSpace, a[TokenLength(a)..])
            else JsSpace(a[0]) && OnlyTrivia(JsSpace, a[1..])
  {}

  lemma {:induction false} StripOver(a: string, b: string)
    requires OnlyTrivia(JsSpace, a)
    ensures StripComments(a + b) == StripComments(a) + StripComments(b)
    decreases |a|
  {
    hide *;
    if a == "" {
      StripNothing(b);
      return;
    }
    TriviaCases(a);
    if OpensComment(a) {
      StripCommentOver(a, b);
      StripOver(a[TokenLength(a)..], b);
    } else {
      StripSpaceOver(a, b);
      StripOver(a[1..], b);
      Regroup([a[0]], StripComments(a[1..]), StripComments(b));
    }
  }

  lemma TriviaInFrontIsIgnored(a: string, b: string)
    requires OnlyTrivia(JsSpace, a)
    ensures WithoutComments(a + b) == WithoutComments(b)
  {
    StripOver(a, b);
    StrippedIsSpaceIff(a);
    TrimIgnoresLeading(JsSpace, StripComments(a), StripComments(b));
  }

  function Shift(m: seq<Mark>, offset: nat): (r: seq<Mark>)
    ensures |r| == |m| && forall i :: 0 <= i < |m| ==> r[i] == Mark(m[i].pos + offset, m[i].symbol)
  {
    if m == [] then [] else Shift(m[..|m| - 1], offset) + [Mark(m[|m| - 1].pos + offset, m[|m| - 1].symbol)]
  }

  lemma {:induction false} ParenDeltasWithin(s: string, k: seq<Kind>, t: string, l: seq<Kind>, n: nat)
    requires |k| == |s| && |l| == |t| && n <= |s|
    ensures ParenDeltas(s + t, k + l, n) == ParenDeltas(s, k, n)
  {}

  lemma ParenDeltasBehind(s: string, k: seq<Kind>, t: string, l: seq<Kind>, n: nat)
    requires |k| == |s| && |l| == |t| && n <= |t|
    ensures ParenDeltas(s + t, k + l, |s| + n) == ParenDeltas(s, k, |s|) + ParenDeltas(t, l, n)
  {}

  lemma IsMarkWithin(s: string, k: seq<Kind>, t: string, l: seq<Kind>, i: nat)
    requires |k| == |s| && |l| == |t| && i < |s|
    ensures IsMark(s + t, k + l, i) <==> IsMark(s, k, i)
  {
    ParenDeltasWithin(s, k, t, l, i);
  }

  lemma IsMarkBehind(s: string, k: seq<Kind>, t: string, l: seq<Kind>, i: nat)
    requires |k| == |s| && |l| == |t| && i < |t|
    requires ParenDepth(s, k, |s|) == 0
    ensures IsMark(s + t, k + l, |s| + i) <==> IsMark(t, l, i)
  {
    hide ParenDeltas, Clamped;
    ParenDeltasBehind(s, k, t, l, i);
    ClampedAfterZero(ParenDeltas(s, k, |s|), ParenDeltas(t, l, i));
    assert (s + t)[|s| + i] == t[i] && (k + l)[|s| + i] == l[i];
  }

  lemma {:induction false} MarksWithin(s: string, k: seq<Kind>, t: string, l: seq<Kind>, n: nat)
    requires |k| == |s| && |l| == |t| && n <= |s|
    ensures MarksUpTo(s + t, k + l, n) == MarksUpTo(s, k, n)
  {
    hide IsMark;
    if n > 0 {
      MarksWithin(s, k, t, l, n - 1);
      IsMarkWithin(s, k, t, l, n - 1);
      assert (s + t)[n - 1] == s[n - 1];
    }
  }

  lemma {:induction false} MarksBehind(s: string, k: seq<Kind>, t: string, l: seq<Kind>, n: nat)
    requires |k| == |s| && |l| == |t| && n <= |t|
    requires ParenDepth(s, k, |s|) == 0
    ensures MarksUpTo(s + t, k + l, |s| + n) == MarksUpTo(s, k, |s|) + Shift(MarksUpTo(t, l, n), |s|)
  {
    hide IsMark, ParenDepth;
    if n == 0 {
      MarksWithin(s, k, t, l, |s|);
      assert Shift(MarksUpTo(t, l, 0), |s|) == [];
    } else {
      MarksBehind(s, k, t, l, n - 1);
      IsMarkBehind(s, k, t, l, n - 1);
      MarksBehindStep(s, k, t, l, n - 1);
    }
  }

  lemma MarksBehindStep(s: string, k: seq<Kind>, t: string, l: seq<Kind>, n: nat)
    requires |k| == |s| && |l| == |t| && n < |t|
    requires MarksUpTo(s + t, k + l, |s| + n) == MarksUpTo(s, k, |s|) + Shift(MarksUpTo(t, l, n), |s|)
    requires IsMark(s + t, k + l, |s| + n) <==> IsMark(t, l, n)
    ensures MarksUpTo(s + t, k + l, |s| + n + 1) == MarksUpTo(s, k, |s|) + Shift(MarksUpTo(t, l, n + 1), |s|)
  {
    hide *;
    WalkOn(s + t, k + l, |s| + n);
    WalkOn(t, l, n);
    if IsMark(t, l, n) {
      ShiftSnoc(MarksUpTo(t, l, n), Mark(n, t[n]), |s|);
      assert MarksUpTo(t, l, n + 1) == MarksUpTo(t, l, n) + [Mark(n, t[n])];
    } else {
      assert MarksUpTo(t, l, n + 1) == MarksUpTo(t, l, n);
    }
  }

  lemma ShiftSnoc(m: seq<Mark>, x: Mark, offset: nat)
    ensures Shift(m + [x], offset) == Shift(m, offset) + [Mark(x.pos + offset, x.symbol)]
  {}

  lemma {:induction false} LastMarkIsCode(s: string, k: seq<Kind>, n: nat)
    requires n <= |s| == |k| && MarksUpTo(s, k, n) != []
    ensures var cut := Behind(MarksUpTo(s, k, n));
            && 0 < cut <= n
            && k[cut - 1] == Code && s[cut - 1] != '/'
            && ParenDepth(s, k, cut) == 0
  {
    if IsMark(s, k, n - 1) {
      WalkOn(s, k, n - 1);
    } else {
      LastMarkIsCode(s, k, n - 1);
    }
  }

  // What follows the last mark.
  function Tail(s: string): string {
    Slice(s, Behind(Marks(s)), |s|)
  }

  /** Nothing is left open at the end of a text. */
  ghost predicate Neutral(s: string) {
    && Sealed(s)
    && ParenDepth(s, Kinds(s), |s|) == 0
    && Depth(Marks(s)) == 0
    && OnlyTrivia(JsSpace, Tail(s))
  }

  lemma BehindIsInside(s: string)
    ensures Behind(Marks(s)) <= |s|
    ensures s == s[..Behind(Marks(s))] + Tail(s)
  {
    if Marks(s) != [] {
      LastMarkIsCode(s, Kinds(s), |s|);
    }
  }

  lemma {:induction false} SpaceKeepsParens(s: string, k: seq<Kind>, from: nat, n: nat)
    requires from <= n <= |s| == |k|
    requires ParenDepth(s, k, from) == 0
    requires forall i :: from <= i < n && k[i] == Code ==> JsSpace(s[i])
    ensures ParenDepth(s, k, n) == 0
  {
    hide ParenDepth;
    if from < n {
      SpaceKeepsParens(s, k, from, n - 1);
      WalkOn(s, k, n - 1);
    }
  }

  /** Just behind the last mark no token and no parenthesis is open. */
  lemma ClosedBehindLastMark(s: string)
    ensures var cut := Behind(Marks(s));
            && cut <= |s|
            && Sealed(s[..cut])
            && ParenDepth(s, Kinds(s), cut) == 0
  {
    hide Kinds, MarksUpTo, ParenDepth, Sealed;
    var cut := Behind(Marks(s));
    if Marks(s) == [] {
      NothingIsOpen(s);
    } else {
      LastMarkIsCode(s, Kinds(s), |s|);
      SealedBehindCode(s, cut - 1);
    }
  }

  lemma NothingIsOpen(s: string)
    ensures Sealed(s[..0]) && ParenDepth(s, Kinds(s), 0) == 0
  {}

  /** A text whose last mark is followed by trivia only is lexically closed at its end. */
  lemma TrivialTailCloses(s: string)
    requires OnlyTrivia(JsSpace, Tail(s))
    ensures Sealed(s) && ParenDepth(s, Kinds(s), |s|) == 0
  {
    BehindIsInside(s);
    ClosedBehindLastMark(s);
    hide *;
    TrivialSuffixCloses(s[..Behind(Marks(s))], Tail(s));
  }

  lemma TrivialSuffixCloses(head: string, tail: string)
    requires Sealed(head) && OnlyTrivia(JsSpace, tail)
    requires ParenDepth(head + tail, Kinds(head + tail), |head|) == 0
    ensures Sealed(head + tail) && ParenDepth(head + tail, Kinds(head + tail), |head + tail|) == 0
  {
    hide Sealed, OnlyTrivia, Kinds, ParenDepth;
    TriviaIsSealed(JsSpace, tail);
    SealedAppend(head, tail);
    KindsAppend(head, tail);
    SpaceKeepsParens(head + tail, Kinds(head + tail), |head|, |head + tail|);
  }

  /** A clean report means that every comment, string, parenthesis and brace was closed. */
  lemma CleanReportIsNeutral(s: string, path: string)
    requires Inspect(s, path) == []
    ensures Neutral(s)
  {
    var m := Marks(s);
    UnfinishedAtTop(m);
    assert EndFailures(s, path, m) == [];
    BlankIffOnlyTrivia(Tail(s));
    TrivialTailCloses(s);
  }

  // ----- Concatenation -----

  lemma {:induction false} MarksInside(s: string, k: seq<Kind>, n: nat)
    requires n <= |s| == |k|
    ensures forall i :: 0 <= i < |MarksUpTo(s, k, n)| ==> MarksUpTo(s, k, n)[i].pos < n
  {
    hide IsMark;
    if n > 0 {
      MarksInside(s, k, n - 1);
    }
  }

  lemma DeltasBehind(m: seq<Mark>, n: seq<Mark>, offset: nat)
    ensures BraceDeltas(m + Shift(n, offset)) == BraceDeltas(m) + BraceDeltas(n)
  {
    hide BraceDeltas, Shift;
  }

  lemma DepthBehind(m: seq<Mark>, n: seq<Mark>, offset: nat)
    requires Depth(m) == 0
    ensures Depth(m + Shift(n, offset)) == Depth(n)
  {
    DeltasBehind(m, n, offset);
    ClampedAfterZero(BraceDeltas(m), BraceDeltas(n));
  }

  lemma {:induction false} UnfinishedBehind(m: seq<Mark>, n: seq<Mark>, offset: nat)
    requires Depth(m) == 0 && n != []
    ensures Unfinished(m + Shift(n, offset)) == Unfinished(n) + offset
  {
    hide Depth;
    var all := m + Shift(n, offset);
    var init := n[..|n| - 1];
    assert all[..|all| - 1] == m + Shift(init, offset);
    DepthBehind(m, init, offset);
    if n[|n| - 1].symbol == ';' && Depth(init) > 0 {
      assert init != [] by { WalkStarts("", ""); }
      UnfinishedBehind(m, init, offset);
    }
  }

  // A slice that reaches into the text behind s looks the same as in that text alone.
  lemma SliceBehind(s: string, t: string, from: nat, to: nat)
    ensures Slice(s + t, |s| + from, |s| + to) == Slice(t, from, to)
  {}

  // A slice that starts in the trivial end of s shows the same as the text behind s.
  lemma SliceAcross(s: string, t: string, from: nat, to: nat)
    requires from <= |s| && to <= |t| && OnlyTrivia(JsSpace, Slice(s, from, |s|))
    ensures WithoutComments(Slice(s + t, from, |s| + to)) == WithoutComments(Slice(t, 0, to))
  {
    hide WithoutComments, OnlyTrivia;
    assert Slice(s + t, from, |s| + to) == Slice(s, from, |s|) + Slice(t, 0, to);
    TriviaInFrontIsIgnored(Slice(s, from, |s|), Slice(t, 0, to));
  }

  // What a mark causes depends on the depth before it and the text it ends alone.
  lemma FailureDepends(s: string, m: seq<Mark>, x: Mark, t: string, n: seq<Mark>, y: Mark, path: string)
    requires Depth(m) == Depth(n) && x.symbol == y.symbol
    requires WithoutComments(Slice(s, Behind(m), x.pos)) == WithoutComments(Slice(t, Behind(n), y.pos))
    ensures FailureAt(s, path, m, x) == FailureAt(t, path, n, y)
  {}

  lemma FailureBehind(s: string, t: string, path: string, m: seq<Mark>, before: seq<Mark>, x: Mark)
    requires Depth(m) == 0 && Behind(m) <= |s| && OnlyTrivia(JsSpace, Slice(s, Behind(m), |s|))
    requires x.pos <= |t|
    ensures FailureAt(s + t, path, m + Shift(before, |s|), Mark(x.pos + |s|, x.symbol)) == FailureAt(t, path, before, x)
  {
    hide Depth, BraceDeltas, WithoutComments, OnlyTrivia, Slice, Shift, FailureAt;
    var all := m + Shift(before, |s|);
    assert before == [] ==> all == m;
    DepthBehind(m, before, |s|);
    if before == [] {
      SliceAcross(s, t, Behind(m), x.pos);
    } else {
      SliceBehind(s, t, Behind(before), x.pos);
    }
    FailureDepends(s + t, all, Mark(x.pos + |s|, x.symbol), t, before, x, path);
  }

  lemma {:induction false} FailuresWithin(s: string, t: string, path: string, m: seq<Mark>)
    requires forall i :: 0 <= i < |m| ==> m[i].pos < |s|
    ensures MarkFailures(s + t, path, m) == MarkFailures(s, path, m)
  {
    hide FailureAt, Depth, WithoutComments;
    if m != [] {
      var before, x := m[..|m| - 1], m[|m| - 1];
      FailuresWithin(s, t, path, before);
      assert Slice(s + t, Behind(before), x.pos) == Slice(s, Behind(before), x.pos);
      FailureDepends(s + t, before, x, s, before, x, path);
    }
  }

  lemma {:induction false} FailuresBehind(s: string, t: string, path: string, m: seq<Mark>, n: seq<Mark>)
    requires forall i :: 0 <= i < |m| ==> m[i].pos < |s|
    requires forall i :: 0 <= i < |n| ==> n[i].pos < |t|
    requires MarkFailures(s, path, m) == [] && Depth(m) == 0
    requires Behind(m) <= |s| && OnlyTrivia(JsSpace, Slice(s, Behind(m), |s|))
    ensures MarkFailures(s + t, path, m + Shift(n, |s|)) == MarkFailures(t, path, n)
  {
    hide FailureAt, OnlyTrivia, Depth, Slice;
    if n == [] {
      assert m + Shift(n, |s|) == m;
      FailuresWithin(s, t, path, m);
    } else {
      var before, x := n[..|n| - 1], n[|n| - 1];
      FailuresBehind(s, t, path, m, before);
      FailureBehind(s, t, path, m, before, x);
      ShiftSnoc(before, x, |s|);
      assert before + [x] == n;
      MarkOn(s + t, path, m + Shift(before, |s|), Mark(x.pos + |s|, x.symbol));
      assert m + Shift(n, |s|) == m + Shift(before, |s|) + [Mark(x.pos + |s|, x.symbol)];
    }
  }

  // The end of a text is judged by its depth and its unfinished text alone.
  lemma EndFailuresDepend(s: string, m: seq<Mark>, t: string, n: seq<Mark>, path: string)
    requires Depth(m) == Depth(n)
    requires WithoutComments(Slice(s, Unfinished(m), |s|)) == WithoutComments(Slice(t, Unfinished(n), |t|))
    ensures EndFailures(s, path, m) == EndFailures(t, path, n)
  {}

  lemma EndFailuresBehind(s: string, t: string, path: string, m: seq<Mark>, n: seq<Mark>)
    requires Depth(m) == 0 && Behind(m) <= |s| && OnlyTrivia(JsSpace, Slice(s, Behind(m), |s|))
    ensures EndFailures(s + t, path, m + Shift(n, |s|)) == EndFailures(t, path, n)
  {
    hide *;
    DepthBehind(m, n, |s|);
    if n == [] {
      assert m + Shift(n, |s|) == m;
      WalkStarts("", path);
      UnfinishedAtTop(m);
      SliceAcross(s, t, Behind(m), |t|);
    } else {
      UnfinishedBehind(m, n, |s|);
      SliceBehind(s, t, Unfinished(n), |t|);
    }
    EndFailuresDepend(s + t, m + Shift(n, |s|), t, n, path);
  }

  lemma MarksConcat(s: string, t: string)
    requires Sealed(s) && ParenDepth(s, Kinds(s), |s|) == 0
    ensures Marks(s + t) == Marks(s) + Shift(Marks(t), |s|)
  {
    hide MarksUpTo, Kinds, Sealed, ParenDepth;
    KindsAppend(s, t);
    MarksBehind(s, Kinds(s), t, Kinds(t), |t|);
  }

  /** Text behind a clean stylesheet is reported on as if it stood alone. */
  lemma CleanPrefixIsInvisible(s: string, t: string, path: string)
    requires Inspect(s, path) == []
    ensures Inspect(s + t, path) == Inspect(t, path)
  {
    CleanReportIsNeutral(s, path);
    BehindIsInside(s);
    MarksInside(s, Kinds(s), |s|);
    MarksInside(t, Kinds(t), |t|);
    hide MarkFailures, EndFailures, OnlyTrivia, Depth, Slice, Sealed, ParenDepth, MarksUpTo, Kinds;
    MarksConcat(s, t);
    FailuresBehind(s, t, path, Marks(s), Marks(t));
    EndFailuresBehind(s, t, path, Marks(s), Marks(t));
  }

  function Concat(sheets: seq<string>): string {
    if sheets == [] then "" else sheets[0] + Concat(sheets[1..])
  }

  /** Clean stylesheets in front of t do not show, however many; with t empty, their concatenation is clean. */
  lemma {:induction false} CleanSheetsConcatenate(sheets: seq<string>, t: string, path: string)
    requires forall i :: 0 <= i < |sheets| ==> Inspect(sheets[i], path) == []
    ensures Inspect(Concat(sheets) + t, path) == Inspect(t, path)
    ensures Inspect(Concat(sheets), path) == []
  {
    hide Inspect;
    if sheets == [] {
      assert "" + t == t;
      EmptyIsClean(path);
    } else {
      CleanSheetsConcatenate(sheets[1..], t, path);
      CleanPrefixIsInvisible(sheets[0], Concat(sheets[1..]), path);
      CleanPrefixIsInvisible(sheets[0], Concat(sheets[1..]) + t, path);
      assert Concat(sheets) + t == sheets[0] + (Concat(sheets[1..]) + t);
    }
  }

  lemma EmptyIsClean(path: string)
    ensures Inspect("", path) == []
  {
    BlankIffOnlyTrivia("");
  }

  // ----- When the report is clean -----

  function Nesting(m: seq<Mark>): int {
    Sum(BraceDeltas(m))
  }

  predicate LayeredBlock(v: string) {
    OnlyTrivia(JsSpace, v) || BlockAllowed(Trim(JsSpace, CodeText(v)))
  }

  predicate LayeredStatement(v: string) {
    OnlyTrivia(JsSpace, v) || StatementAllowed(Trim(JsSpace, CodeText(v)))
  }

  /** A top-level mark ends nothing, an allowed block prelude, or an allowed statement. */
  predicate LayeredAt(s: string, before: seq<Mark>, x: Mark) {
    var text := Slice(s, Behind(before), x.pos);
    && (x.symbol == '{' ==> LayeredBlock(text))
    && (x.symbol == ';' ==> LayeredStatement(text))
  }

  /** The braces balance, everything at the top level is layered, and nothing trails. */
  ghost predicate WellLayered(s: string) {
    var m := Marks(s);
    && (forall n :: 0 <= n <= |m| ==> Nesting(m[..n]) >= 0)
    && Nesting(m) == 0
    && (forall i :: 0 <= i < |m| && Nesting(m[..i]) == 0 ==> LayeredAt(s, m[..i], m[i]))
    && OnlyTrivia(JsSpace, Tail(s))
  }

  predicate UnmatchedCloser(before: seq<Mark>, x: Mark) {
    Depth(before) == 0 && x.symbol == '}'
  }

  lemma FailureFreeIff(s: string, path: string, before: seq<Mark>, x: Mark)
    ensures FailureAt(s, path, before, x) == [] <==> !UnmatchedCloser(before, x) && (Depth(before) == 0 ==> LayeredAt(s, before, x))
  {
    hide WithoutComments, OnlyTrivia, Depth, Slice, StatementAllowed, AtRuleName, CodeText;
    var text := Slice(s, Behind(before), x.pos);
    BlankIffOnlyTrivia(text);
    StringBlindnessIsHarmless(text);
  }

  lemma {:induction false} MarkFailuresEmptyIff(s: string, path: string, m: seq<Mark>)
    ensures MarkFailures(s, path, m) == [] <==> forall i :: 0 <= i < |m| ==> FailureAt(s, path, m[..i], m[i]) == []
  {
    hide FailureAt;
    if m != [] {
      var init := m[..|m| - 1];
      MarkFailuresEmptyIff(s, path, init);
      forall i | 0 <= i < |init| ensures m[..i] == init[..i] && m[i] == init[i] {}
    }
  }

  lemma DeltasUpTo(m: seq<Mark>, n: nat)
    requires n <= |m|
    ensures BraceDeltas(m[..n]) == BraceDeltas(m)[..n]
  {
    hide BraceDeltas;
  }

  lemma NestingOn(m: seq<Mark>, i: nat)
    requires i < |m|
    ensures Nesting(m[..i + 1]) == Nesting(m[..i]) + BraceDelta(m[i])
  {
    Snoc(BraceDeltas(m[..i]), BraceDelta(m[i]));
    assert BraceDeltas(m[..i + 1]) == BraceDeltas(m[..i]) + [BraceDelta(m[i])];
  }

  /** Where no prefix closes more than it opens, the clamped depth is the plain nesting. */
  lemma DepthIsNesting(m: seq<Mark>)
    ensures (forall n :: 0 <= n <= |m| ==> Nesting(m[..n]) >= 0) <==> Clamps(BraceDeltas(m)) == 0
    ensures Clamps(BraceDeltas(m)) == 0 ==> forall n :: 0 <= n <= |m| ==> Depth(m[..n]) == Nesting(m[..n])
  {
    hide BraceDeltas, Clamped, Clamps, Sum, Deficit;
    var d := BraceDeltas(m);
    ClampsAreDeficit(d);
    DeficitIsLargestShortfall(d);
    forall n | 0 <= n <= |m|
      ensures Nesting(m[..n]) == Sum(d[..n])
      ensures Deficit(d) == 0 ==> Depth(m[..n]) == Nesting(m[..n])
    {
      DeltasUpTo(m, n);
      ClampedIsSumPlusDeficit(d[..n]);
      DeficitGrows(d, n);
    }
  }

  lemma DeficitGrows(d: seq<int>, n: nat)
    requires n <= |d|
    ensures Deficit(d[..n]) <= Deficit(d)
  {
    DeficitIsLargestShortfall(d);
    DeficitIsLargestShortfall(d[..n]);
    hide *;
    var i :| 0 <= i <= n && -Sum(d[..n][..i]) == Deficit(d[..n]);
    assert d[..n][..i] == d[..i];
  }

  // ----- Counting -----

  lemma {:induction false} UnmatchedAreClamps(s: string, path: string, m: seq<Mark>)
    ensures multiset(MarkFailures(s, path, m))[UnmatchedClosingBrace(path)] == Clamps(BraceDeltas(m))
  {
    if m != [] {
      var before, x := m[..|m| - 1], m[|m| - 1];
      UnmatchedAreClamps(s, path, before);
      UnmatchedAt(s, path, before, x);
      DeltasUpTo(m, |m| - 1);
      hide FailureAt, BraceDeltas, Clamped;
      assert multiset(MarkFailures(s, path, m)) == multiset(MarkFailures(s, path, before)) + multiset(FailureAt(s, path, before, x));
    }
  }

  lemma UnmatchedAt(s: string, path: string, before: seq<Mark>, x: Mark)
    ensures multiset(FailureAt(s, path, before, x))[UnmatchedClosingBrace(path)]
            == if Clamped(BraceDeltas(before)) + BraceDelta(x) < 0 then 1 else 0
  {
    hide WithoutComments, ShortPrelude, Slice, BlockAllowed, StatementAllowed, BraceDeltas;
  }

  /**
   Unmatched closing braces are reported as often as closers exceed openers in the worst prefix,
   and the depth left at the end is openers minus closers plus that number.
   */
  lemma UnmatchedBracesAreCounted(s: string, path: string)
    ensures var m := Marks(s);
            var reported := multiset(Inspect(s, path))[UnmatchedClosingBrace(path)];
            && (forall n :: 0 <= n <= |m| ==> -Nesting(m[..n]) <= reported)
            && (exists n :: 0 <= n <= |m| && -Nesting(m[..n]) == reported)
            && Depth(m) == Nesting(m) + reported
  {
    hide MarkFailures, WithoutComments, ShortPrelude, Slice, MarksUpTo, Kinds, BraceDeltas, Clamped, Clamps, Sum, Deficit;
    var m := Marks(s);
    UnmatchedAreClamps(s, path, m);
    ClampsAreDeficit(BraceDeltas(m));
    ClampedIsSumPlusDeficit(BraceDeltas(m));
    DeficitIsLargestShortfall(BraceDeltas(m));
    forall n | 0 <= n <= |m| ensures Nesting(m[..n]) == Sum(BraceDeltas(m)[..n]) {
      DeltasUpTo(m, n);
    }
    var w :| 0 <= w <= |BraceDeltas(m)| && -Sum(BraceDeltas(m)[..w]) == Deficit(BraceDeltas(m));
    assert -Nesting(m[..w]) == Deficit(BraceDeltas(m));
  }

  /** The same law for the parenthesis counter, at every position. */
  lemma ParenthesesAreCounted(s: string, n: nat)
    requires n <= |s|
    ensures var d := ParenDeltas(s, Kinds(s), n);
            && ParenDepth(s, Kinds(s), n) == Sum(d) + Clamps(d)
            && (forall i :: 0 <= i <= n ==> -Sum(d[..i]) <= Clamps(d))
            && (exists i :: 0 <= i <= n && -Sum(d[..i]) == Clamps(d))
  {
    hide ParenDeltas, Kinds, Clamped, Clamps, Sum, Deficit;
    var d := ParenDeltas(s, Kinds(s), n);
    ClampsAreDeficit(d);
    ClampedIsSumPlusDeficit(d);
    DeficitIsLargestShortfall(d);
  }

  // ----- When the report is clean, continued -----

  lemma CleanIsWellLayered(s: string, path: string)
    requires Inspect(s, path) == []
    ensures WellLayered(s)
  {
    hide MarkFailures, FailureAt, Depth, Nesting, LayeredAt, UnmatchedCloser, OnlyTrivia, WithoutComments, Slice, MarksUpTo, Kinds, Clamps;
    var m := Marks(s);
    assert m[..|m|] == m;
    UnmatchedAreClamps(s, path, m);
    DepthIsNesting(m);
    MarkFailuresEmptyIff(s, path, m);
    forall i | 0 <= i < |m| && Nesting(m[..i]) == 0 ensures LayeredAt(s, m[..i], m[i]) {
      FailureFreeIff(s, path, m[..i], m[i]);
    }
    UnfinishedAtTop(m);
    BlankIffOnlyTrivia(Tail(s));
  }

  lemma WellLayeredIsClean(s: string, path: string)
    requires WellLayered(s)
    ensures Inspect(s, path) == []
  {
    hide MarkFailures, FailureAt, Depth, Nesting, LayeredAt, OnlyTrivia, WithoutComments, Slice, MarksUpTo, Kinds, Clamps;
    var m := Marks(s);
    assert m[..|m|] == m;
    DepthIsNesting(m);
    MarkFailuresEmptyIff(s, path, m);
    forall i | 0 <= i < |m| ensures FailureAt(s, path, m[..i], m[i]) == [] {
      NestingOn(m, i);
      FailureFreeIff(s, path, m[..i], m[i]);
    }
    UnfinishedAtTop(m);
    BlankIffOnlyTrivia(Tail(s));
  }

  /** The report is clean exactly for well-layered stylesheets. */
  lemma CleanIffWellLayered(s: string, path: string)
    ensures Inspect(s, path) == [] <==> WellLayered(s)
  {
    hide *;
    if Inspect(s, path) == [] {
      CleanIsWellLayered(s, path);
    }
    if WellLayered(s) {
      WellLayeredIsClean(s, path);
    }
  }
}
