/**
 What the cascade gate counts and what it reports, spelled out on the text: the characters it counts,
 the marks it sees, and the cause of every failure.
 */
module CssReport {
  import opened Text
  import opened CssLexer
  import opened Clamping
  import opened CssCascade

  // ----- Counting characters -----

  /** How often c stands as code in s[i..n]. */
  function Count(s: string, k: seq<Kind>, c: char, i: nat, n: nat): nat
    requires i <= n <= |s| == |k|
  {
    if i == n then 0 else Count(s, k, c, i, n - 1) + (if k[n - 1] == Code && s[n - 1] == c then 1 else 0)
  }

  function Excess(s: string, k: seq<Kind>, i: nat, n: nat): int
    requires i <= n <= |s| == |k|
  {
    Count(s, k, '(', i, n) - Count(s, k, ')', i, n)
  }

  lemma ExcessOn(s: string, k: seq<Kind>, i: nat, n: nat)
    requires i <= n < |s| == |k|
    ensures Excess(s, k, i, n + 1) == Excess(s, k, i, n) + ParenDelta(s[n], k[n])
  {}

  lemma NoExcess(s: string, k: seq<Kind>, n: nat)
    requires n <= |s| == |k|
    ensures Excess(s, k, n, n) == 0
  {}

  lemma WalkStartsAtZero(s: string, k: seq<Kind>)
    requires |s| == |k|
    ensures ParenDepth(s, k, 0) == 0
  {}

  lemma {:induction false} LargestExcess(s: string, k: seq<Kind>, n: nat)
    requires n <= |s| == |k|
    ensures forall i :: 0 <= i <= n ==> Excess(s, k, i, n) <= ParenDepth(s, k, n)
    ensures exists i :: 0 <= i <= n && Excess(s, k, i, n) == ParenDepth(s, k, n)
  {
    hide ParenDepth, Excess, ParenDelta, MarksUpTo, IsMark;
    NoExcess(s, k, n);
    if n == 0 {
      WalkStartsAtZero(s, k);
    } else {
      LargestExcess(s, k, n - 1);
      WalkOn(s, k, n - 1);
      forall i | 0 <= i <= n - 1 ensures Excess(s, k, i, n) == Excess(s, k, i, n - 1) + ParenDelta(s[n - 1], k[n - 1]) {
        ExcessOn(s, k, i, n - 1);
      }
      var w :| 0 <= w <= n - 1 && Excess(s, k, w, n - 1) == ParenDepth(s, k, n - 1);
      assert ParenDepth(s, k, n) == Excess(s, k, w, n) || ParenDepth(s, k, n) == Excess(s, k, n, n);
    }
  }

  lemma ExcessIs(s: string, k: seq<Kind>, i: nat, n: nat)
    requires i <= n <= |s| == |k|
    ensures Excess(s, k, i, n) == Count(s, k, '(', i, n) - Count(s, k, ')', i, n)
  {}

  /** The parenthesis depth is the largest number by which openers exceed closers in what was read last. */
  lemma ParenDepthIsLargestExcess(s: string, k: seq<Kind>, n: nat)
    requires n <= |s| == |k|
    ensures forall i :: 0 <= i <= n ==> Count(s, k, '(', i, n) - Count(s, k, ')', i, n) <= ParenDepth(s, k, n)
    ensures exists i :: 0 <= i <= n && Count(s, k, '(', i, n) - Count(s, k, ')', i, n) == ParenDepth(s, k, n)
  {
    hide *;
    LargestExcess(s, k, n);
    forall i | 0 <= i <= n ensures Count(s, k, '(', i, n) - Count(s, k, ')', i, n) <= ParenDepth(s, k, n) {
      ExcessIs(s, k, i, n);
      assert Excess(s, k, i, n) <= ParenDepth(s, k, n);
    }
    var w :| 0 <= w <= n && Excess(s, k, w, n) == ParenDepth(s, k, n);
    ExcessIs(s, k, w, n);
  }

  /** Outside parentheses: no stretch that ends here opens more of them than it closes. */
  ghost predicate Outside(s: string, k: seq<Kind>, n: nat)
    requires n <= |s| == |k|
  {
    forall i :: 0 <= i <= n ==> Count(s, k, '(', i, n) <= Count(s, k, ')', i, n)
  }

  lemma OutsideIff(s: string, k: seq<Kind>, n: nat)
    requires n <= |s| == |k|
    ensures ParenDepth(s, k, n) == 0 <==> Outside(s, k, n)
  {
    hide Count, ParenDepth;
    LargestExcess(s, k, n);
    forall i | 0 <= i <= n ensures Count(s, k, '(', i, n) <= Count(s, k, ')', i, n) <==> Excess(s, k, i, n) <= 0 {
      assert Excess(s, k, i, n) == Count(s, k, '(', i, n) - Count(s, k, ')', i, n);
    }
  }

  // ----- The marks -----

  lemma {:induction false} MarksUpToAre(s: string, k: seq<Kind>, n: nat, p: nat, c: char)
    requires n <= |s| == |k|
    ensures Mark(p, c) in MarksUpTo(s, k, n) <==>
            p < n && c == s[p] && k[p] == Code && c in "{};" && Outside(s, k, p)
    ensures forall i :: 0 <= i < |MarksUpTo(s, k, n)| ==> MarksUpTo(s, k, n)[i].pos < n
    ensures forall i, j :: 0 <= i < j < |MarksUpTo(s, k, n)| ==> MarksUpTo(s, k, n)[i].pos < MarksUpTo(s, k, n)[j].pos
  {
    hide Outside, ParenDepth;
    if n > 0 {
      MarksUpToAre(s, k, n - 1, p, c);
      OutsideIff(s, k, n - 1);
      var m := MarksUpTo(s, k, n - 1);
      assert Mark(p, c) in MarksUpTo(s, k, n) <==> Mark(p, c) in m || (IsMark(s, k, n - 1) && p == n - 1 && c == s[n - 1]);
    }
  }

  /** The marks are, in order, the braces and semicolons that are code and outside parentheses. */
  lemma MarksAre(s: string)
    ensures var m := Marks(s);
            && (forall p: nat, c ::
                  Mark(p, c) in m <==> p < |s| && c == s[p] && Kinds(s)[p] == Code && c in "{};" && Outside(s, Kinds(s), p))
            && forall i, j :: 0 <= i < j < |m| ==> m[i].pos < m[j].pos
  {
    hide Outside, MarksUpTo, Kinds;
    forall p: nat, c: char
      ensures Mark(p, c) in Marks(s) <==> p < |s| && c == s[p] && Kinds(s)[p] == Code && c in "{};" && Outside(s, Kinds(s), p)
    {
      MarksUpToAre(s, Kinds(s), |s|, p, c);
    }
    MarksUpToAre(s, Kinds(s), |s|, 0, ';');
  }

  /** How many of the marks from i to n are that symbol. */
  function CountMarks(m: seq<Mark>, c: char, i: nat, n: nat): nat
    requires i <= n <= |m|
  {
    if i == n then 0 else CountMarks(m, c, i, n - 1) + (if m[n - 1].symbol == c then 1 else 0)
  }

  function BraceExcess(m: seq<Mark>, i: nat, n: nat): int
    requires i <= n <= |m|
  {
    CountMarks(m, '{', i, n) - CountMarks(m, '}', i, n)
  }

  lemma BraceExcessOn(m: seq<Mark>, i: nat, n: nat)
    requires i <= n < |m|
    ensures BraceExcess(m, i, n + 1) == BraceExcess(m, i, n) + BraceDelta(m[n])
  {}

  /** The brace depth is the largest number by which opening marks exceed closing ones among the last. */
  lemma {:induction false} BraceDepthIsLargestExcess(m: seq<Mark>, n: nat)
    requires n <= |m|
    ensures forall i :: 0 <= i <= n ==> BraceExcess(m, i, n) <= Depth(m[..n])
    ensures exists i :: 0 <= i <= n && BraceExcess(m, i, n) == Depth(m[..n])
  {
    if n == 0 {
      assert BraceExcess(m, 0, 0) == 0 == Depth(m[..0]);
    } else {
      BraceDepthIsLargestExcess(m, n - 1);
      DepthOn(m, n - 1);
      assert BraceExcess(m, n, n) == 0;
      hide Depth, BraceExcess, BraceDelta;
      forall i | 0 <= i <= n - 1 ensures BraceExcess(m, i, n) == BraceExcess(m, i, n - 1) + BraceDelta(m[n - 1]) {
        BraceExcessOn(m, i, n - 1);
      }
      var w :| 0 <= w <= n - 1 && BraceExcess(m, w, n - 1) == Depth(m[..n - 1]);
      assert Depth(m[..n]) == BraceExcess(m, w, n) || Depth(m[..n]) == BraceExcess(m, n, n);
    }
  }

  lemma DepthOn(m: seq<Mark>, n: nat)
    requires n < |m|
    ensures Depth(m[..n + 1]) == Clamp(Depth(m[..n]) + BraceDelta(m[n]))
  {
    hide BraceDelta, Depth;
    assert m[..n + 1] == m[..n] + [m[n]];
    MarkOn("", "", m[..n], m[n]);
  }

  // ----- The cause of every failure -----

  /** At the top level: no marks that end here open more blocks than they close. */
  ghost predicate AtTop(m: seq<Mark>, n: nat)
    requires n <= |m|
  {
    forall i :: 0 <= i <= n ==> CountMarks(m, '{', i, n) <= CountMarks(m, '}', i, n)
  }

  lemma AtTopIff(m: seq<Mark>, n: nat)
    requires n <= |m|
    ensures Depth(m[..n]) == 0 <==> AtTop(m, n)
  {
    hide CountMarks, Depth;
    BraceDepthIsLargestExcess(m, n);
    forall i | 0 <= i <= n ensures CountMarks(m, '{', i, n) <= CountMarks(m, '}', i, n) <==> BraceExcess(m, i, n) <= 0 {}
  }

  /** The text in front of a mark, from just behind the mark before it, without comments. */
  function TextBefore(s: string, m: seq<Mark>, n: nat): string
    requires n < |m|
  {
    WithoutComments(Slice(s, if n == 0 then 0 else m[n - 1].pos + 1, m[n].pos))
  }

  /** Behind the first n marks come only semicolons in blocks, and the last of the n is not one. */
  ghost predicate LastEnds(m: seq<Mark>, n: nat)
    requires n <= |m|
  {
    && (n > 0 ==> m[n - 1].symbol != ';' || AtTop(m, n - 1))
    && forall j :: n <= j < |m| ==> m[j].symbol == ';' && !AtTop(m, j)
  }

  function StartBehind(m: seq<Mark>, n: nat): nat
    requires n <= |m|
  {
    if n == 0 then 0 else m[n - 1].pos + 1
  }

  ghost predicate ExplainedAt(f: Failure, s: string, path: string, m: seq<Mark>, n: nat)
    requires n < |m|
  {
    var text := TextBefore(s, m, n);
    && AtTop(m, n)
    && match f
       case UnlayeredBlock(p, prelude) =>
         p == path && m[n].symbol == '{' && text != "" && prelude == ShortPrelude(text)
         && AtRuleName(text) !in {"@layer", "@theme", "@font-face", "@property", "@keyframes", "@-webkit-keyframes", "@counter-style"}
       case UnlayeredStatement(p, statement) =>
         p == path && m[n].symbol == ';' && text != "" && statement == ShortPrelude(text)
         && forall a :: a in ["@charset", "@import", "@layer", "@source", "@config", "@plugin", "@custom-variant"] ==> !(a <= text)
       case UnmatchedClosingBrace(p) => p == path && m[n].symbol == '}'
       case _ => false
  }

  predicate TrailsBehind(s: string, start: nat, text: string) {
    WithoutComments(Slice(s, start, |s|)) != "" && text == ShortPrelude(WithoutComments(Slice(s, start, |s|)))
  }

  ghost predicate ExplainedAtEnd(f: Failure, s: string, path: string, m: seq<Mark>) {
    match f
    case UnbalancedBraces(p, depth) =>
      p == path && !AtTop(m, |m|)
      && (forall i :: 0 <= i <= |m| ==> BraceExcess(m, i, |m|) <= depth)
      && (exists i :: 0 <= i <= |m| && BraceExcess(m, i, |m|) == depth)
    case TrailingCss(p, text) =>
      && p == path
      && (exists n :: 0 <= n <= |m| && LastEnds(m, n) && TrailsBehind(s, StartBehind(m, n), text))
    case _ => false
  }

  lemma UnlessAllowed(text: string)
    ensures BlockAllowed(text) <==>
              AtRuleName(text) in {"@layer", "@theme", "@font-face", "@property", "@keyframes", "@-webkit-keyframes", "@counter-style"}
    ensures StatementAllowed(text) <==>
              exists a :: a in ["@charset", "@import", "@layer", "@source", "@config", "@plugin", "@custom-variant"] && a <= text
  {
    hide AtRuleName;
    var list := ["@charset", "@import", "@layer", "@source", "@config", "@plugin", "@custom-variant"];
    assert list == ALLOWED_STATEMENT_AT_RULES;
    if StatementAllowed(text) {
      var i :| 0 <= i < |ALLOWED_STATEMENT_AT_RULES| && ALLOWED_STATEMENT_AT_RULES[i] <= text;
      assert list[i] in list && list[i] <= text;
    }
    if a :| a in list && a <= text {
      var i :| 0 <= i < |list| && list[i] == a;
      assert ALLOWED_STATEMENT_AT_RULES[i] <= text;
    }
  }

  lemma FailureAtIs(f: Failure, s: string, path: string, m: seq<Mark>, n: nat)
    requires n < |m| && m[n].symbol in "{};"
    ensures f in FailureAt(s, path, m[..n], m[n]) <==> ExplainedAt(f, s, path, m, n)
  {
    hide WithoutComments, Slice, ShortPrelude, AtRuleName, Depth, AtTop, BlockAllowed, StatementAllowed;
    AtTopIff(m, n);
    UnlessAllowed(TextBefore(s, m, n));
    assert n > 0 ==> m[..n][n - 1] == m[n - 1];
  }

  lemma {:induction false} MarkFailuresAre(f: Failure, s: string, path: string, m: seq<Mark>, n: nat)
    requires n <= |m| && forall i :: 0 <= i < |m| ==> m[i].symbol in "{};"
    ensures f in MarkFailures(s, path, m[..n]) <==> exists i :: 0 <= i < n && ExplainedAt(f, s, path, m, i)
  {
    hide FailureAt, ExplainedAt;
    if n > 0 {
      assert m[..n][..n - 1] == m[..n - 1];
      MarkFailuresAre(f, s, path, m, n - 1);
      FailureAtIs(f, s, path, m, n - 1);
    }
  }

  lemma {:induction false} UnfinishedIs(m: seq<Mark>, n: nat) returns (last: nat)
    requires n <= |m|
    requires forall j :: n <= j < |m| ==> m[j].symbol == ';' && !AtTop(m, j)
    ensures last <= |m| && LastEnds(m, last) && StartBehind(m, last) == Unfinished(m[..n])
  {
    hide AtTop, Depth;
    last := n;
    if n > 0 {
      assert m[..n][..n - 1] == m[..n - 1] && m[..n][n - 1] == m[n - 1];
      AtTopIff(m, n - 1);
      if m[n - 1].symbol == ';' && !AtTop(m, n - 1) {
        last := UnfinishedIs(m, n - 1);
      }
    }
  }

  lemma OneLastEnds(m: seq<Mark>, i: nat, n: nat)
    requires i <= |m| && n <= |m| && LastEnds(m, i) && LastEnds(m, n)
    ensures i <= n
  {
    hide AtTop;
  }

  lemma EndFailuresAre(f: Failure, s: string, path: string, m: seq<Mark>)
    ensures f in EndFailures(s, path, m) <==> ExplainedAtEnd(f, s, path, m)
  {
    hide WithoutComments, Slice, ShortPrelude, Depth, Unfinished, AtTop, LastEnds, StartBehind, BraceExcess;
    assert m[..|m|] == m;
    AtTopIff(m, |m|);
    BraceDepthIsLargestExcess(m, |m|);
    var last := UnfinishedIs(m, |m|);
    forall n | 0 <= n <= |m| && LastEnds(m, n) ensures n == last {
      OneLastEnds(m, n, last);
      OneLastEnds(m, last, n);
    }
    assert TrailsBehind(s, StartBehind(m, last), ShortPrelude(WithoutComments(Slice(s, Unfinished(m), |s|))))
      <==> WithoutComments(Slice(s, Unfinished(m), |s|)) != "";
  }

  lemma {:induction false} SymbolsAreMarks(s: string, k: seq<Kind>, n: nat)
    requires n <= |s| == |k|
    ensures forall i :: 0 <= i < |MarksUpTo(s, k, n)| ==> MarksUpTo(s, k, n)[i].symbol in "{};"
  {
    hide ParenDepth;
    if n > 0 {
      SymbolsAreMarks(s, k, n - 1);
    }
  }

  /**
   Exactly what is reported: a block or a statement that is not allowed, or an unmatched closing brace, at a
   mark at the top level, with its text; at the end, the depth that is left and the text that trails.
   */
  lemma ReportIs(f: Failure, s: string, path: string)
    ensures var m := Marks(s);
            f in Inspect(s, path) <==> (exists n :: 0 <= n < |m| && ExplainedAt(f, s, path, m, n)) || ExplainedAtEnd(f, s, path, m)
  {
    hide MarkFailures, EndFailures, ExplainedAt, ExplainedAtEnd, MarksUpTo, Kinds;
    var m := Marks(s);
    SymbolsAreMarks(s, Kinds(s), |s|);
    assert m[..|m|] == m;
    MarkFailuresAre(f, s, path, m, |m|);
    EndFailuresAre(f, s, path, m);
  }
}
