/**
 The top-level block gate of check-css-cascade.mjs: `inspectTopLevelBlocks` and the text
 helpers it uses.

 `InspectTopLevelBlocks` is the one-pass loop. `Inspect` is what it computes, in two phases:
 first every character gets its lexical kind (module CssLexer), then only the code braces and
 semicolons outside parentheses, the marks, are walked.
 */
module CssCascade {
  import opened Text
  import opened CssLexer
  import opened Clamping

  const ALLOWED_BLOCK_AT_RULES: set<string> :=
    {"@layer", "@theme", "@font-face", "@property", "@keyframes", "@-webkit-keyframes", "@counter-style"}

  const ALLOWED_STATEMENT_AT_RULES: seq<string> :=
    ["@charset", "@import", "@layer", "@source", "@config", "@plugin", "@custom-variant"]

  datatype Failure =
    | UnlayeredBlock(path: string, prelude: string)
    | UnmatchedClosingBrace(path: string)
    | UnlayeredStatement(path: string, statement: string)
    | UnbalancedBraces(path: string, depth: nat)
    | TrailingCss(path: string, text: string)

  // ----- Text helpers -----

  // Replacing /\/\*[\s\S]*?\*\//g by nothing: the first opener that has a closer behind it
  // is removed up to that closer, and the search goes on behind it.
  function StripComments(v: string): string
    decreases |v|
  {
    if v == "" then ""
    else if OpensComment(v) && BodyCloses(v[2..]) then StripComments(v[TokenLength(v)..])
    else [v[0]] + StripComments(v[1..])
  }

  function WithoutComments(v: string): string {
    Trim(JsSpace, StripComments(v))
  }

  // [\w-]
  predicate NameCharacter(c: char) {
    'a' <= c <= 'z' || 'A' <= c <= 'Z' || '0' <= c <= '9' || c == '_' || c == '-'
  }

  function NameLength(s: string): (n: nat)
    ensures n <= |s|
  {
    if s != "" && NameCharacter(s[0]) then 1 + NameLength(s[1..]) else 0
  }

  function AtRuleName(prelude: string): string {
    if prelude != "" && prelude[0] == '@' && NameLength(prelude[1..]) > 0
    then prelude[..1 + NameLength(prelude[1..])]
    else ""
  }

  // Replacing /\s+/g by one blank.
  function CollapseSpace(s: string): string {
    if s == "" then ""
    else if !JsSpace(s[0]) then [s[0]] + CollapseSpace(s[1..])
    else if |s| > 1 && JsSpace(s[1]) then CollapseSpace(s[1..])
    else " " + CollapseSpace(s[1..])
  }

  function ShortPrelude(prelude: string): string {
    var c := CollapseSpace(prelude);
    if |c| > 100 then c[..100] else c
  }

  // String.prototype.slice for non-negative bounds.
  function Slice(s: string, from: nat, to: nat): string {
    if from <= to <= |s| then s[from..to] else ""
  }

  predicate BlockAllowed(prelude: string) {
    AtRuleName(prelude) in ALLOWED_BLOCK_AT_RULES
  }

  predicate StatementAllowed(statement: string) {
    exists i :: 0 <= i < |ALLOWED_STATEMENT_AT_RULES| && ALLOWED_STATEMENT_AT_RULES[i] <= statement
  }

  // ----- Phase one: parentheses and marks -----

  function ParenDelta(c: char, k: Kind): int {
    if k != Code then 0 else if c == '(' then 1 else if c == ')' then -1 else 0
  }

  function ParenDeltas(s: string, k: seq<Kind>, n: nat): (d: seq<int>)
    requires n <= |s| == |k|
    ensures |d| == n && forall i :: 0 <= i < n ==> d[i] == ParenDelta(s[i], k[i])
  {
    if n == 0 then [] else ParenDeltas(s, k, n - 1) + [ParenDelta(s[n - 1], k[n - 1])]
  }

  function ParenDepth(s: string, k: seq<Kind>, n: nat): nat
    requires n <= |s| == |k|
  {
    Clamped(ParenDeltas(s, k, n))
  }

  datatype Mark = Mark(pos: nat, symbol: char)

  predicate IsMark(s: string, k: seq<Kind>, i: nat)
    requires i < |s| == |k|
  {
    k[i] == Code && (s[i] == '{' || s[i] == '}' || s[i] == ';') && ParenDepth(s, k, i) == 0
  }

  function MarksUpTo(s: string, k: seq<Kind>, n: nat): seq<Mark>
    requires n <= |s| == |k|
  {
    if n == 0 then []
    else MarksUpTo(s, k, n - 1) + (if IsMark(s, k, n - 1) then [Mark(n - 1, s[n - 1])] else [])
  }

  function Marks(s: string): seq<Mark> {
    MarksUpTo(s, Kinds(s), |s|)
  }

  // ----- Phase two: walking the marks -----

  function BraceDelta(m: Mark): int {
    if m.symbol == '{' then 1 else if m.symbol == '}' then -1 else 0
  }

  function BraceDeltas(m: seq<Mark>): (d: seq<int>)
    ensures |d| == |m| && forall i :: 0 <= i < |d| ==> d[i] == BraceDelta(m[i])
  {
    if m == [] then [] else BraceDeltas(m[..|m| - 1]) + [BraceDelta(m[|m| - 1])]
  }

  function Depth(m: seq<Mark>): nat {
    Clamped(BraceDeltas(m))
  }

  // Where a text that ends at the next mark begins.
  function Behind(m: seq<Mark>): nat {
    if m == [] then 0 else m[|m| - 1].pos + 1
  }

  // Where the unfinished text begins: a semicolon inside a block does not move it.
  function Unfinished(m: seq<Mark>): nat {
    if m == [] then 0
    else if m[|m| - 1].symbol == ';' && Depth(m[..|m| - 1]) > 0 then Unfinished(m[..|m| - 1])
    else Behind(m)
  }

  // The failure a mark causes, given the marks before it.
  function FailureAt(s: string, path: string, before: seq<Mark>, m: Mark): seq<Failure> {
    if Depth(before) > 0 then []
    else
      var text := WithoutComments(Slice(s, Behind(before), m.pos));
      if m.symbol == '}' then [UnmatchedClosingBrace(path)]
      else if m.symbol == '{' && text != "" && !BlockAllowed(text) then [UnlayeredBlock(path, ShortPrelude(text))]
      else if m.symbol == ';' && text != "" && !StatementAllowed(text) then [UnlayeredStatement(path, ShortPrelude(text))]
      else []
  }

  function MarkFailures(s: string, path: string, m: seq<Mark>): seq<Failure> {
    if m == [] then []
    else MarkFailures(s, path, m[..|m| - 1]) + FailureAt(s, path, m[..|m| - 1], m[|m| - 1])
  }

  function EndFailures(s: string, path: string, m: seq<Mark>): seq<Failure> {
    var trailing := WithoutComments(Slice(s, Unfinished(m), |s|));
    (if Depth(m) != 0 then [UnbalancedBraces(path, Depth(m))] else [])
    + (if trailing != "" then [TrailingCss(path, ShortPrelude(trailing))] else [])
  }

  function Inspect(s: string, path: string): seq<Failure> {
    MarkFailures(s, path, Marks(s)) + EndFailures(s, path, Marks(s))
  }

  // ----- The one-pass loop -----

  /** Where in a token the loop stands. */
  datatype Mode = Between | InComment | InString(quote: char, escaped: bool)

  function ModeOf(inComment: bool, quote: string, escaped: bool): Mode {
    if inComment then InComment else if quote != "" then InString(quote[0], escaped) else Between
  }

  // How much of the rest of the text still belongs to the token the loop stands in.
  function Pending(mode: Mode, r: string): (n: nat)
    ensures n <= |r|
  {
    match mode
    case Between => 0
    case InComment => BodyLength(r)
    case InString(q, escaped) =>
      if escaped && r != "" then 1 + StringLength(r[1..], q) else StringLength(r, q)
  }

  // The kind of the characters still pending in a mode.
  function PendingKind(mode: Mode): Kind {
    if mode == InComment then Comment else Quoted
  }

  // One turn of the lexer: the mode it leaves and the number of characters it consumes.
  function Advance(mode: Mode, r: string): (Mode, nat)
    requires r != ""
  {
    match mode
    case InComment => if |r| > 1 && r[0] == '*' && r[1] == '/' then (Between, 2) else (InComment, 1)
    case InString(q, escaped) =>
      if escaped then (InString(q, false), 1)
      else if r[0] == '\\' then (InString(q, true), 1)
      else if r[0] == q then (Between, 1)
      else (mode, 1)
    case Between =>
      if OpensComment(r) then (InComment, 2)
      else if IsQuote(r[0]) then (InString(r[0], false), 1)
      else (Between, 1)
  }

  // The kinds of a rest that is entered in the given mode.
  function Resumed(mode: Mode, r: string): seq<Kind> {
    Run(PendingKind(mode), Pending(mode, r)) + Kinds(r[Pending(mode, r)..])
  }

  lemma PendingShrinks(mode: Mode, r: string)
    requires r != "" && mode != Between
    ensures Pending(mode, r) == Advance(mode, r).1 + Pending(Advance(mode, r).0, r[Advance(mode, r).1..])
  {
    match mode
    case InComment =>
    case InString(q, escaped) =>
      if !escaped && r[0] == '\\' && |r| > 1 {
        assert r[2..] == r[1..][1..];
      }
    case Between =>
  }

  // A run of n characters and what follows, split behind its first characters.
  lemma RunSplits(kind: Kind, a: nat, b: nat, rest: seq<Kind>)
    ensures Run(kind, a + b) + rest == Run(kind, a) + (Run(kind, b) + rest)
  {}

  /** Entered in a mode, a text starts with the characters consumed now and goes on in the next mode. */
  lemma ResumedSplits(mode: Mode, r: string)
    requires r != ""
    ensures var (next, width) := Advance(mode, r);
            && width <= |r|
            && Resumed(mode, r) == Run(if mode == Between then TokenKind(r) else PendingKind(mode), width) + Resumed(next, r[width..])
  {
    if mode == Between {
      ResumedBetween(r);
      BetweenSplits(r);
    } else {
      var (next, width) := Advance(mode, r);
      var left := Pending(next, r[width..]);
      PendingShrinks(mode, r);
      assert r[width + left..] == r[width..][left..];
      RunSplits(PendingKind(mode), width, left, Kinds(r[width + left..]));
      assert left > 0 ==> PendingKind(next) == PendingKind(mode);
    }
  }

  lemma ResumedBetween(r: string)
    ensures Resumed(Between, r) == Kinds(r)
  {
    assert r[0..] == r && Run(PendingKind(Between), 0) + Kinds(r) == Kinds(r);
  }

  // The characters consumed at a token's start and those pending behind them make up the token.
  lemma AdvanceEntersToken(r: string)
    requires r != ""
    ensures var (next, width) := Advance(Between, r);
            var left := Pending(next, r[width..]);
            && width <= |r|
            && TokenLength(r) == width + left
            && (left > 0 ==> PendingKind(next) == TokenKind(r))
  {}

  lemma BetweenSplits(r: string)
    requires r != ""
    ensures var (next, width) := Advance(Between, r);
            && width <= |r|
            && Kinds(r) == Run(TokenKind(r), width) + Resumed(next, r[width..])
  {
    hide *;
    AdvanceEntersToken(r);
    var (next, width) := Advance(Between, r);
    var behind := r[width..];
    var left := Pending(next, behind);
    var rest := r[width + left..];
    KindsOfToken(r, rest);
    DropTwice(r, width, left);
    ResumedWith(next, behind, TokenKind(r), rest);
    RunTakesOver(TokenKind(r), TokenLength(r), width, left, Kinds(rest), Kinds(r), Resumed(next, behind));
  }

  lemma DropTwice(r: string, a: nat, b: nat)
    requires a + b <= |r|
    ensures r[a..][b..] == r[a + b..]
  {}

  lemma RunTakesOver(kind: Kind, n: nat, a: nat, b: nat, rest: seq<Kind>, whole: seq<Kind>, resumed: seq<Kind>)
    requires n == a + b && whole == Run(kind, n) + rest && resumed == Run(kind, b) + rest
    ensures whole == Run(kind, a) + resumed
  {
    RunSplits(kind, a, b, rest);
  }

  lemma ResumedWith(mode: Mode, r: string, kind: Kind, rest: string)
    requires (Pending(mode, r) > 0 ==> PendingKind(mode) == kind) && rest == r[Pending(mode, r)..]
    ensures Resumed(mode, r) == Run(kind, Pending(mode, r)) + Kinds(rest)
  {
    hide Pending, PendingKind, Kinds;
  }

  /** The rest of the text is lexed as it is when entered in that mode. */
  predicate LexedFrom(s: string, k: seq<Kind>, at: nat, mode: Mode) {
    at <= |s| == |k| && k[at..] == Resumed(mode, s[at..])
  }

  lemma LexesOn(s: string, k: seq<Kind>, at: nat, mode: Mode)
    requires at < |s| == |k| && LexedFrom(s, k, at, mode)
    ensures var (next, width) := Advance(mode, s[at..]);
            && at + width <= |s|
            && LexedFrom(s, k, at + width, next)
            && (forall i :: at <= i < at + width ==> (k[i] == Code <==> mode == Between && next == Between))
  {
    hide Resumed, Pending, TokenLength;
    var r := s[at..];
    var (next, width) := Advance(mode, r);
    ResumedSplits(mode, r);
    assert s[at + width..] == r[width..];
    assert k[at + width..] == k[at..][width..];
    forall i | at <= i < at + width
      ensures k[i] == if mode == Between then TokenKind(r) else PendingKind(mode)
    {
      assert k[i] == k[at..][i - at];
    }
  }

  lemma WalkStarts(s: string, path: string)
    ensures LexedFrom(s, Kinds(s), 0, Between)
    ensures MarksUpTo(s, Kinds(s), 0) == [] && ParenDepth(s, Kinds(s), 0) == 0
    ensures Depth([]) == 0 && Unfinished([]) == 0 && MarkFailures(s, path, []) == []
  {
    assert s[0..] == s && Kinds(s)[0..] == Kinds(s);
    assert Run(Quoted, 0) + Kinds(s) == Kinds(s);
  }

  lemma WalkOn(s: string, k: seq<Kind>, n: nat)
    requires n < |s| == |k|
    ensures MarksUpTo(s, k, n + 1) == MarksUpTo(s, k, n) + (if IsMark(s, k, n) then [Mark(n, s[n])] else [])
    ensures ParenDepth(s, k, n + 1) == Clamp(ParenDepth(s, k, n) + ParenDelta(s[n], k[n]))
  {
    Snoc(ParenDeltas(s, k, n), ParenDelta(s[n], k[n]));
  }

  lemma MarkOn(s: string, path: string, m: seq<Mark>, x: Mark)
    ensures MarkFailures(s, path, m + [x]) == MarkFailures(s, path, m) + FailureAt(s, path, m, x)
    ensures Depth(m + [x]) == Clamp(Depth(m) + BraceDelta(x))
    ensures Unfinished(m + [x]) == if x.symbol == ';' && Depth(m) > 0 then Unfinished(m) else x.pos + 1
  {
    assert (m + [x])[..|m|] == m;
    Snoc(BraceDeltas(m), BraceDelta(x));
  }

  lemma UnfinishedAtTop(m: seq<Mark>)
    ensures Depth(m) == 0 ==> Unfinished(m) == Behind(m)
  {
    hide Depth, MarkFailures, FailureAt, Unfinished;
    if m == [] {
      WalkStarts("", "");
    } else {
      var before, x := m[..|m| - 1], m[|m| - 1];
      assert m == before + [x];
      MarkOn("", "", before, x);
    }
  }

  lemma BlockFailure(s: string, path: string, m: seq<Mark>, at: nat)
    ensures var text := WithoutComments(Slice(s, Behind(m), at));
            FailureAt(s, path, m, Mark(at, '{'))
            == if Depth(m) == 0 && text != "" && !(AtRuleName(text) != "" && AtRuleName(text) in ALLOWED_BLOCK_AT_RULES)
               then [UnlayeredBlock(path, ShortPrelude(text))] else []
  {
    hide WithoutComments, Slice, ShortPrelude, AtRuleName, Depth, Behind;
  }

  lemma CloserFailure(s: string, path: string, m: seq<Mark>, at: nat)
    ensures FailureAt(s, path, m, Mark(at, '}')) == if Depth(m) == 0 then [UnmatchedClosingBrace(path)] else []
  {
    hide WithoutComments, Slice, Depth, Behind;
  }

  lemma StatementFailure(s: string, path: string, m: seq<Mark>, at: nat)
    ensures var text := WithoutComments(Slice(s, Behind(m), at));
            FailureAt(s, path, m, Mark(at, ';'))
            == if Depth(m) == 0 && text != "" && !StatementAllowed(text)
               then [UnlayeredStatement(path, ShortPrelude(text))] else []
  {
    hide WithoutComments, Slice, ShortPrelude, StatementAllowed, Depth, Behind;
  }

  class FailureLog {
    var items: seq<Failure>

    constructor ()
      ensures items == []
    {
      items := [];
    }

    method Push(f: Failure)
      modifies this
      ensures items == old(items) + [f]
    {
      items := items + [f];
    }
  }

  method InspectTopLevelBlocks(source: string, relativePath: string, failures: FailureLog)
    modifies failures
    ensures failures.items == old(failures.items) + Inspect(source, relativePath)
  {
    hide MarksUpTo, MarkFailures, Depth, Unfinished, ParenDepth, Resumed, Kinds;
    hide WithoutComments, Slice, ShortPrelude, AtRuleName, BlockAllowed, StatementAllowed, FailureAt, Clamped, Behind, LexedFrom;
    var depth, parenDepth, statementStart := 0, 0, 0;
    var quote: string := "";
    var escaped, inComment := false, false;
    ghost var k := Kinds(source);
    ghost var m: seq<Mark> := [];
    WalkStarts(source, relativePath);

    var index := 0;
    while index < |source|
      invariant index <= |source|
      invariant |quote| <= 1
      invariant (inComment ==> quote == "") && (quote == "" ==> !escaped)
      invariant LexedFrom(source, k, index, ModeOf(inComment, quote, escaped))
      invariant m == MarksUpTo(source, k, index)
      invariant parenDepth == ParenDepth(source, k, index)
      invariant 0 <= depth == Depth(m)
      invariant statementStart == Unfinished(m)
      invariant failures.items == old(failures.items) + MarkFailures(source, relativePath, m)
    {
      ghost var before := failures.items;
      var at := index;
      var character := source[at];
      var hasNext := at + 1 < |source|;
      LexesOn(source, k, at, ModeOf(inComment, quote, escaped));
      WalkOn(source, k, at);
      index := index + 1;
      if inComment {
        if character == '*' && hasNext && source[at + 1] == '/' {
          inComment := false;
          WalkOn(source, k, index);
          index := index + 1;
        }
        continue;
      }
      if quote != "" {
        if escaped { escaped := false; }
        else if character == '\\' { escaped := true; }
        else if character == quote[0] { quote := ""; }
        continue;
      }
      if character == '/' && hasNext && source[at + 1] == '*' {
        inComment := true;
        WalkOn(source, k, index);
        index := index + 1;
        continue;
      }
      if character == '"' || character == '\'' { quote := [character]; continue; }
      if character == '(' { parenDepth := parenDepth + 1; continue; }
      if character == ')' { parenDepth := Max(0, parenDepth - 1); continue; }
      if parenDepth > 0 { continue; }

      if character == '{' {
        MarkOn(source, relativePath, m, Mark(at, character));
        UnfinishedAtTop(m);
        var prelude := WithoutComments(Slice(source, statementStart, at));
        BlockFailure(source, relativePath, m, at);
        if depth == 0 && prelude != "" {
          var name := AtRuleName(prelude);
          if name == "" || name !in ALLOWED_BLOCK_AT_RULES {
            failures.Push(UnlayeredBlock(relativePath, ShortPrelude(prelude)));
          }
        }
        assert failures.items == before + FailureAt(source, relativePath, m, Mark(at, character));
        depth := depth + 1;
        statementStart := at + 1;
        m := m + [Mark(at, character)];
        continue;
      }
      if character == '}' {
        MarkOn(source, relativePath, m, Mark(at, character));
        CloserFailure(source, relativePath, m, at);
        depth := depth - 1;
        if depth < 0 {
          failures.Push(UnmatchedClosingBrace(relativePath));
          depth := 0;
        }
        assert failures.items == before + FailureAt(source, relativePath, m, Mark(at, character));
        statementStart := at + 1;
        m := m + [Mark(at, character)];
        continue;
      }
      if character == ';' {
        MarkOn(source, relativePath, m, Mark(at, character));
        StatementFailure(source, relativePath, m, at);
        if depth == 0 {
          UnfinishedAtTop(m);
          var statement := WithoutComments(Slice(source, statementStart, at));
          if statement != "" && !StatementAllowed(statement) {
            failures.Push(UnlayeredStatement(relativePath, ShortPrelude(statement)));
          }
          statementStart := at + 1;
        }
        assert failures.items == before + FailureAt(source, relativePath, m, Mark(at, character));
        m := m + [Mark(at, character)];
      }
    }
    if depth != 0 {
      failures.Push(UnbalancedBraces(relativePath, depth));
    }
    var trailing := WithoutComments(Slice(source, statementStart, |source|));
    if trailing != "" {
      failures.Push(TrailingCss(relativePath, ShortPrelude(trailing)));
    }
  }

  function Max(a: int, b: int): int {
    if a < b then b else a
  }
}
