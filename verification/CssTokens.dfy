/** Where the tokens of the cascade gate end, spelled out on the text. */
module CssTokens {
  import opened CssLexer

  predicate CloserAt(r: string, i: nat) {
    i + 1 < |r| && r[i] == '*' && r[i + 1] == '/'
  }

  /** A comment ends with the first closer behind its opener; without one it runs to the end. */
  lemma {:induction false} CommentEndsAtFirstCloser(r: string)
    ensures BodyCloses(r) <==> exists i: nat :: CloserAt(r, i)
    ensures BodyCloses(r) ==> BodyLength(r) >= 2 && CloserAt(r, BodyLength(r) - 2)
    ensures BodyCloses(r) ==> forall i: nat :: i + 2 < BodyLength(r) ==> !CloserAt(r, i)
    ensures !BodyCloses(r) ==> BodyLength(r) == |r|
  {
    if |r| >= 2 && !(r[0] == '*' && r[1] == '/') {
      var rest := r[1..];
      CommentEndsAtFirstCloser(rest);
      forall i: nat ensures CloserAt(rest, i) <==> CloserAt(r, i + 1) {}
      forall i: nat | CloserAt(r, i) ensures i > 0 && CloserAt(rest, i - 1) {}
      forall i: nat | BodyCloses(r) && i + 2 < BodyLength(r) ensures !CloserAt(r, i) {
        if i > 0 { assert !CloserAt(rest, i - 1); }
      }
    } else if |r| >= 2 {
      assert CloserAt(r, 0);
    }
  }

  /** The backslashes directly in front of a position. */
  function Backslashes(r: string, i: nat): nat
    requires i <= |r|
  {
    if i > 0 && r[i - 1] == '\\' then 1 + Backslashes(r, i - 1) else 0
  }

  /** A quote that no escape takes: an even number of backslashes stands in front of it. */
  predicate FreeQuoteAt(r: string, q: char, i: nat) {
    i < |r| && r[i] == q && Backslashes(r, i) % 2 == 0
  }

  lemma {:induction false} BackslashesBehind(r: string, skip: nat, i: nat)
    requires skip <= i <= |r| && Backslashes(r, skip) % 2 == 0
    ensures Backslashes(r, i) % 2 == Backslashes(r[skip..], i - skip) % 2
    decreases i
  {
    if i > skip {
      assert r[skip..][i - skip - 1] == r[i - 1];
      if r[i - 1] == '\\' {
        BackslashesBehind(r, skip, i - 1);
      }
    }
  }

  lemma FreeQuotesBehind(r: string, q: char, skip: nat)
    requires skip <= |r| && Backslashes(r, skip) % 2 == 0
    ensures forall i: nat :: FreeQuoteAt(r[skip..], q, i) <==> FreeQuoteAt(r, q, i + skip)
  {
    hide Backslashes;
    forall i: nat | i + skip < |r| ensures FreeQuoteAt(r[skip..], q, i) <==> FreeQuoteAt(r, q, i + skip) {
      BackslashesBehind(r, skip, i + skip);
    }
  }

  /** A string ends with the first quote of its kind that is not escaped; without one it runs to the end. */
  lemma {:induction false} StringEndsAtFirstFreeQuote(r: string, q: char)
    requires q != '\\'
    ensures StringCloses(r, q) <==> exists i: nat :: FreeQuoteAt(r, q, i)
    ensures StringCloses(r, q) ==> StringLength(r, q) >= 1 && FreeQuoteAt(r, q, StringLength(r, q) - 1)
    ensures StringCloses(r, q) ==> forall i: nat :: i + 1 < StringLength(r, q) ==> !FreeQuoteAt(r, q, i)
    ensures !StringCloses(r, q) ==> StringLength(r, q) == |r|
  {
    if r == "" {
    } else if r[0] == q {
      assert FreeQuoteAt(r, q, 0);
    } else if r[0] == '\\' && |r| == 1 {
      assert forall i: nat :: FreeQuoteAt(r, q, i) ==> i == 0;
    } else {
      var skip := if r[0] == '\\' then 2 else 1;
      assert Backslashes(r, 1) == (if r[0] == '\\' then 1 else 0);
      assert !FreeQuoteAt(r, q, 0) && (skip == 2 ==> !FreeQuoteAt(r, q, 1));
      StringEndsAtFirstFreeQuote(r[skip..], q);
      StringBehind(r, q, skip);
      FreeQuotesBehind(r, q, skip);
      hide StringLength, StringCloses, FreeQuoteAt;
      QuoteBehind(r, q, skip);
    }
  }

  lemma StringBehind(r: string, q: char, skip: nat)
    requires r != "" && r[0] != q && !(r[0] == '\\' && |r| == 1)
    requires skip == if r[0] == '\\' then 2 else 1
    ensures StringCloses(r, q) <==> StringCloses(r[skip..], q)
    ensures StringLength(r, q) == skip + StringLength(r[skip..], q)
  {}

  // What holds of the quotes behind a skip carries over to the whole.
  lemma QuoteBehind(r: string, q: char, skip: nat)
    requires 0 < skip <= |r| && forall i: nat :: i < skip ==> !FreeQuoteAt(r, q, i)
    requires forall i: nat :: FreeQuoteAt(r[skip..], q, i) <==> FreeQuoteAt(r, q, i + skip)
    ensures (exists i: nat :: FreeQuoteAt(r, q, i)) <==> exists i: nat :: FreeQuoteAt(r[skip..], q, i)
    ensures forall i: nat :: i >= skip ==> (FreeQuoteAt(r, q, i) <==> FreeQuoteAt(r[skip..], q, i - skip))
  {
    hide FreeQuoteAt;
    forall i: nat | i >= skip ensures FreeQuoteAt(r, q, i) <==> FreeQuoteAt(r[skip..], q, i - skip) {
      assert i - skip + skip == i;
    }
  }

  /** What the first token is and how far it reaches. */
  ghost predicate FirstToken(s: string, kind: Kind, n: nat) {
    0 < n <= |s| &&
    if |s| >= 2 && s[0] == '/' && s[1] == '*' then
      kind == Comment && n >= 2
      && (forall i: nat :: i + 4 < n ==> !CloserAt(s[2..], i))
      && (if exists i: nat :: CloserAt(s[2..], i) then n >= 4 && CloserAt(s[2..], n - 4) else n == |s|)
    else if s[0] == '"' || s[0] == '\'' then
      kind == Quoted
      && (forall i: nat :: i + 2 < n ==> !FreeQuoteAt(s[1..], s[0], i))
      && (if exists i: nat :: FreeQuoteAt(s[1..], s[0], i) then n >= 2 && FreeQuoteAt(s[1..], s[0], n - 2) else n == |s|)
    else kind == Code && n == 1
  }

  /** A text is its first token, all of one kind, and then the tokens of the rest. */
  lemma KindsAreTokens(s: string) returns (kind: Kind, n: nat)
    requires s != ""
    ensures FirstToken(s, kind, n)
    ensures Kinds(s) == Run(kind, n) + Kinds(s[n..])
  {
    kind, n := TokenKind(s), TokenLength(s);
    if OpensComment(s) {
      CommentEndsAtFirstCloser(s[2..]);
    } else if IsQuote(s[0]) {
      StringEndsAtFirstFreeQuote(s[1..], s[0]);
    }
    KindsOfToken(s, s[n..]);
    hide Kinds, BodyCloses, BodyLength, StringCloses, StringLength, CloserAt, FreeQuoteAt;
  }
}
