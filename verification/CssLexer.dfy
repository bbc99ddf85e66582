/**
 The lexical grammar of the CSS cascade gate (check-css-cascade.mjs).

 A source text is a sequence of tokens: a comment, a quoted string, or one code character.
 The grammar is the gate's own: a newline does not end a string, an escape takes the next
 character whatever it is, and an unclosed comment or string runs to the end of the text.
 */
module CssLexer {

  datatype Kind = Code | Quoted | Comment

  predicate IsQuote(c: char) {
    c == '"' || c == '\''
  }

  predicate OpensComment(s: string) {
    |s| >= 2 && s[0] == '/' && s[1] == '*'
  }

  /** Characters of a comment after its opener, closer included; all of them if it never closes. */
  function BodyLength(r: string): (n: nat)
    ensures n <= |r|
  {
    if |r| < 2 then |r| else if r[0] == '*' && r[1] == '/' then 2 else 1 + BodyLength(r[1..])
  }

  predicate BodyCloses(r: string) {
    |r| >= 2 && ((r[0] == '*' && r[1] == '/') || BodyCloses(r[1..]))
  }

  /** Characters of a string after its opening quote, closing quote included. */
  function StringLength(r: string, q: char): (n: nat)
    ensures n <= |r|
  {
    if r == "" then 0
    else if r[0] == '\\' then (if |r| == 1 then 1 else 2 + StringLength(r[2..], q))
    else if r[0] == q then 1
    else 1 + StringLength(r[1..], q)
  }

  predicate StringCloses(r: string, q: char) {
    && r != ""
    && (if r[0] == '\\' then |r| > 1 && StringCloses(r[2..], q)
        else r[0] == q || StringCloses(r[1..], q))
  }

  function TokenLength(s: string): (n: nat)
    requires s != ""
    ensures 1 <= n <= |s|
  {
    if OpensComment(s) then 2 + BodyLength(s[2..])
    else if IsQuote(s[0]) then 1 + StringLength(s[1..], s[0])
    else 1
  }

  function TokenKind(s: string): Kind
    requires s != ""
  {
    if OpensComment(s) then Comment else if IsQuote(s[0]) then Quoted else Code
  }

  /** The first token of s stays the same token whatever text is appended to s. */
  predicate TokenCloses(s: string)
    requires s != ""
  {
    if OpensComment(s) then BodyCloses(s[2..])
    else if IsQuote(s[0]) then StringCloses(s[1..], s[0])
    else s != "/"
  }

  function Run(k: Kind, n: nat): (r: seq<Kind>)
    ensures |r| == n && forall i :: 0 <= i < n ==> r[i] == k
  {
    if n == 0 then [] else [k] + Run(k, n - 1)
  }

  /** The kind of every character, token by token. */
  function Kinds(s: string): (k: seq<Kind>)
    ensures |k| == |s|
    decreases |s|
  {
    if s == "" then []
    else Run(TokenKind(s), TokenLength(s)) + Kinds(s[TokenLength(s)..])
  }

  /** Every token of s is closed. */
  predicate Sealed(s: string)
    decreases |s|
  {
    s == "" || (TokenCloses(s) && Sealed(s[TokenLength(s)..]))
  }

  /** Whitespace and closed comments only. */
  predicate OnlyTrivia(space: char -> bool, s: string)
    decreases |s|
  {
    || s == ""
    || (OpensComment(s) && BodyCloses(s[2..]) && OnlyTrivia(space, s[TokenLength(s)..]))
    || (!OpensComment(s) && space(s[0]) && OnlyTrivia(space, s[1..]))
  }

  // ----- Closed tokens do not see what follows them -----

  lemma {:induction false} BodyAppend(a: string, b: string)
    requires BodyCloses(a)
    ensures BodyCloses(a + b) && BodyLength(a + b) == BodyLength(a)
  {
    if !(a[0] == '*' && a[1] == '/') {
      assert (a + b)[1..] == a[1..] + b;
      BodyAppend(a[1..], b);
    }
  }

  lemma {:induction false} StringAppend(a: string, b: string, q: char)
    requires StringCloses(a, q)
    ensures StringCloses(a + b, q) && StringLength(a + b, q) == StringLength(a, q)
  {
    if a[0] == '\\' {
      assert (a + b)[2..] == a[2..] + b;
      StringAppend(a[2..], b, q);
    } else if a[0] != q {
      assert (a + b)[1..] == a[1..] + b;
      StringAppend(a[1..], b, q);
    }
  }

  lemma TokenAppend(s: string, t: string)
    requires s != "" && TokenCloses(s)
    ensures TokenCloses(s + t) && TokenLength(s + t) == TokenLength(s) && TokenKind(s + t) == TokenKind(s)
  {
    if OpensComment(s) {
      assert (s + t)[2..] == s[2..] + t;
      BodyAppend(s[2..], t);
    } else {
      assert (s + t)[1..] == s[1..] + t;
      if IsQuote(s[0]) {
        StringAppend(s[1..], t, s[0]);
      }
    }
  }

  /** Lexing a sealed text does not depend on what follows, and what follows lexes on its own. */
  lemma {:induction false} KindsAppend(s: string, t: string)
    requires Sealed(s)
    ensures Kinds(s + t) == Kinds(s) + Kinds(t)
    decreases |s|
  {
    if s == "" {
      assert s + t == t;
    } else {
      TokenAppend(s, t);
      var n := TokenLength(s);
      assert (s + t)[n..] == s[n..] + t;
      KindsAppend(s[n..], t);
    }
  }

  lemma {:induction false} SealedAppend(s: string, t: string)
    requires Sealed(s) && Sealed(t)
    ensures Sealed(s + t)
    decreases |s|
  {
    if s == "" {
      assert s + t == t;
    } else {
      TokenAppend(s, t);
      hide TokenLength, TokenCloses, TokenKind;
      assert (s + t)[TokenLength(s)..] == s[TokenLength(s)..] + t;
      SealedAppend(s[TokenLength(s)..], t);
    }
  }

  // ----- Cutting a text at a token boundary -----

  lemma {:induction false} BodyCut(r: string, m: nat)
    requires BodyLength(r) <= m <= |r| && BodyLength(r) < |r|
    ensures BodyCloses(r[..m]) && BodyLength(r[..m]) == BodyLength(r)
  {
    if !(r[0] == '*' && r[1] == '/') {
      BodyCut(r[1..], m - 1);
      assert r[..m][1..] == r[1..][..m - 1];
    }
  }

  lemma {:induction false} StringCut(r: string, q: char, m: nat)
    requires StringLength(r, q) <= m <= |r| && StringLength(r, q) < |r|
    ensures StringCloses(r[..m], q) && StringLength(r[..m], q) == StringLength(r, q)
  {
    if r[0] == '\\' {
      StringCut(r[2..], q, m - 2);
      assert r[..m][2..] == r[2..][..m - 2];
    } else if r[0] != q {
      StringCut(r[1..], q, m - 1);
      assert r[..m][1..] == r[1..][..m - 1];
    }
  }

  lemma TokenCut(s: string, m: nat)
    requires s != "" && TokenLength(s) < m <= |s|
    ensures TokenCloses(s[..m]) && TokenLength(s[..m]) == TokenLength(s)
  {
    var cut := s[..m];
    assert cut[0] == s[0] && cut[1] == s[1];
    if OpensComment(s) {
      BodyCut(s[2..], m - 2);
      assert cut[2..] == s[2..][..m - 2];
    } else if IsQuote(s[0]) {
      StringCut(s[1..], s[0], m - 1);
      assert cut[1..] == s[1..][..m - 1];
    }
  }

  /** A text cut just behind a code character other than '/' is sealed. */
  lemma {:induction false} SealedBehindCode(s: string, p: nat)
    requires p < |s| && Kinds(s)[p] == Code && s[p] != '/'
    ensures Sealed(s[..p + 1])
    decreases |s|
  {
    hide *;
    var n := TokenLength(s);
    var cut := s[..p + 1];
    KindAt(s, p);
    if p < n {
      CodeIsSealed(s);
      assert cut == [s[0]];
    } else {
      TokenCut(s, p + 1);
      assert cut[n..] == s[n..][..p - n + 1];
      SealedBehindCode(s[n..], p - n);
      SealedOn(cut);
    }
  }

  lemma KindsOfToken(r: string, rest: string)
    requires r != "" && rest == r[TokenLength(r)..]
    ensures Kinds(r) == Run(TokenKind(r), TokenLength(r)) + Kinds(rest)
  {}

  // The kind of a character is that of the token it lies in.
  lemma KindAt(s: string, p: nat)
    requires p < |s|
    ensures var n := TokenLength(s);
            Kinds(s)[p] == if p < n then TokenKind(s) else Kinds(s[n..])[p - n]
  {
    hide *;
    KindsOfToken(s, s[TokenLength(s)..]);
  }

  lemma CodeIsSealed(s: string)
    requires s != "" && TokenKind(s) == Code
    ensures TokenLength(s) == 1 && (s[0] != '/' ==> Sealed([s[0]]))
  {
    assert [s[0]][1..] == "";
  }

  lemma SealedOn(s: string)
    requires s != "" && TokenCloses(s) && Sealed(s[TokenLength(s)..])
    ensures Sealed(s)
  {}

  lemma {:induction false} TriviaIsSealed(space: char -> bool, s: string)
    requires OnlyTrivia(space, s)
    requires !space('/') && !space('"') && !space('\'')
    ensures Sealed(s)
    ensures forall i :: 0 <= i < |s| && Kinds(s)[i] == Code ==> space(s[i])
    decreases |s|
  {
    if s != "" {
      var n := TokenLength(s);
      TriviaToken(space, s);
      hide *;
      TriviaIsSealed(space, s[n..]);
      SealedOn(s);
      forall i | 0 <= i < |s| && Kinds(s)[i] == Code ensures space(s[i]) {
        KindAt(s, i);
        if i >= n {
          assert s[i] == s[n..][i - n];
        }
      }
    }
  }

  lemma TriviaToken(space: char -> bool, s: string)
    requires s != "" && OnlyTrivia(space, s)
    requires !space('/') && !space('"') && !space('\'')
    ensures TokenCloses(s) && OnlyTrivia(space, s[TokenLength(s)..])
    ensures TokenKind(s) == Code ==> TokenLength(s) == 1 && space(s[0])
  {}
}
