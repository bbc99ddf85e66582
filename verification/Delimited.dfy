/** Lists written as one comma-separated text, as the client form and the seeder read them. */
module Delimited {
  import opened Text

  // s.split(','): always at least one part.
  function Split(s: string): (parts: seq<string>)
    ensures |parts| > 0
  {
    if s == "" then [""]
    else PutInFront(s[0], Split(s[1..]))
  }

  // A character in front of a text goes to its first part; a comma makes a new one.
  function PutInFront(c: char, parts: seq<string>): (r: seq<string>)
    requires parts != []
    ensures r != []
  {
    if c == ',' then [""] + parts else [[c] + parts[0]] + parts[1..]
  }

  function Join(xs: seq<string>, separator: string): string {
    if xs == [] then "" else if |xs| == 1 then xs[0] else xs[0] + separator + Join(xs[1..], separator)
  }

  // Each part trimmed, the empty ones dropped.
  function Kept(space: char -> bool, parts: seq<string>): seq<string> {
    if parts == [] then []
    else
      var part := Trim(space, parts[0]);
      (if part == "" then [] else [part]) + Kept(space, parts[1..])
  }

  function Fields(space: char -> bool, s: string): seq<string> {
    Kept(space, Split(s))
  }

  function FieldsOfAll(space: char -> bool, xs: seq<string>): seq<string> {
    if xs == [] then [] else Fields(space, xs[0]) + FieldsOfAll(space, xs[1..])
  }

  /** What a list entry looks like: not empty, nothing to trim, no comma. */
  predicate Plain(space: char -> bool, x: string) {
    x != "" && Trimmed(space, x) && ',' !in x
  }

  lemma {:induction false} SplitAtComma(a: string, b: string)
    ensures Split(a + "," + b) == Split(a) + Split(b)
  {
    if a == "" {
      assert a + "," + b == [','] + b;
      SplitOn(',', b);
      assert Split("") == [""];
    } else {
      hide *;
      var c, rest := a[0], a[1..];
      assert a == [c] + rest && a + "," + b == [c] + (rest + "," + b);
      SplitAtComma(rest, b);
      SplitOn(c, rest + "," + b);
      SplitOn(c, rest);
      PutInFrontOver(c, Split(rest), Split(b));
    }
  }

  lemma PutInFrontOver(c: char, x: seq<string>, y: seq<string>)
    requires x != []
    ensures PutInFront(c, x + y) == PutInFront(c, x) + y
  {}

  lemma SplitOn(c: char, s: string)
    ensures Split([c] + s) == PutInFront(c, Split(s))
  {
    assert ([c] + s)[1..] == s;
  }

  lemma {:induction false} KeptConcat(space: char -> bool, a: seq<string>, b: seq<string>)
    ensures Kept(space, a + b) == Kept(space, a) + Kept(space, b)
  {
    if a == [] {
      assert a + b == b;
    } else {
      assert (a + b)[1..] == a[1..] + b;
      KeptConcat(space, a[1..], b);
    }
  }

  lemma LeadingBlankIsDropped(space: char -> bool, s: string)
    requires space(' ')
    ensures Fields(space, " " + s) == Fields(space, s)
  {
    var rest := Split(s);
    assert (" " + s)[1..] == s;
    assert Split(" " + s) == [" " + rest[0]] + rest[1..];
    TrimIgnoresLeading(space, " ", rest[0]);
    assert rest == [rest[0]] + rest[1..];
  }

  lemma {:induction false} NoCommaNoSplit(s: string)
    requires ',' !in s
    ensures Split(s) == [s]
  {
    if s != "" {
      NoCommaNoSplit(s[1..]);
      assert [s[0]] + s[1..] == s;
    }
  }

  lemma FieldsSplitAtComma(space: char -> bool, a: string, b: string)
    ensures Fields(space, a + "," + b) == Fields(space, a) + Fields(space, b)
  {
    SplitAtComma(a, b);
    KeptConcat(space, Split(a), Split(b));
  }

  /** Reading a joined list reads its entries one after the other, whatever they contain. */
  lemma {:induction false} FieldsOfJoin(space: char -> bool, xs: seq<string>)
    requires space(' ')
    ensures Fields(space, Join(xs, ", ")) == FieldsOfAll(space, xs)
  {
    if |xs| <= 1 {
      assert Trim(space, "") == "";
      if xs != [] { assert FieldsOfAll(space, xs[1..]) == []; }
    } else {
      var rest := Join(xs[1..], ", ");
      assert Join(xs, ", ") == xs[0] + "," + (" " + rest);
      FieldsSplitAtComma(space, xs[0], " " + rest);
      LeadingBlankIsDropped(space, rest);
      FieldsOfJoin(space, xs[1..]);
    }
  }

  /** The same with a bare comma between the entries. */
  lemma {:induction false} FieldsOfBareJoin(space: char -> bool, xs: seq<string>)
    ensures Fields(space, Join(xs, ",")) == FieldsOfAll(space, xs)
  {
    if |xs| <= 1 {
      assert Trim(space, "") == "";
      if xs != [] { assert FieldsOfAll(space, xs[1..]) == []; }
    } else {
      FieldsSplitAtComma(space, xs[0], Join(xs[1..], ","));
      FieldsOfBareJoin(space, xs[1..]);
    }
  }

  lemma {:induction false} SplitHasNoComma(s: string)
    ensures forall i :: 0 <= i < |Split(s)| ==> ',' !in Split(s)[i]
  {
    if s != "" {
      SplitHasNoComma(s[1..]);
    }
  }

  lemma TrimAddsNothing(space: char -> bool, s: string)
    ensures forall c :: c in Trim(space, s) ==> c in s
  {
    var pre := TrimStartSplits(space, s);
    var post := TrimEndSplits(space, TrimStart(space, s));
  }

  lemma {:induction false} KeptArePlain(space: char -> bool, parts: seq<string>)
    requires forall i :: 0 <= i < |parts| ==> ',' !in parts[i]
    ensures forall i :: 0 <= i < |Kept(space, parts)| ==> Plain(space, Kept(space, parts)[i])
  {
    hide Plain, Trim;
    if parts != [] {
      KeptArePlain(space, parts[1..]);
      TrimOfPartIsPlain(space, parts[0]);
    }
  }

  lemma TrimOfPartIsPlain(space: char -> bool, part: string)
    requires ',' !in part
    ensures Trim(space, part) != "" ==> Plain(space, Trim(space, part))
  {
    TrimIsTrimmed(space, part);
    TrimAddsNothing(space, part);
  }

  /** Every entry that is read is plain. */
  lemma FieldsArePlain(space: char -> bool, s: string)
    ensures forall i :: 0 <= i < |Fields(space, s)| ==> Plain(space, Fields(space, s)[i])
  {
    SplitHasNoComma(s);
    KeptArePlain(space, Split(s));
  }

  lemma {:induction false} PlainListReadsItself(space: char -> bool, xs: seq<string>)
    requires forall i :: 0 <= i < |xs| ==> Plain(space, xs[i])
    ensures FieldsOfAll(space, xs) == xs
  {
    if xs != [] {
      NoCommaNoSplit(xs[0]);
      TrimmedIsFixed(space, xs[0]);
      assert Kept(space, [xs[0]]) == [xs[0]] + Kept(space, [xs[0]][1..]);
      PlainListReadsItself(space, xs[1..]);
      assert xs == [xs[0]] + xs[1..];
    }
  }

  /** A list survives being joined and read back exactly when all its entries are plain. */
  lemma RoundTripIff(space: char -> bool, xs: seq<string>)
    requires space(' ')
    ensures Fields(space, Join(xs, ", ")) == xs <==> forall i :: 0 <= i < |xs| ==> Plain(space, xs[i])
  {
    hide Fields, FieldsOfAll, Plain;
    FieldsOfJoin(space, xs);
    FieldsArePlain(space, Join(xs, ", "));
    if forall i :: 0 <= i < |xs| ==> Plain(space, xs[i]) {
      PlainListReadsItself(space, xs);
    }
  }
}
