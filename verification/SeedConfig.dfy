/** What seed/main.go works out before it opens its transaction. */
module SeedConfig {
  import opened Common
  import opened Text
  import opened Delimited
  import opened Sorting
  import opened Jsonb

  // ----- Schema capabilities -----

  type Schema = map<string, seq<string>>

  const REQUIRED_SCHEMA_CAPABILITIES: Schema := map[
    "accounts" := ["id", "username", "display_name", "status"],
    "account_credentials" :=
      ["account_id", "credential_type", "identifier", "credential_value", "verified", "primary_credential"],
    "roles" := ["id", "name", "description", "permissions"],
    "account_roles" := ["account_id", "role_id"],
    "oauth2_clients" :=
      ["account_id", "client_id", "name", "description", "redirect_uris", "grant_types", "scopes", "is_confidential", "metadata"]
  ]

  type Available = map<string, set<string>>

  predicate HasColumn(available: Available, table: string, column: string) {
    table in available && column in available[table]
  }

  // The missing columns of one table, in the order they are listed.
  function GapsIn(available: Available, table: string, columns: seq<string>): seq<string> {
    if columns == [] then []
    else
      var last := columns[|columns| - 1];
      GapsIn(available, table, columns[..|columns| - 1])
      + (if HasColumn(available, table, last) then [] else [table + "." + last])
  }

  function Gaps(required: Schema, available: Available, tables: seq<string>): seq<string>
    requires forall t :: t in tables ==> t in required
  {
    if tables == [] then []
    else
      var last := tables[|tables| - 1];
      Gaps(required, available, tables[..|tables| - 1]) + GapsIn(available, last, required[last])
  }

  /** The tables of a schema in some order: what ranging over a Go map yields. */
  ghost predicate IterationOrder(required: Schema, tables: seq<string>) {
    Distinct(tables) && forall t :: t in tables <==> t in required
  }

  method MissingSchemaCapabilities(required: Schema, available: Available, tables: seq<string>)
    returns (missing: seq<string>)
    requires IterationOrder(required, tables)
    ensures missing == Sort(Gaps(required, available, tables))
  {
    missing := [];
    for i := 0 to |tables|
      invariant missing == Gaps(required, available, tables[..i])
    {
      var table := tables[i];
      var columns := required[table];
      ghost var before := missing;
      for j := 0 to |columns|
        invariant missing == before + GapsIn(available, table, columns[..j])
      {
        assert columns[..j + 1][..j] == columns[..j];
        if !HasColumn(available, table, columns[j]) {
          missing := missing + [table + "." + columns[j]];
        }
      }
      assert columns[..|columns|] == columns;
      assert tables[..i + 1][..i] == tables[..i];
    }
    assert tables[..|tables|] == tables;
    missing := Sort(missing);
  }

  lemma {:induction false} GapsConcat(required: Schema, available: Available, a: seq<string>, b: seq<string>)
    requires forall t :: t in a || t in b ==> t in required
    ensures Gaps(required, available, a + b) == Gaps(required, available, a) + Gaps(required, available, b)
  {
    hide GapsIn;
    if b == [] {
      assert a + b == a;
    } else {
      assert (a + b)[..|a + b| - 1] == a + b[..|b| - 1];
      GapsConcat(required, available, a, b[..|b| - 1]);
    }
  }

  lemma GapsOfOne(required: Schema, available: Available, table: string)
    requires table in required
    ensures Gaps(required, available, [table]) == GapsIn(available, table, required[table])
  {
    hide GapsIn;
    assert [table][..0] == [];
  }

  lemma GapsWithout(required: Schema, available: Available, tables: seq<string>, i: nat)
    requires i < |tables| && forall t :: t in tables ==> t in required
    ensures multiset(Gaps(required, available, tables))
            == multiset(GapsIn(available, tables[i], required[tables[i]]))
               + multiset(Gaps(required, available, tables[..i] + tables[i + 1..]))
  {
    hide GapsIn, Gaps;
    var a, one, b := tables[..i], [tables[i]], tables[i + 1..];
    assert tables == (a + one) + b;
    GapsConcat(required, available, a + one, b);
    GapsConcat(required, available, a, one);
    GapsConcat(required, available, a, b);
    GapsOfOne(required, available, tables[i]);
  }

  lemma {:induction false} GapsPermute(required: Schema, available: Available, a: seq<string>, b: seq<string>)
    requires forall t :: t in a ==> t in required
    requires forall t :: t in b ==> t in required
    requires Distinct(a) && Distinct(b) && forall t :: t in a <==> t in b
    ensures multiset(Gaps(required, available, a)) == multiset(Gaps(required, available, b))
  {
    hide GapsIn;
    if a == [] {
      if b != [] {
        SomethingIsIn(b);
      }
    } else {
      var init, last := a[..|a| - 1], a[|a| - 1];
      assert a == init + [last];
      assert last in a;
      assert last in b;
      var i :| 0 <= i < |b| && b[i] == last;
      var rest := b[..i] + b[i + 1..];
      WithoutOne(b, i);
      GapsWithout(required, available, b, i);
      hide Gaps, Distinct;
      WithoutOne(a, |a| - 1);
      assert a[..|a| - 1] + a[|a| - 1 + 1..] == init;
      forall t ensures t in init <==> t in rest {
        assert t in init <==> t in a && t != last;
        assert t in rest <==> t in b && t != last;
      }
      GapsPermute(required, available, init, rest);
      GapsConcat(required, available, init, [last]);
      GapsOfOne(required, available, last);
    }
  }

  lemma SomethingIsIn(s: seq<string>)
    requires s != []
    ensures exists x :: x in s
  {
    assert s[0] in s;
  }

  // A duplicate-free list without one of its elements.
  lemma WithoutOne(s: seq<string>, i: nat)
    requires Distinct(s) && i < |s|
    ensures Distinct(s[..i] + s[i + 1..])
    ensures forall x :: x in s[..i] + s[i + 1..] <==> x in s && x != s[i]
  {
    var rest := s[..i] + s[i + 1..];
    forall x | x in s && x != s[i] ensures x in rest {
      var j :| 0 <= j < |s| && s[j] == x;
      assert rest[if j < i then j else j - 1] == x;
    }
  }

  /** The report is the same for every order in which the tables are visited. */
  lemma IterationOrderIsInvisible(required: Schema, available: Available, a: seq<string>, b: seq<string>)
    requires IterationOrder(required, a) && IterationOrder(required, b)
    ensures Sort(Gaps(required, available, a)) == Sort(Gaps(required, available, b))
  {
    GapsPermute(required, available, a, b);
    SortsAgree(Gaps(required, available, a), Gaps(required, available, b));
  }

  lemma {:induction false} GapsInAre(available: Available, table: string, columns: seq<string>, name: string)
    ensures name in GapsIn(available, table, columns)
       <==> exists c :: c in columns && !HasColumn(available, table, c) && name == table + "." + c
  {
    if columns != [] {
      var init, last := columns[..|columns| - 1], columns[|columns| - 1];
      GapsInAre(available, table, init, name);
      assert columns == init + [last];
    }
  }

  // A required column of a table that is not there.
  ghost predicate Gap(required: Schema, available: Available, table: string, name: string) {
    && table in required
    && exists c :: c in required[table] && !(table in available && c in available[table]) && name == table + "." + c
  }

  lemma {:induction false} GapsAre(required: Schema, available: Available, tables: seq<string>, name: string)
    requires forall t :: t in tables ==> t in required
    ensures name in Gaps(required, available, tables) <==> exists t :: t in tables && Gap(required, available, t, name)
  {
    if tables != [] {
      var init, last := tables[..|tables| - 1], tables[|tables| - 1];
      GapsAre(required, available, init, name);
      GapsInAre(available, last, required[last], name);
      hide GapsIn;
      assert tables == init + [last];
      assert name in GapsIn(available, last, required[last]) <==> Gap(required, available, last, name);
      hide Gap;
      assert forall t :: t in tables <==> t in init || t == last;
    }
  }

  /** It names exactly the required columns that are not available, in order. */
  lemma ReportIsExact(required: Schema, available: Available, tables: seq<string>, name: string)
    requires IterationOrder(required, tables)
    ensures Sorted(Sort(Gaps(required, available, tables)))
    ensures name in Sort(Gaps(required, available, tables)) <==> exists t :: t in required && Gap(required, available, t, name)
  {
    hide Gap, Gaps;
    var gaps := Gaps(required, available, tables);
    SortSorts(gaps);
    GapsAre(required, available, tables, name);
    assert name in Sort(gaps) <==> name in multiset(Sort(gaps));
    assert name in gaps <==> name in multiset(gaps);
  }

  /** Seeding may start exactly if the five tables have every column the statements name. */
  lemma SchemaIsReadyIff(available: Available, tables: seq<string>)
    requires IterationOrder(REQUIRED_SCHEMA_CAPABILITIES, tables)
    ensures Sort(Gaps(REQUIRED_SCHEMA_CAPABILITIES, available, tables)) == [] <==>
            forall t, c :: t in REQUIRED_SCHEMA_CAPABILITIES && c in REQUIRED_SCHEMA_CAPABILITIES[t] ==>
              t in available && c in available[t]
  {
    hide Gaps, Sort, Sorted, Gap;
    var required, report := REQUIRED_SCHEMA_CAPABILITIES, Sort(Gaps(REQUIRED_SCHEMA_CAPABILITIES, available, tables));
    if report == [] {
      forall t, c | t in required && c in required[t] ensures t in available && c in available[t] {
        ReportIsExact(required, available, tables, t + "." + c);
        MissingIsGap(required, available, t, c);
      }
    } else {
      ReportIsExact(required, available, tables, report[0]);
      var t :| t in required && Gap(required, available, t, report[0]);
      GapIsMissing(required, available, t, report[0]);
    }
  }

  lemma MissingIsGap(required: Schema, available: Available, t: string, c: string)
    requires t in required && c in required[t]
    ensures Gap(required, available, t, t + "." + c) || (t in available && c in available[t])
  {}

  lemma GapIsMissing(required: Schema, available: Available, t: string, name: string)
    requires Gap(required, available, t, name)
    ensures t in required && exists c :: c in required[t] && !(t in available && c in available[t])
  {}

  // ----- Redirect URIs -----

  predicate Bracketed(s: string) {
    s != "" && s[0] == '[' && s[|s| - 1] == ']'
  }

  // What json.Unmarshal accepts into a []string: a list of strings and nulls.
  predicate StringList(j: Json) {
    j.Array? && forall i :: 0 <= i < |j.items| ==> j.items[i].Text? || j.items[i].Null?
  }

  function AsTexts(uris: seq<string>): (r: seq<Json>)
    ensures |r| == |uris| && forall i :: 0 <= i < |uris| ==> r[i] == Text(uris[i])
  {
    seq(|uris|, i requires 0 <= i < |uris| => Text(uris[i]))
  }

  // json.Marshal of a []string: a slice nothing was appended to is nil, and marshals to null.
  function Marshalled(uris: seq<string>): Json {
    if uris == [] then Null else Array(AsTexts(uris))
  }

  const DEFAULT_URI := "http://localhost:8080/callback"

  const DEFAULT_URIS := "[\"" + DEFAULT_URI + "\"]"

  // What parseRedirectURIs returns: a text; decode and marshal are the JSON parser and printer.
  function RedirectText(env: string, decode: string -> Option<Json>, marshal: seq<string> -> string): Result<string, string> {
    if env == "" then Success(DEFAULT_URIS)
    else
      var trimmed := Trim(GoSpace, env);
      if Bracketed(trimmed) then
        var parsed := decode(trimmed);
        if parsed.Some? && StringList(parsed.value) then Success(trimmed) else Failure("invalid JSON in redirect URIs")
      else Success(marshal(Fields(GoSpace, trimmed)))
  }

  // The JSON value the database stores for that text.
  function RedirectUris(env: string, decode: string -> Option<Json>): Result<Json, string> {
    if env == "" then Success(Array([Text(DEFAULT_URI)]))
    else
      var trimmed := Trim(GoSpace, env);
      if Bracketed(trimmed) then
        match decode(trimmed)
        case Some(j) => if StringList(j) then Success(j) else Failure("invalid JSON in redirect URIs")
        case None => Failure("invalid JSON in redirect URIs")
      else Success(Marshalled(Fields(GoSpace, trimmed)))
  }

  /** The printer prints what the parser reads, an empty result as null. */
  ghost predicate Codec(decode: string -> Option<Json>, marshal: seq<string> -> string) {
    && decode(DEFAULT_URIS) == Some(Array([Text(DEFAULT_URI)]))
    && forall uris :: decode(marshal(uris)) == Some(Marshalled(uris))
  }

  /** The returned text always reads as the value that is stored, and there is a text exactly when there is a value. */
  lemma TextReadsAsValue(env: string, decode: string -> Option<Json>, marshal: seq<string> -> string)
    requires Codec(decode, marshal)
    ensures match RedirectText(env, decode, marshal)
            case Success(text) => decode(text).Some? && RedirectUris(env, decode) == Success(decode(text).value)
            case Failure(error) => RedirectUris(env, decode) == Failure(error)
  {
    hide Fields, Trim, Bracketed, StringList, Marshalled;
  }

  method ParseRedirectUris(env: string, decode: string -> Option<Json>, marshal: seq<string> -> string)
    returns (r: Result<string, string>)
    ensures r == RedirectText(env, decode, marshal)
  {
    hide StringList, Bracketed, Trim, Kept, Split;
    if env == "" {
      return Success(DEFAULT_URIS);
    }
    var trimmed := Trim(GoSpace, env);
    if Bracketed(trimmed) {
      var parsed := decode(trimmed);
      if parsed.None? || !StringList(parsed.value) {
        return Failure("invalid JSON in redirect URIs");
      }
      return Success(trimmed);
    }
    var parts := Split(trimmed);
    var uris := [];
    assert parts[..0] == [];
    KeptNothing(GoSpace);
    for i := 0 to |parts|
      invariant uris == Kept(GoSpace, parts[..i])
    {
      var part := Trim(GoSpace, parts[i]);
      KeptOn(GoSpace, parts[..i], parts[i]);
      assert parts[..i + 1] == parts[..i] + [parts[i]];
      if part != "" {
        uris := uris + [part];
      }
    }
    assert parts[..|parts|] == parts;
    r := Success(marshal(uris));
  }

  lemma KeptNothing(space: char -> bool)
    ensures Kept(space, []) == []
  {}

  lemma KeptOn(space: char -> bool, parts: seq<string>, part: string)
    ensures Kept(space, parts + [part]) == Kept(space, parts) + (if Trim(space, part) == "" then [] else [Trim(space, part)])
  {
    hide Trim;
    KeptConcat(space, parts, [part]);
    assert [part][1..] == [];
  }

  /** A setting that decodes to a list of strings, whatever its length, is returned and stored as written. */
  lemma WrittenListIsKept(env: string, decode: string -> Option<Json>, marshal: seq<string> -> string, uris: seq<string>)
    requires env != "" && Bracketed(Trim(GoSpace, env)) && decode(Trim(GoSpace, env)) == Some(Array(AsTexts(uris)))
    ensures RedirectText(env, decode, marshal) == Success(Trim(GoSpace, env))
    ensures RedirectUris(env, decode) == Success(Array(AsTexts(uris)))
  {
    hide Trim, Bracketed;
  }

  /** A bracketed setting is refused exactly if it decodes to nothing, to no list, or to a list with an item that is neither a string nor null. */
  lemma RefusedIff(env: string, decode: string -> Option<Json>)
    ensures RedirectUris(env, decode).Failure? <==>
              var s := Trim(GoSpace, env);
              && |s| >= 2 && s[0] == '[' && s[|s| - 1] == ']'
              && (decode(s).Some? && decode(s).value.Array? ==>
                    exists x :: x in decode(s).value.items && !x.Text? && !x.Null?)
  {
    assert Trim(GoSpace, "") == "";
    hide Trim;
    var s := Trim(GoSpace, env);
    if decode(s).Some? && decode(s).value.Array? {
      StringListIff(decode(s).value.items);
      assert decode(s).value == Array(decode(s).value.items);
    }
  }

  lemma StringListIff(items: seq<Json>)
    ensures StringList(Array(items)) <==> !exists x :: x in items && !x.Text? && !x.Null?
  {
    if !StringList(Array(items)) {
      var i :| 0 <= i < |items| && !items[i].Text? && !items[i].Null?;
      assert items[i] in items;
    }
  }

  predicate BlankParts(parts: seq<string>) {
    forall i :: 0 <= i < |parts| ==> All(GoSpace, parts[i])
  }

  lemma {:induction false} NothingKeptIff(parts: seq<string>)
    ensures Kept(GoSpace, parts) == [] <==> BlankParts(parts)
  {
    hide All, Trim;
    if parts != [] {
      TrimEmptyIff(GoSpace, parts[0]);
      NothingKeptIff(parts[1..]);
      assert parts == [parts[0]] + parts[1..];
    }
  }

  /** The stored value is JSON null, not an empty list, exactly for a setting made of blanks and commas. */
  lemma NullIff(env: string, decode: string -> Option<Json>)
    ensures RedirectUris(env, decode) == Success(Null)
       <==> env != "" && !Bracketed(Trim(GoSpace, env)) && BlankParts(Split(Trim(GoSpace, env)))
  {
    hide BlankParts, Kept, Split, TrimStart, TrimEnd;
    NothingKeptIff(Split(Trim(GoSpace, env)));
  }

  lemma {:induction false} JoinIsPlainAtEnds(xs: seq<string>)
    requires xs != [] && forall i :: 0 <= i < |xs| ==> Plain(GoSpace, xs[i])
    ensures Join(xs, ",") != "" && Trimmed(GoSpace, Join(xs, ","))
    ensures xs[0] != "" && Join(xs, ",")[0] == xs[0][0]
  {
    if |xs| > 1 {
      JoinIsPlainAtEnds(xs[1..]);
    }
  }

  /** A comma-separated list of plain URIs is stored as that list, unless it looks like a JSON list. */
  lemma ListedUrisAreStored(xs: seq<string>, decode: string -> Option<Json>)
    requires xs != [] && !Bracketed(Join(xs, ","))
    requires forall i :: 0 <= i < |xs| ==> Plain(GoSpace, xs[i])
    ensures RedirectUris(Join(xs, ","), decode) == Success(Array(AsTexts(xs)))
  {
    hide Fields, Plain, Trimmed, Trim;
    JoinIsPlainAtEnds(xs);
    TrimmedIsFixed(GoSpace, Join(xs, ","));
    FieldsOfBareJoin(GoSpace, xs);
    PlainListReadsItself(GoSpace, xs);
  }

  // ----- The administrator's password -----

  const DEFAULT_PASSWORD := "admin123"

  predicate DevelopmentLike(env: string) {
    env in ["", "dev", "development", "local", "test", "testing"]
  }

  function Utf8Width(c: char): nat {
    var u := c as int;
    if u < 0x80 then 1 else if u < 0x800 then 2 else if u < 0x10000 then 3 else 4
  }

  // Go's len of a string counts its UTF-8 bytes.
  function Utf8Length(s: string): nat {
    if s == "" then 0 else Utf8Width(s[0]) + Utf8Length(s[1..])
  }

  predicate PolicyAllows(env: string, password: string) {
    DevelopmentLike(env) || !(password == "" || password == DEFAULT_PASSWORD || Utf8Length(password) < 12)
  }

  function EffectivePassword(secret: string): string {
    if secret == "" then DEFAULT_PASSWORD else secret
  }

  /** Outside development the policy comes down to twelve bytes; an unset password never passes there. */
  lemma PolicyIsTwelveBytes(env: string, secret: string)
    ensures PolicyAllows(env, EffectivePassword(secret)) <==>
            env in ["", "dev", "development", "local", "test", "testing"] || Utf8Length(secret) >= 12
    ensures EffectivePassword(secret) == if |secret| == 0 then "admin123" else secret
  {
    DefaultIsShort();
  }

  /** What is counted are bytes: one below U+0080, two below U+0800, three below U+10000, four above. */
  lemma {:induction false} BytesAreCounted(s: string)
    ensures Utf8Length(s) == |s| + |Above(s, 0x7F)| + |Above(s, 0x7FF)| + |Above(s, 0xFFFF)|
  {
    if s != "" {
      BytesAreCounted(s[1..]);
    }
  }

  // The characters beyond a code point.
  function Above(s: string, point: nat): string {
    if s == "" then "" else (if s[0] as int > point then [s[0]] else []) + Above(s[1..], point)
  }

  lemma DefaultIsShort()
    ensures Utf8Length(DEFAULT_PASSWORD) == 8
  {
    LengthAtLeastCharacters(DEFAULT_PASSWORD);
  }

  lemma {:induction false} LengthAtLeastCharacters(s: string)
    ensures Utf8Length(s) >= |s|
    ensures Utf8Length(s) == |s| <==> forall i :: 0 <= i < |s| ==> s[i] as int < 0x80
  {
    if s != "" {
      LengthAtLeastCharacters(s[1..]);
      assert s == [s[0]] + s[1..];
    }
  }

  /** The announced minimum of twelve characters is what is enforced for ASCII passwords, and is sufficient for all. */
  lemma TwelveCharactersSuffice(env: string, secret: string)
    ensures |secret| >= 12 ==> PolicyAllows(env, EffectivePassword(secret))
    ensures !DevelopmentLike(env) && (forall i :: 0 <= i < |secret| ==> secret[i] as int < 0x80) ==>
              (PolicyAllows(env, EffectivePassword(secret)) <==> |secret| >= 12)
  {
    LengthAtLeastCharacters(secret);
    PolicyIsTwelveBytes(env, secret);
  }

  /** It is not necessary: four characters of three bytes each pass. */
  lemma FourCharactersCanPass(env: string)
    ensures PolicyAllows(env, "\U{20AC}\U{20AC}\U{20AC}\U{20AC}")
  {
    var p := "\U{20AC}\U{20AC}\U{20AC}\U{20AC}";
    assert p[1..][1..][1..][1..] == "";
    assert Utf8Length(p) == 12;
  }
}
