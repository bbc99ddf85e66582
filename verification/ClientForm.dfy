/** The client form of clientForm.ts: URI lists are edited as comma-separated text. */
module ClientForm {
  import opened Common
  import opened Text
  import opened Delimited

  datatype Client = Client(name: string, description: string, redirectUris: seq<string>,
                           postLogoutRedirectUris: Option<seq<string>>, allowedResources: Option<seq<string>>,
                           isConfidential: bool, grantTypes: seq<string>, scopes: seq<string>)

  datatype Form = Form(name: string, description: string, redirectUris: string,
                       postLogoutRedirectUris: string, allowedResources: string,
                       isConfidential: bool, grantTypes: seq<string>, scopes: seq<string>)

  datatype Payload = Payload(name: string, description: string, redirectUris: seq<string>,
                             postLogoutRedirectUris: seq<string>, allowedResources: seq<string>,
                             isConfidential: bool, grantTypes: seq<string>, scopes: seq<string>)

  function SplitUris(value: string): seq<string> {
    Fields(JsSpace, value)
  }

  function JoinedOr(uris: Option<seq<string>>): string {
    if uris.Some? then Join(uris.value, ", ") else ""
  }

  function FormFromClient(c: Client): Form {
    Form(c.name, c.description, Join(c.redirectUris, ", "), JoinedOr(c.postLogoutRedirectUris),
         JoinedOr(c.allowedResources), c.isConfidential, c.grantTypes, c.scopes)
  }

  function PayloadFromForm(f: Form): Payload {
    Payload(Trim(JsSpace, f.name), Trim(JsSpace, f.description), SplitUris(f.redirectUris),
            SplitUris(f.postLogoutRedirectUris), SplitUris(f.allowedResources),
            f.isConfidential, f.grantTypes, f.scopes)
  }

  // The client a server keeps that stores a payload as it is.
  function Stored(p: Payload): Client {
    Client(p.name, p.description, p.redirectUris, Some(p.postLogoutRedirectUris), Some(p.allowedResources),
           p.isConfidential, p.grantTypes, p.scopes)
  }

  /** Saving a form, opening the stored client and saving again sends the same payload. */
  lemma SavedFormIsFixed(f: Form)
    ensures PayloadFromForm(FormFromClient(Stored(PayloadFromForm(f)))) == PayloadFromForm(f)
  {
    hide Fields, Trim, Plain, Trimmed;
    var p := PayloadFromForm(f);
    TrimIsTrimmed(JsSpace, f.name);
    TrimmedIsFixed(JsSpace, p.name);
    TrimIsTrimmed(JsSpace, f.description);
    TrimmedIsFixed(JsSpace, p.description);
    FieldsArePlain(JsSpace, f.redirectUris);
    RoundTripIff(JsSpace, p.redirectUris);
    FieldsArePlain(JsSpace, f.postLogoutRedirectUris);
    RoundTripIff(JsSpace, p.postLogoutRedirectUris);
    FieldsArePlain(JsSpace, f.allowedResources);
    RoundTripIff(JsSpace, p.allowedResources);
  }

  predicate AllPlain(uris: seq<string>) {
    forall i :: 0 <= i < |uris| ==> Plain(JsSpace, uris[i])
  }

  /**
   Opening and saving a client untouched keeps it exactly when its texts are trimmed, its URIs plain and
   both optional lists present; a missing one comes back empty.
   */
  lemma UntouchedClientIsKeptIff(c: Client)
    ensures Stored(PayloadFromForm(FormFromClient(c))) == c
       <==> && Trimmed(JsSpace, c.name) && Trimmed(JsSpace, c.description)
            && AllPlain(c.redirectUris)
            && c.postLogoutRedirectUris.Some? && AllPlain(c.postLogoutRedirectUris.value)
            && c.allowedResources.Some? && AllPlain(c.allowedResources.value)
  {
    hide Fields, Trim, Plain, Trimmed;
    TrimmedIsFixed(JsSpace, c.name);
    TrimmedIsFixed(JsSpace, c.description);
    RoundTripIff(JsSpace, c.redirectUris);
    if c.postLogoutRedirectUris.Some? { RoundTripIff(JsSpace, c.postLogoutRedirectUris.value); }
    if c.allowedResources.Some? { RoundTripIff(JsSpace, c.allowedResources.value); }
  }

  /** Every list typed into a field of the form is sent in the field of the payload it belongs to. */
  lemma PayloadSendsFields(f: Form, redirects: seq<string>, logouts: seq<string>, resources: seq<string>)
    requires f.redirectUris == Join(redirects, ", ") && f.postLogoutRedirectUris == Join(logouts, ", ")
    requires f.allowedResources == Join(resources, ", ")
    ensures var p := PayloadFromForm(f);
            && p.redirectUris == FieldsOfAll(JsSpace, redirects) && p.postLogoutRedirectUris == FieldsOfAll(JsSpace, logouts)
            && p.allowedResources == FieldsOfAll(JsSpace, resources)
            && p.name == Trim(JsSpace, f.name) && p.description == Trim(JsSpace, f.description)
            && p.isConfidential == f.isConfidential && p.grantTypes == f.grantTypes && p.scopes == f.scopes
  {
    hide Fields, FieldsOfAll, Join, Trim;
    FieldsOfJoin(JsSpace, redirects);
    FieldsOfJoin(JsSpace, logouts);
    FieldsOfJoin(JsSpace, resources);
  }

  /** What opening and saving makes of any client: texts trimmed, lists read entry by entry, missing lists empty, the rest kept. */
  lemma ReopenedIs(c: Client)
    ensures Stored(PayloadFromForm(FormFromClient(c))) == c.(
              name := Trim(JsSpace, c.name),
              description := Trim(JsSpace, c.description),
              redirectUris := FieldsOfAll(JsSpace, c.redirectUris),
              postLogoutRedirectUris :=
                Some(if c.postLogoutRedirectUris.Some? then FieldsOfAll(JsSpace, c.postLogoutRedirectUris.value) else []),
              allowedResources := Some(if c.allowedResources.Some? then FieldsOfAll(JsSpace, c.allowedResources.value) else []))
  {
    NothingInNothing();
    hide Fields, FieldsOfAll, Trim;
    FieldsOfJoin(JsSpace, c.redirectUris);
    if c.postLogoutRedirectUris.Some? { FieldsOfJoin(JsSpace, c.postLogoutRedirectUris.value); }
    if c.allowedResources.Some? { FieldsOfJoin(JsSpace, c.allowedResources.value); }
  }

  lemma NothingInNothing()
    ensures Fields(JsSpace, "") == []
  {
    assert [""][1..] == [];
  }

  // ----- Toggling a grant type or a scope -----

  datatype Field = GrantTypes | Scopes

  // list.filter(item => item !== value)
  function Without(list: seq<string>, value: string): (r: seq<string>)
    ensures value !in r
    ensures forall x :: x in r <==> x in list && x != value
  {
    if list == [] then []
    else (if list[0] == value then [] else [list[0]]) + Without(list[1..], value)
  }

  function Toggled(list: seq<string>, value: string): seq<string> {
    if value in list then Without(list, value) else list + [value]
  }

  function Selection(f: Form, field: Field): seq<string> {
    match field
    case GrantTypes => f.grantTypes
    case Scopes => f.scopes
  }

  function ToggleSelection(f: Form, field: Field, value: string): Form {
    match field
    case GrantTypes => f.(grantTypes := Toggled(f.grantTypes, value))
    case Scopes => f.(scopes := Toggled(f.scopes, value))
  }

  lemma {:induction false} WithoutAbsent(list: seq<string>, value: string)
    requires value !in list
    ensures Without(list, value) == list
  {
    if list != [] {
      WithoutAbsent(list[1..], value);
      assert list == [list[0]] + list[1..];
    }
  }

  function Unless(x: string, value: string): seq<string> {
    if x == value then [] else [x]
  }

  lemma WithoutFirst(x: string, rest: seq<string>, value: string)
    ensures Without([x] + rest, value) == Unless(x, value) + Without(rest, value)
  {
    assert ([x] + rest)[1..] == rest;
  }

  lemma {:induction false} WithoutConcat(a: seq<string>, b: seq<string>, value: string)
    ensures Without(a + b, value) == Without(a, value) + Without(b, value)
  {
    hide Without, Unless;
    if a == [] {
      assert a + b == b;
      WithoutAbsent(a, value);
      assert a + Without(b, value) == Without(b, value);
    } else {
      var x, rest := a[0], a[1..];
      assert a == [x] + rest && a + b == [x] + (rest + b);
      WithoutFirst(x, rest, value);
      WithoutFirst(x, rest + b, value);
      WithoutConcat(rest, b, value);
      assert Unless(x, value) + (Without(rest, value) + Without(b, value)) == Unless(x, value) + Without(rest, value) + Without(b, value);
    }
  }

  // The value is absent, or stands once, at the end.
  predicate AbsentOrLast(list: seq<string>, value: string) {
    value !in list || (list[|list| - 1] == value && value !in list[..|list| - 1])
  }

  lemma ToggledTwiceIff(list: seq<string>, value: string)
    ensures Toggled(Toggled(list, value), value) == list <==> AbsentOrLast(list, value)
  {
    if value !in list {
      WithoutAbsent(list, value);
      WithoutConcat(list, [value], value);
      assert Without([value], value) == [];
      assert value in list + [value];
    } else {
      var init := list[..|list| - 1];
      var w := Without(list, value);
      assert Toggled(Toggled(list, value), value) == w + [value];
      assert (w + [value])[..|w|] == w;
      if AbsentOrLast(list, value) {
        WithoutAbsent(init, value);
        WithoutConcat(init, [value], value);
        assert list == init + [value];
      }
    }
  }

  /** Toggling twice restores the form exactly when the value was absent, or stood once, at the end. */
  lemma ToggleTwiceIff(f: Form, field: Field, value: string)
    ensures ToggleSelection(ToggleSelection(f, field, value), field, value) == f
       <==> AbsentOrLast(Selection(f, field), value)
  {
    hide Toggled, AbsentOrLast;
    ToggledTwiceIff(Selection(f, field), value);
  }
}
