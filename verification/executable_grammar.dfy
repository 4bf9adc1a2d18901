/**
 The executable productions: directives and arguments (shared with the type
 system), variable definitions, selection sets with fields, fragment spreads
 and inline fragments, operation definitions and fragment definitions.

 The optional rules (`ParseOptional…`) never fail recoverably: without their
 opening token they return "absent" at the unchanged index, and once it is
 consumed every failure is fatal. Selection sets recurse through fields and
 inline fragments.
 */
module ExecutableGrammar {
  import opened Wrappers
  import opened Tokens
  import opened Ast
  import opened Results
  import opened ValueGrammar

  const OperationTypeNames: set<string> := {"query", "mutation", "subscription"}

  // ---------------------------------------------------------------- directives

  /** `Directive+`, or absent when the next token is not `@`. */
  function ParseOptionalDirectives(ts: seq<Token>, i: nat): (r: Res<Option<seq<Directive>>>)
    requires i <= |ts|
    ensures !r.NoMatch?
    ensures !IsPunct(At(ts, i), AtSign) <==> r == Ok(None, i)
    ensures r.Ok? ==> i <= r.next <= |ts| && !IsPunct(At(ts, r.next), AtSign)
    ensures r.Ok? && r.value.Some? ==> |r.value.value| > 0 && i < r.next
  {
    if !IsPunct(At(ts, i), AtSign) then Ok(None, i)
    else
      var (ds, j) :- ParseDirectiveList(ts, i);
      Ok(Some(ds), j)
  }

  /** `(@ Name Arguments?)*`: one directive per `@`, in source order. */
  function ParseDirectiveList(ts: seq<Token>, i: nat): (r: Res<seq<Directive>>)
    requires i <= |ts|
    ensures !r.NoMatch?
    ensures r.Ok? ==> i <= r.next <= |ts| && !IsPunct(At(ts, r.next), AtSign)
    ensures r.Ok? ==> (|r.value| == 0 <==> r.next == i)
    decreases |ts| - i
  {
    if !IsPunct(At(ts, i), AtSign) then Ok([], i)
    else
      var (d, j) :- ParseDirective(ts, i);
      var (rest, k) :- ParseDirectiveList(ts, j);
      Ok([d] + rest, k)
  }

  /** One pass of the directive loop, at an `@`: the name and the optional
      arguments after it. */
  function ParseDirective(ts: seq<Token>, i: nat): (r: Res<Directive>)
    requires IsPunct(At(ts, i), AtSign)
    ensures !r.NoMatch?
    ensures r.Ok? <==> IsName(At(ts, i + 1)) && !ParseOptionalArguments(ts, i + 2).Fatal?
    ensures r.Ok? ==> i + 2 <= r.next <= |ts| && ts[i + 1] == Name(r.value.name)
  {
    var (name, j) :- ExpectName(ts, i + 1);
    var (args, k) :- ParseOptionalArguments(ts, j);
    Ok(Directive(name, args), k)
  }

  // ----------------------------------------------------------------- arguments

  /** `( Argument+ )`, or absent when the next token is not `(`. */
  function ParseOptionalArguments(ts: seq<Token>, i: nat): (r: Res<Option<seq<Argument>>>)
    requires i <= |ts|
    ensures !r.NoMatch?
    ensures !IsPunct(At(ts, i), LParen) <==> r == Ok(None, i)
    ensures r.Ok? ==> i <= r.next <= |ts|
    ensures r.Ok? && r.value.Some? ==>
      |r.value.value| > 0 && i < r.next && IsPunct(At(ts, r.next - 1), RParen)
  {
    if !IsPunct(At(ts, i), LParen) then Ok(None, i)
    else
      var (first, j) :- Unwrap(ParseArgument(ts, i + 1), "");
      var (rest, k) :- ParseArgumentItems(ts, j);
      // The item loop stops only at `)`, so the closing `expect` always succeeds.
      Ok(Some([first] + rest), k + 1)
  }

  /** Further arguments up to (not including) the closing `)`. */
  function ParseArgumentItems(ts: seq<Token>, i: nat): (r: Res<seq<Argument>>)
    requires i <= |ts|
    ensures !r.NoMatch?
    ensures r.Ok? ==> i <= r.next < |ts| && IsPunct(At(ts, r.next), RParen)
    decreases |ts| - i
  {
    if IsPunct(At(ts, i), RParen) then Ok([], i)
    else
      var (a, j) :- Unwrap(ParseArgument(ts, i), "");
      var (rest, k) :- ParseArgumentItems(ts, j);
      Ok([a] + rest, k)
  }

  /** `Name : Value`. */
  function ParseArgument(ts: seq<Token>, i: nat): (r: Res<Argument>)
    requires i <= |ts|
    ensures r.NoMatch? <==> !IsName(At(ts, i))
    ensures r.Ok? ==> i + 2 < r.next <= |ts| && r.value.name == ts[i].text
  {
    var t := At(ts, i);
    if !IsName(t) then NoMatch(Error("Expected name", t))
    else
      var (_, j) :- ExpectPunct(ts, i + 1, Colon, "");
      var (v, k) :- Unwrap(ParseValue(ts, j), "");
      Ok(Argument(t.value.text, v), k)
  }

  // ------------------------------------------------------ variable definitions

  /** `( VariableDefinition+ )`, or absent when the next token is not `(`.
      Failures name the alternatives "VariableDefinition". */
  function ParseOptionalVariableDefinitions(ts: seq<Token>, i: nat): (r: Res<Option<seq<VariableDefinition>>>)
    requires i <= |ts|
    ensures !r.NoMatch?
    ensures !IsPunct(At(ts, i), LParen) <==> r == Ok(None, i)
    ensures r.Ok? ==> i <= r.next <= |ts|
    ensures r.Ok? && r.value.Some? ==>
      |r.value.value| > 0 && i < r.next && IsPunct(At(ts, r.next - 1), RParen)
  {
    if !IsPunct(At(ts, i), LParen) then Ok(None, i)
    else
      var (first, j) :- Unwrap(ParseVariableDefinition(ts, i + 1), "VariableDefinition");
      var (rest, k) :- ParseVariableDefinitionItems(ts, j);
      var (_, l) :- ExpectPunct(ts, k, RParen, "VariableDefinition");
      Ok(Some([first] + rest), l)
  }

  /** Further variable definitions, as long as one starts (with `$`). */
  function ParseVariableDefinitionItems(ts: seq<Token>, i: nat): (r: Res<seq<VariableDefinition>>)
    requires i <= |ts|
    ensures !r.NoMatch?
    ensures r.Ok? ==> i <= r.next <= |ts| && !IsPunct(At(ts, r.next), Dollar)
    decreases |ts| - i
  {
    match ParseVariableDefinition(ts, i)
    case NoMatch(_) => Ok([], i)
    case Fatal(e) => Fatal(e)
    case Ok(d, j) =>
      var (rest, k) :- ParseVariableDefinitionItems(ts, j);
      Ok([d] + rest, k)
  }

  /** `$ Name : Type (= Value Directives?)?`: directives are looked for only
      after a default value. */
  function ParseVariableDefinition(ts: seq<Token>, i: nat): (r: Res<VariableDefinition>)
    requires i <= |ts|
    ensures r.NoMatch? <==> !IsPunct(At(ts, i), Dollar)
    ensures r.Ok? ==> i + 3 < r.next <= |ts| && At(ts, i + 1) == Some(Name(r.value.variable))
    ensures r.Ok? ==> WellFormedType(r.value.varType)
    ensures r.Ok? && r.value.directives.Some? ==> r.value.defaultValue.Some?
  {
    if !IsPunct(At(ts, i), Dollar) then NoMatch(Error("Expected $", At(ts, i)))
    else
      var (variable, j) :- ExpectName(ts, i + 1);
      var (_, k) :- ExpectPunct(ts, j, Colon, "");
      var (t, l) :- Unwrap(ParseType(ts, k), "");
      ParseVariableDefinitionTail(ts, l, variable, t)
  }

  /** The rest of a variable definition after its type: nothing unless `=`,
      else the default value and optional directives. */
  function ParseVariableDefinitionTail(ts: seq<Token>, l: nat, variable: string, t: Type): (r: Res<VariableDefinition>)
    requires l <= |ts|
    ensures !r.NoMatch?
    ensures !IsPunct(At(ts, l), Equals) <==> r == Ok(VariableDefinition(variable, t, None, None), l)
    ensures r.Ok? ==> l <= r.next <= |ts| && r.value.variable == variable && r.value.varType == t
    ensures r.Ok? && r.value.directives.Some? ==> r.value.defaultValue.Some?
  {
    if !IsPunct(At(ts, l), Equals) then Ok(VariableDefinition(variable, t, None, None), l)
    else
      var (dv, m) :- Unwrap(ParseValue(ts, l + 1), "");
      var (ds, n) :- ParseOptionalDirectives(ts, m);
      Ok(VariableDefinition(variable, t, Some(dv), ds), n)
  }

  // ------------------------------------------------------------ selection sets

  /** The tokens a selection can start with. */
  predicate SelectionStart(t: Option<Token>) {
    IsName(t) || IsPunct(t, Spread)
  }

  /** `{ Selection+ }`. */
  function ParseSelectionSet(ts: seq<Token>, i: nat): (r: Res<seq<Selection>>)
    requires i <= |ts|
    ensures r.NoMatch? <==> !IsPunct(At(ts, i), LBrace)
    ensures r.NoMatch? ==> r.error == Error("Expected {", At(ts, i))
    ensures r.Ok? ==> i + 2 < r.next <= |ts| && |r.value| > 0
    ensures r.Ok? ==> IsPunct(At(ts, r.next - 1), RBrace)
    decreases |ts| - i, 0
  {
    if !IsPunct(At(ts, i), LBrace) then NoMatch(Error("Expected {", At(ts, i)))
    else
      var (first, j) :- Unwrap(ParseSelection(ts, i + 1), "");
      var (rest, k) :- ParseSelectionItems(ts, j);
      // The item loop stops only at `}`, so the closing `expect` always succeeds.
      Ok([first] + rest, k + 1)
  }

  /** Further selections up to (not including) the closing `}`. */
  function ParseSelectionItems(ts: seq<Token>, i: nat): (r: Res<seq<Selection>>)
    requires i <= |ts|
    ensures !r.NoMatch?
    ensures r.Ok? ==> i <= r.next < |ts| && IsPunct(At(ts, r.next), RBrace)
    decreases |ts| - i, 3
  {
    if IsPunct(At(ts, i), RBrace) then Ok([], i)
    else
      var (s, j) :- Unwrap(ParseSelection(ts, i), "");
      var (rest, k) :- ParseSelectionItems(ts, j);
      Ok([s] + rest, k)
  }

  /** Field, else fragment spread, else inline fragment. After `...` one of
      the last two always commits, so only a token that is neither a name nor
      `...` is a recoverable failure. */
  function ParseSelection(ts: seq<Token>, i: nat): (r: Res<Selection>)
    requires i <= |ts|
    ensures r.NoMatch? <==> !SelectionStart(At(ts, i))
    ensures r.Ok? ==> i < r.next <= |ts|
    ensures IsName(At(ts, i)) ==> r == ParseField(ts, i)
    decreases |ts| - i, 2
  {
    var field := ParseField(ts, i);
    if !field.NoMatch? then field else
    var spread := ParseFragmentSpread(ts, i);
    if !spread.NoMatch? then spread else
    var inline := ParseInlineFragment(ts, i);
    if !inline.NoMatch? then inline else
    NoMatch(Error("Unrecognized Selection", At(ts, i)))
  }

  /** `... on? Directives? SelectionSet`. A name after `...` other than `on`
      is left to the fragment spread. The type condition is recorded as the
      literal "on" and the type name after it is NOT consumed. */
  function ParseInlineFragment(ts: seq<Token>, i: nat): (r: Res<Selection>)
    requires i <= |ts|
    ensures r.NoMatch? <==>
      !IsPunct(At(ts, i), Spread) || (IsName(At(ts, i + 1)) && ts[i + 1].text != "on")
    ensures r.Ok? ==> i < r.next <= |ts| && r.value.InlineFragment?
    ensures r.Ok? ==> r.value.typeCondition == (if IsName(At(ts, i + 1)) then Some("on") else None)
    decreases |ts| - i, 1
  {
    if !IsPunct(At(ts, i), Spread) then NoMatch(Error("Expected ...", At(ts, i)))
    else
      var maybeOn := At(ts, i + 1);
      if IsName(maybeOn) && maybeOn.value.text != "on" then
        NoMatch(Error("Expected on or @ or {", maybeOn))
      else
        var (typeCondition, j) := if IsName(maybeOn) then (Some("on"), i + 2) else (None, i + 1);
        var (ds, k) :- ParseOptionalDirectives(ts, j);
        var (body, l) :- Unwrap(ParseSelectionSet(ts, k), "");
        Ok(InlineFragment(typeCondition, ds, body), l)
  }

  /** `... Name Directives?` with a name other than `on`. */
  function ParseFragmentSpread(ts: seq<Token>, i: nat): (r: Res<Selection>)
    requires i <= |ts|
    ensures r.NoMatch? <==>
      !(IsPunct(At(ts, i), Spread) && IsName(At(ts, i + 1)) && ts[i + 1].text != "on")
    ensures r.Ok? ==> i + 1 < r.next <= |ts| && r.value == FragmentSpread(ts[i + 1].text, r.value.directives)
    decreases |ts| - i, 1
  {
    if !IsPunct(At(ts, i), Spread) then NoMatch(Error("Expected ...", At(ts, i)))
    else
      var name := At(ts, i + 1);
      if !IsName(name) then NoMatch(Error("Expected name", name))
      else if name.value.text == "on" then NoMatch(Error("Expected name other than on", name))
      else
        var (ds, j) :- ParseOptionalDirectives(ts, i + 2);
        Ok(FragmentSpread(name.value.text, ds), j)
  }

  /** `(Alias :)? Name Arguments? Directives? SelectionSet?`. With `a : b`
      the field is `b` and its alias `a`. A missing selection set is not an
      error, but one that starts and then fails is. */
  function ParseField(ts: seq<Token>, i: nat): (r: Res<Selection>)
    requires i <= |ts|
    ensures r.NoMatch? <==> !IsName(At(ts, i))
    ensures r.Ok? ==> i < r.next <= |ts| && r.value.Field?
    ensures r.Ok? && IsPunct(At(ts, i + 1), Colon) ==>
      r.value.alias == Some(ts[i].text) && At(ts, i + 2) == Some(Name(r.value.name))
    ensures r.Ok? && !IsPunct(At(ts, i + 1), Colon) ==>
      r.value.alias == None && r.value.name == ts[i].text
    decreases |ts| - i, 1
  {
    if !IsName(At(ts, i)) then NoMatch(Error("Expected name", At(ts, i)))
    else
      var nameOrAlias := ts[i].text;
      var aliased := IsPunct(At(ts, i + 1), Colon);
      var (name, j) :- if aliased then ExpectName(ts, i + 2) else Ok(nameOrAlias, i + 1);
      var (args, k) :- ParseOptionalArguments(ts, j);
      var (ds, l) :- ParseOptionalDirectives(ts, k);
      var sub := ParseSelectionSet(ts, l);
      if sub.Fatal? then Fatal(sub.error)
      else
        var (selectionSet, m) := if sub.Ok? then (Some(SubSelections(sub.value)), sub.next) else (None, l);
        Ok(Field(if aliased then Some(nameOrAlias) else None, name, args, ds, selectionSet), m)
  }

  // ------------------------------------------------------ executable definitions

  /** `OperationType Name VariableDefinitions? Directives? SelectionSet`: both
      the operation type and the name are required. */
  function ParseOperationDefinition(ts: seq<Token>, i: nat): (r: Res<Definition>)
    requires i <= |ts|
    ensures r.NoMatch? <==> !IsKeywordIn(At(ts, i), OperationTypeNames)
    ensures r.NoMatch? ==> r.error == Error("Expected OperationType", At(ts, i))
    ensures r.Ok? ==> i < r.next <= |ts| && r.value.OperationDefinition?
    ensures r.Ok? ==> r.value.operationType == OperationTypeOf(ts[i].text)
    ensures r.Ok? ==> r.value.operationName.Some? && At(ts, i + 1) == Some(Name(r.value.operationName.value))
  {
    var t := At(ts, i);
    if !(IsName(t) && OperationTypeOf(t.value.text).Some?) then
      NoMatch(Error("Expected OperationType", t))
    else
      var (name, j) :- ExpectName(ts, i + 1);
      var (vds, k) :- ParseOptionalVariableDefinitions(ts, j);
      var (ds, l) :- ParseOptionalDirectives(ts, k);
      var (ss, m) :- Unwrap(ParseSelectionSet(ts, l), "");
      Ok(OperationDefinition(OperationTypeOf(t.value.text), Some(name), vds, ds, ss), m)
  }

  /** `fragment Name on Name Directives? SelectionSet`. The fragment name may
      itself be `on`. */
  function ParseFragmentDefinition(ts: seq<Token>, i: nat): (r: Res<Definition>)
    requires i <= |ts|
    ensures r.NoMatch? <==> !IsKeyword(At(ts, i), "fragment")
    ensures r.NoMatch? ==> r.error == Error("Expected fragment", At(ts, i))
    ensures r.Ok? ==> i + 3 < r.next <= |ts| && r.value.FragmentDefinition?
    ensures r.Ok? ==> At(ts, i + 1) == Some(Name(r.value.name)) && At(ts, i + 2) == Some(Name("on"))
    ensures r.Ok? ==> At(ts, i + 3) == Some(Name(r.value.typeCondition))
  {
    if !IsKeyword(At(ts, i), "fragment") then NoMatch(Error("Expected fragment", At(ts, i)))
    else
      var (name, j) :- ExpectName(ts, i + 1);
      var (on, k) :- ExpectName(ts, j);
      if on != "on" then Fatal(Error("Expected on", At(ts, j)))
      else
        var (typeCondition, l) :- ExpectName(ts, k);
        var (ds, m) :- ParseOptionalDirectives(ts, l);
        var (ss, n) :- Unwrap(ParseSelectionSet(ts, m), "");
        Ok(FragmentDefinition(name, typeCondition, ds, ss), n)
  }

  /** Operation, else fragment. */
  function ParseExecutableDefinition(ts: seq<Token>, i: nat): (r: Res<Definition>)
    requires i <= |ts|
    ensures r.NoMatch? <==>
      !IsKeywordIn(At(ts, i), OperationTypeNames) && !IsKeyword(At(ts, i), "fragment")
    ensures r.NoMatch? ==> r.error == Error("Unrecognized ExecutableDefinition", At(ts, i))
    ensures r.Ok? ==> i < r.next <= |ts| && r.value.IsExecutable()
  {
    var operation := ParseOperationDefinition(ts, i);
    if !operation.NoMatch? then operation else
    var fragment := ParseFragmentDefinition(ts, i);
    if !fragment.NoMatch? then fragment else
    NoMatch(Error("Unrecognized ExecutableDefinition", At(ts, i)))
  }
}
