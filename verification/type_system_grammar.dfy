/**
 The type-system productions: schema, scalar, object, interface, union, enum
 and input-object type definitions, directive definitions, and the `extend`
 forms of all but the directive definition, with their field, argument,
 input-value, enum-value, union-member, interface and root-operation lists.

 A definition may start with a description (a string token). A definition
 rule commits once its keyword has been read; an extension rule commits once
 `extend` and its keyword have been read.
 */
module TypeSystemGrammar {
  import opened Wrappers
  import opened Tokens
  import opened Ast
  import opened Results
  import opened ValueGrammar
  import opened ExecutableGrammar

  /** The messages of an extension that has none of its clauses. */
  const SchemaClausesMessage: string := "Expected at least one of Directives, { RootOperationTypeDefinition_list }"
  const ObjectClausesMessage: string := "Expected at least one of ImplementsInterfaces, Directives, fieldsDefinition"
  const UnionClausesMessage: string := "Expected at least one of Directives, UnionMemberTypes"
  const EnumClausesMessage: string := "Expected at least one of Directives, EnumValuesDefinition"
  const InputClausesMessage: string := "Expected at least one of Directives, InputFieldsDefinition"

  const TypeKeywords: set<string> := {"scalar", "type", "interface", "union", "enum", "input"}

  /** Index after an optional leading description. */
  function AfterDescription(ts: seq<Token>, i: nat): nat {
    if IsString(At(ts, i)) then i + 1 else i
  }

  /** `kw`, optionally preceded by a description. */
  predicate DescribedKeyword(ts: seq<Token>, i: nat, kw: string) {
    IsKeyword(At(ts, AfterDescription(ts, i)), kw)
  }

  /** `extend kw`. */
  predicate ExtensionOf(ts: seq<Token>, i: nat, kw: string) {
    IsKeyword(At(ts, i), "extend") && IsKeyword(At(ts, i + 1), kw)
  }

  /** A leading string token is a description. */
  function ParseOptionalDescription(ts: seq<Token>, i: nat): (r: (Option<string>, nat))
    ensures r.1 == AfterDescription(ts, i)
    ensures r.0.Some? <==> IsString(At(ts, i))
    ensures r.0.Some? ==> ts[i] == StringLit(r.0.value)
  {
    var t := At(ts, i);
    if IsString(t) then (Some(t.value.stringValue), i + 1) else (None, i)
  }

  // ------------------------------------------------------------ shared lists

  /** `sep? Name (sep Name)*`, the shape of union members (`|`) and
      implemented interfaces (`&`). */
  function ParseSeparatedNames(ts: seq<Token>, i: nat, sep: Punctuator): (r: Res<seq<string>>)
    requires i <= |ts|
    ensures !r.NoMatch?
    ensures r.Ok? ==> i < r.next <= |ts| && |r.value| > 0 && !IsPunct(At(ts, r.next), sep)
  {
    var j := if IsPunct(At(ts, i), sep) then i + 1 else i;
    var (first, k) :- ExpectName(ts, j);
    var (rest, l) :- ParseMoreNames(ts, k, sep);
    Ok([first] + rest, l)
  }

  function ParseMoreNames(ts: seq<Token>, i: nat, sep: Punctuator): (r: Res<seq<string>>)
    requires i <= |ts|
    ensures !r.NoMatch?
    ensures r.Ok? ==> i <= r.next <= |ts| && !IsPunct(At(ts, r.next), sep)
    ensures r.Ok? ==> (|r.value| == 0 <==> r.next == i)
    decreases |ts| - i
  {
    if !IsPunct(At(ts, i), sep) then Ok([], i)
    else
      var (name, j) :- ExpectName(ts, i + 1);
      var (rest, k) :- ParseMoreNames(ts, j, sep);
      Ok([name] + rest, k)
  }

  /** `= |? Name (| Name)*`, or absent without `=`. */
  function ParseOptionalUnionMemberTypes(ts: seq<Token>, i: nat): (r: Res<Option<seq<string>>>)
    requires i <= |ts|
    ensures !r.NoMatch?
    ensures !IsPunct(At(ts, i), Equals) <==> r == Ok(None, i)
    ensures r.Ok? ==> i <= r.next <= |ts|
    ensures r.Ok? && r.value.Some? ==> |r.value.value| > 0 && i < r.next
  {
    if !IsPunct(At(ts, i), Equals) then Ok(None, i)
    else
      var (names, j) :- ParseSeparatedNames(ts, i + 1, Pipe);
      Ok(Some(names), j)
  }

  /** `implements &? Name (& Name)*`, or absent without `implements`. */
  function ParseOptionalImplementsInterfaces(ts: seq<Token>, i: nat): (r: Res<Option<seq<string>>>)
    requires i <= |ts|
    ensures !r.NoMatch?
    ensures !IsKeyword(At(ts, i), "implements") <==> r == Ok(None, i)
    ensures r.Ok? ==> i <= r.next <= |ts|
    ensures r.Ok? && r.value.Some? ==> |r.value.value| > 0 && i < r.next
  {
    if !IsKeyword(At(ts, i), "implements") then Ok(None, i)
    else
      var (names, j) :- ParseSeparatedNames(ts, i + 1, Amp);
      Ok(Some(names), j)
  }

  // ---------------------------------------------------------- input values

  /** `= Value`, or absent without `=`. */
  function ParseOptionalDefaultValue(ts: seq<Token>, i: nat): (r: Res<Option<Value>>)
    requires i <= |ts|
    ensures !r.NoMatch?
    ensures !IsPunct(At(ts, i), Equals) <==> r == Ok(None, i)
    ensures r.Ok? ==> i <= r.next <= |ts|
    ensures r.Ok? && r.value.Some? ==> i + 1 < r.next
  {
    if !IsPunct(At(ts, i), Equals) then Ok(None, i)
    else
      var (v, j) :- Unwrap(ParseValue(ts, i + 1), "");
      Ok(Some(v), j)
  }

  /** `Description? Name : Type DefaultValue? Directives?`. Never a
      recoverable failure: the name is expected outright. */
  function ParseInputValueDefinition(ts: seq<Token>, i: nat): (r: Res<InputValueDefinition>)
    requires i <= |ts|
    ensures !r.NoMatch?
    ensures r.Ok? ==> i < r.next <= |ts| && WellFormedType(r.value.valueType)
    ensures r.Ok? ==> (r.value.description.Some? <==> IsString(At(ts, i)))
  {
    var (description, j) := ParseOptionalDescription(ts, i);
    var (name, k) :- ExpectName(ts, j);
    var (_, l) :- ExpectPunct(ts, k, Colon, "");
    var (t, m) :- Unwrap(ParseType(ts, l), "");
    var (dv, n) :- ParseOptionalDefaultValue(ts, m);
    var (ds, o) :- ParseOptionalDirectives(ts, n);
    Ok(InputValueDefinition(description, name, t, dv, ds), o)
  }

  /** `( InputValueDefinition+ )`, or absent without `(`. */
  function ParseOptionalArgumentsDefinition(ts: seq<Token>, i: nat): (r: Res<Option<seq<InputValueDefinition>>>)
    requires i <= |ts|
    ensures !r.NoMatch?
    ensures !IsPunct(At(ts, i), LParen) <==> r == Ok(None, i)
    ensures r.Ok? ==> i <= r.next <= |ts|
    ensures r.Ok? && r.value.Some? ==>
      |r.value.value| > 0 && i < r.next && IsPunct(At(ts, r.next - 1), RParen)
  {
    if !IsPunct(At(ts, i), LParen) then Ok(None, i)
    else
      var (values, j) :- ParseInputValuesBlock(ts, i, RParen);
      Ok(Some(values), j)
  }

  /** `{ InputValueDefinition+ }`, or absent without `{`. */
  function ParseOptionalInputFieldsDefinition(ts: seq<Token>, i: nat): (r: Res<Option<seq<InputValueDefinition>>>)
    requires i <= |ts|
    ensures !r.NoMatch?
    ensures !IsPunct(At(ts, i), LBrace) <==> r == Ok(None, i)
    ensures r.Ok? ==> i <= r.next <= |ts|
    ensures r.Ok? && r.value.Some? ==>
      |r.value.value| > 0 && i < r.next && IsPunct(At(ts, r.next - 1), RBrace)
  {
    if !IsPunct(At(ts, i), LBrace) then Ok(None, i)
    else
      var (values, j) :- ParseInputValuesBlock(ts, i, RBrace);
      Ok(Some(values), j)
  }

  /** The input-value definitions between the opener at `i` and `closer`. */
  function ParseInputValuesBlock(ts: seq<Token>, i: nat, closer: Punctuator): (r: Res<seq<InputValueDefinition>>)
    requires i < |ts|
    ensures !r.NoMatch?
    ensures r.Ok? ==> |r.value| > 0 && i < r.next <= |ts| && IsPunct(At(ts, r.next - 1), closer)
  {
    var (first, j) :- Unwrap(ParseInputValueDefinition(ts, i + 1), "");
    var (rest, k) :- ParseInputValueItems(ts, j, closer);
    // The item loop stops only at `closer`, so the closing `expect` always succeeds.
    Ok([first] + rest, k + 1)
  }

  /** Further input-value definitions up to (not including) `closer`. */
  function ParseInputValueItems(ts: seq<Token>, i: nat, closer: Punctuator): (r: Res<seq<InputValueDefinition>>)
    requires i <= |ts|
    ensures !r.NoMatch?
    ensures r.Ok? ==> i <= r.next < |ts| && IsPunct(At(ts, r.next), closer)
    decreases |ts| - i
  {
    if IsPunct(At(ts, i), closer) then Ok([], i)
    else
      var (d, j) :- Unwrap(ParseInputValueDefinition(ts, i), "");
      var (rest, k) :- ParseInputValueItems(ts, j, closer);
      Ok([d] + rest, k)
  }

  // ---------------------------------------------------------------- fields

  /** `Description? Name ArgumentsDefinition? : Type Directives?`. */
  function ParseFieldDefinition(ts: seq<Token>, i: nat): (r: Res<FieldDefinition>)
    requires i <= |ts|
    ensures !r.NoMatch?
    ensures r.Ok? ==> i < r.next <= |ts| && WellFormedType(r.value.fieldType)
    ensures r.Ok? ==> (r.value.description.Some? <==> IsString(At(ts, i)))
  {
    var (description, j) := ParseOptionalDescription(ts, i);
    var (name, k) :- ExpectName(ts, j);
    var (args, l) :- ParseOptionalArgumentsDefinition(ts, k);
    var (_, m) :- ExpectPunct(ts, l, Colon, "");
    var (t, n) :- Unwrap(ParseType(ts, m), "");
    var (ds, o) :- ParseOptionalDirectives(ts, n);
    Ok(FieldDefinition(description, name, args, t, ds), o)
  }

  /** `{ FieldDefinition+ }`, or absent without `{`. */
  function ParseOptionalFieldsDefinition(ts: seq<Token>, i: nat): (r: Res<Option<seq<FieldDefinition>>>)
    requires i <= |ts|
    ensures !r.NoMatch?
    ensures !IsPunct(At(ts, i), LBrace) <==> r == Ok(None, i)
    ensures r.Ok? ==> i <= r.next <= |ts|
    ensures r.Ok? && r.value.Some? ==>
      |r.value.value| > 0 && i < r.next && IsPunct(At(ts, r.next - 1), RBrace)
  {
    if !IsPunct(At(ts, i), LBrace) then Ok(None, i)
    else
      var (fields, j) :- ParseFieldsBlock(ts, i);
      Ok(Some(fields), j)
  }

  /** The fields of `{ FieldDefinition+ }` opening at `i`. */
  function ParseFieldsBlock(ts: seq<Token>, i: nat): (r: Res<seq<FieldDefinition>>)
    requires i < |ts|
    ensures !r.NoMatch?
    ensures r.Ok? ==> |r.value| > 0 && i < r.next <= |ts| && IsPunct(At(ts, r.next - 1), RBrace)
  {
    var (first, j) :- Unwrap(ParseFieldDefinition(ts, i + 1), "");
    var (rest, k) :- ParseFieldDefinitionItems(ts, j);
    // The item loop stops only at `}`, so the closing `expect` always succeeds.
    Ok([first] + rest, k + 1)
  }

  function ParseFieldDefinitionItems(ts: seq<Token>, i: nat): (r: Res<seq<FieldDefinition>>)
    requires i <= |ts|
    ensures !r.NoMatch?
    ensures r.Ok? ==> i <= r.next < |ts| && IsPunct(At(ts, r.next), RBrace)
    decreases |ts| - i
  {
    if IsPunct(At(ts, i), RBrace) then Ok([], i)
    else
      var (d, j) :- Unwrap(ParseFieldDefinition(ts, i), "");
      var (rest, k) :- ParseFieldDefinitionItems(ts, j);
      Ok([d] + rest, k)
  }

  // ----------------------------------------------------------- enum values

  /** `Description? Name Directives?` with a name other than `true`, `false`
      and `null`; a reserved name is a recoverable failure here, which every
      caller turns fatal. */
  function ParseEnumValueDefinition(ts: seq<Token>, i: nat): (r: Res<EnumValueDefinition>)
    requires i <= |ts|
    ensures r.NoMatch? <==> IsKeywordIn(At(ts, AfterDescription(ts, i)), Reserved)
    ensures r.NoMatch? ==>
      r.error == Error("EnumValue can't be one of true, false, or null", At(ts, AfterDescription(ts, i)))
    ensures r.Ok? ==> i < r.next <= |ts| && r.value.enumValue !in Reserved
    ensures r.Ok? ==> At(ts, AfterDescription(ts, i)) == Some(Name(r.value.enumValue))
  {
    var (description, j) := ParseOptionalDescription(ts, i);
    var (value, k) :- ExpectName(ts, j);
    if value in Reserved then NoMatch(Error("EnumValue can't be one of true, false, or null", At(ts, j)))
    else
      var (ds, l) :- ParseOptionalDirectives(ts, k);
      Ok(EnumValueDefinition(description, value, ds), l)
  }

  /** `{ EnumValueDefinition+ }`, or absent without `{`. */
  function ParseOptionalEnumValuesDefinition(ts: seq<Token>, i: nat): (r: Res<Option<seq<EnumValueDefinition>>>)
    requires i <= |ts|
    ensures !r.NoMatch?
    ensures !IsPunct(At(ts, i), LBrace) <==> r == Ok(None, i)
    ensures r.Ok? ==> i <= r.next <= |ts|
    ensures r.Ok? && r.value.Some? ==>
      |r.value.value| > 0 && i < r.next && IsPunct(At(ts, r.next - 1), RBrace)
    ensures r.Ok? && r.value.Some? ==>
      forall k :: 0 <= k < |r.value.value| ==> r.value.value[k].enumValue !in Reserved
  {
    if !IsPunct(At(ts, i), LBrace) then Ok(None, i)
    else
      var (first, j) :- Unwrap(ParseEnumValueDefinition(ts, i + 1), "");
      var (rest, k) :- ParseEnumValueItems(ts, j);
      // The item loop stops only at `}`, so the closing `expect` always succeeds.
      Ok(Some([first] + rest), k + 1)
  }

  function ParseEnumValueItems(ts: seq<Token>, i: nat): (r: Res<seq<EnumValueDefinition>>)
    requires i <= |ts|
    ensures !r.NoMatch?
    ensures r.Ok? ==> i <= r.next < |ts| && IsPunct(At(ts, r.next), RBrace)
    ensures r.Ok? ==> forall k :: 0 <= k < |r.value| ==> r.value[k].enumValue !in Reserved
    decreases |ts| - i
  {
    if IsPunct(At(ts, i), RBrace) then Ok([], i)
    else
      var (d, j) :- Unwrap(ParseEnumValueDefinition(ts, i), "");
      var (rest, k) :- ParseEnumValueItems(ts, j);
      Ok([d] + rest, k)
  }

  // ------------------------------------------------- root operation types

  /** `OperationType : Name`. */
  function ParseRootOperationTypeDefinition(ts: seq<Token>, i: nat): (r: Res<RootOperationTypeDefinition>)
    requires i <= |ts|
    ensures !r.NoMatch?
    ensures r.Ok? ==> r.next == i + 3 <= |ts|
    ensures r.Ok? ==> ts[i] == Name(OperationTypeName(r.value.operationType))
    ensures r.Ok? ==> ts[i + 1] == Punct(Colon) && ts[i + 2] == Name(r.value.typeName)
  {
    var (op, j) :- ExpectName(ts, i);
    var operationType := OperationTypeOf(op);
    if operationType.None? then Fatal(Error("Expected OperationType", At(ts, i)))
    else
      var (_, k) :- ExpectPunct(ts, j, Colon, "");
      var (typeName, l) :- ExpectName(ts, k);
      Ok(RootOperationTypeDefinition(operationType.value, typeName), l)
  }

  /** `{ RootOperationTypeDefinition+ }`, or absent without `{`. */
  function ParseOptionalRootOperationTypesDefinition(ts: seq<Token>, i: nat): (r: Res<Option<seq<RootOperationTypeDefinition>>>)
    requires i <= |ts|
    ensures !r.NoMatch?
    ensures !IsPunct(At(ts, i), LBrace) <==> r == Ok(None, i)
    ensures r.Ok? ==> i <= r.next <= |ts|
    ensures r.Ok? && r.value.Some? ==>
      |r.value.value| > 0 && i < r.next && IsPunct(At(ts, r.next - 1), RBrace)
  {
    if !IsPunct(At(ts, i), LBrace) then Ok(None, i)
    else
      var (first, j) :- Unwrap(ParseRootOperationTypeDefinition(ts, i + 1), "");
      var (rest, k) :- ParseRootOperationTypeItems(ts, j);
      // The item loop stops only at `}`, so the closing `expect` always succeeds.
      Ok(Some([first] + rest), k + 1)
  }

  function ParseRootOperationTypeItems(ts: seq<Token>, i: nat): (r: Res<seq<RootOperationTypeDefinition>>)
    requires i <= |ts|
    ensures !r.NoMatch?
    ensures r.Ok? ==> i <= r.next < |ts| && IsPunct(At(ts, r.next), RBrace)
    decreases |ts| - i
  {
    if IsPunct(At(ts, i), RBrace) then Ok([], i)
    else
      var (d, j) :- Unwrap(ParseRootOperationTypeDefinition(ts, i), "");
      var (rest, k) :- ParseRootOperationTypeItems(ts, j);
      Ok([d] + rest, k)
  }

  // ------------------------------------------------------- type definitions

  function ParseScalarTypeDefinition(ts: seq<Token>, i: nat): (r: Res<Definition>)
    requires i <= |ts|
    ensures r.NoMatch? <==> !DescribedKeyword(ts, i, "scalar")
    ensures r.Ok? ==> i < r.next <= |ts| && r.value.ScalarTypeDefinition?
    ensures r.Ok? ==> (r.value.description.Some? <==> IsString(At(ts, i)))
  {
    var (description, j) := ParseOptionalDescription(ts, i);
    if !IsKeyword(At(ts, j), "scalar") then NoMatch(Error("Expected scalar", At(ts, j)))
    else
      var (name, k) :- ExpectName(ts, j + 1);
      var (ds, l) :- ParseOptionalDirectives(ts, k);
      Ok(ScalarTypeDefinition(description, name, ds), l)
  }

  function ParseObjectTypeDefinition(ts: seq<Token>, i: nat): (r: Res<Definition>)
    requires i <= |ts|
    ensures r.NoMatch? <==> !DescribedKeyword(ts, i, "type")
    ensures r.Ok? ==> i < r.next <= |ts| && r.value.ObjectTypeDefinition?
    ensures r.Ok? ==> (r.value.description.Some? <==> IsString(At(ts, i)))
  {
    var (description, j) := ParseOptionalDescription(ts, i);
    if !IsKeyword(At(ts, j), "type") then NoMatch(Error("Expected type", At(ts, j)))
    else
      var (name, k) :- ExpectName(ts, j + 1);
      var (interfaces, l) :- ParseOptionalImplementsInterfaces(ts, k);
      var (ds, m) :- ParseOptionalDirectives(ts, l);
      var (fields, n) :- ParseOptionalFieldsDefinition(ts, m);
      Ok(ObjectTypeDefinition(description, name, interfaces, ds, fields), n)
  }

  function ParseInterfaceTypeDefinition(ts: seq<Token>, i: nat): (r: Res<Definition>)
    requires i <= |ts|
    ensures r.NoMatch? <==> !DescribedKeyword(ts, i, "interface")
    ensures r.Ok? ==> i < r.next <= |ts| && r.value.InterfaceTypeDefinition?
    ensures r.Ok? ==> (r.value.description.Some? <==> IsString(At(ts, i)))
  {
    var (description, j) := ParseOptionalDescription(ts, i);
    if !IsKeyword(At(ts, j), "interface") then NoMatch(Error("Expected interface", At(ts, j)))
    else
      var (name, k) :- ExpectName(ts, j + 1);
      var (interfaces, l) :- ParseOptionalImplementsInterfaces(ts, k);
      var (ds, m) :- ParseOptionalDirectives(ts, l);
      var (fields, n) :- ParseOptionalFieldsDefinition(ts, m);
      Ok(InterfaceTypeDefinition(description, name, interfaces, ds, fields), n)
  }

  function ParseUnionTypeDefinition(ts: seq<Token>, i: nat): (r: Res<Definition>)
    requires i <= |ts|
    ensures r.NoMatch? <==> !DescribedKeyword(ts, i, "union")
    ensures r.Ok? ==> i < r.next <= |ts| && r.value.UnionTypeDefinition?
    ensures r.Ok? ==> (r.value.description.Some? <==> IsString(At(ts, i)))
  {
    var (description, j) := ParseOptionalDescription(ts, i);
    if !IsKeyword(At(ts, j), "union") then NoMatch(Error("Expected union", At(ts, j)))
    else
      var (name, k) :- ExpectName(ts, j + 1);
      var (ds, l) :- ParseOptionalDirectives(ts, k);
      var (members, m) :- ParseOptionalUnionMemberTypes(ts, l);
      Ok(UnionTypeDefinition(description, name, ds, members), m)
  }

  function ParseEnumTypeDefinition(ts: seq<Token>, i: nat): (r: Res<Definition>)
    requires i <= |ts|
    ensures r.NoMatch? <==> !DescribedKeyword(ts, i, "enum")
    ensures r.Ok? ==> i < r.next <= |ts| && r.value.EnumTypeDefinition?
    ensures r.Ok? ==> (r.value.description.Some? <==> IsString(At(ts, i)))
  {
    var (description, j) := ParseOptionalDescription(ts, i);
    if !IsKeyword(At(ts, j), "enum") then NoMatch(Error("Expected enum", At(ts, j)))
    else
      var (name, k) :- ExpectName(ts, j + 1);
      var (ds, l) :- ParseOptionalDirectives(ts, k);
      var (values, m) :- ParseOptionalEnumValuesDefinition(ts, l);
      Ok(EnumTypeDefinition(description, name, ds, values), m)
  }

  function ParseInputObjectTypeDefinition(ts: seq<Token>, i: nat): (r: Res<Definition>)
    requires i <= |ts|
    ensures r.NoMatch? <==> !DescribedKeyword(ts, i, "input")
    ensures r.Ok? ==> i < r.next <= |ts| && r.value.InputObjectTypeDefinition?
    ensures r.Ok? ==> (r.value.description.Some? <==> IsString(At(ts, i)))
  {
    var (description, j) := ParseOptionalDescription(ts, i);
    if !IsKeyword(At(ts, j), "input") then NoMatch(Error("Expected input", At(ts, j)))
    else
      var (name, k) :- ExpectName(ts, j + 1);
      var (ds, l) :- ParseOptionalDirectives(ts, k);
      var (fields, m) :- ParseOptionalInputFieldsDefinition(ts, l);
      Ok(InputObjectTypeDefinition(description, name, ds, fields), m)
  }

  /** Scalar, object, interface, union, enum, input object, in that order. */
  function ParseTypeDefinition(ts: seq<Token>, i: nat): (r: Res<Definition>)
    requires i <= |ts|
    ensures r.NoMatch? <==> !IsKeywordIn(At(ts, AfterDescription(ts, i)), TypeKeywords)
    ensures r.NoMatch? ==> r.error == Error("Unrecognized TypeDefinition", At(ts, i))
    ensures r.Ok? ==> i < r.next <= |ts| && r.value.IsTypeDefinition()
  {
    var scalar := ParseScalarTypeDefinition(ts, i);
    if !scalar.NoMatch? then scalar else
    var objectType := ParseObjectTypeDefinition(ts, i);
    if !objectType.NoMatch? then objectType else
    var interface := ParseInterfaceTypeDefinition(ts, i);
    if !interface.NoMatch? then interface else
    var union := ParseUnionTypeDefinition(ts, i);
    if !union.NoMatch? then union else
    var enumeration := ParseEnumTypeDefinition(ts, i);
    if !enumeration.NoMatch? then enumeration else
    var inputObject := ParseInputObjectTypeDefinition(ts, i);
    if !inputObject.NoMatch? then inputObject else
    NoMatch(Error("Unrecognized TypeDefinition", At(ts, i)))
  }

  // -------------------------------------------------- directive definitions

  /** A string token spelling one of the nineteen locations. */
  function ParseDirectiveLocation(ts: seq<Token>, i: nat): (r: Res<DirectiveLocation>)
    requires i <= |ts|
    ensures !r.Fatal?
    ensures r.Ok? <==> IsString(At(ts, i)) && ts[i].stringValue in LocationNames
    ensures r.Ok? ==> r.next == i + 1 && ts[i] == StringLit(LocationName(r.value))
  {
    var t := At(ts, i);
    if !(IsString(t) && LocationOf(t.value.stringValue).Some?) then
      NoMatch(Error("Expected DirectiveLocation", t))
    else Ok(LocationOf(t.value.stringValue).value, i + 1)
  }

  /** `|? Location (| Location)*`. */
  function ParseDirectiveLocations(ts: seq<Token>, i: nat): (r: Res<seq<DirectiveLocation>>)
    requires i <= |ts|
    ensures !r.NoMatch?
    ensures r.Ok? ==> i < r.next <= |ts| && |r.value| > 0 && !IsPunct(At(ts, r.next), Pipe)
  {
    var j := if IsPunct(At(ts, i), Pipe) then i + 1 else i;
    var (first, k) :- Unwrap(ParseDirectiveLocation(ts, j), "");
    var (rest, l) :- ParseMoreDirectiveLocations(ts, k);
    Ok([first] + rest, l)
  }

  function ParseMoreDirectiveLocations(ts: seq<Token>, i: nat): (r: Res<seq<DirectiveLocation>>)
    requires i <= |ts|
    ensures !r.NoMatch?
    ensures r.Ok? ==> i <= r.next <= |ts| && !IsPunct(At(ts, r.next), Pipe)
    ensures r.Ok? ==> (|r.value| == 0 <==> r.next == i)
    decreases |ts| - i
  {
    if !IsPunct(At(ts, i), Pipe) then Ok([], i)
    else
      var (l, j) :- Unwrap(ParseDirectiveLocation(ts, i + 1), "");
      var (rest, k) :- ParseMoreDirectiveLocations(ts, j);
      Ok([l] + rest, k)
  }

  /** `Description? directive @ Name ArgumentsDefinition? "repeatable"? on
      DirectiveLocations`. `repeatable` is recognised only as a STRING token. */
  function ParseDirectiveDefinition(ts: seq<Token>, i: nat): (r: Res<Definition>)
    requires i <= |ts|
    ensures r.NoMatch? <==> !DescribedKeyword(ts, i, "directive")
    ensures r.Ok? ==> i < r.next <= |ts| && r.value.DirectiveDefinition?
    ensures r.Ok? ==> |r.value.directiveLocations| > 0
    ensures r.Ok? ==> (r.value.description.Some? <==> IsString(At(ts, i)))
  {
    var (description, j) := ParseOptionalDescription(ts, i);
    if !IsKeyword(At(ts, j), "directive") then NoMatch(Error("Expected directive", At(ts, j)))
    else
      var (_, k) :- ExpectPunct(ts, j + 1, AtSign, "");
      var (name, l) :- ExpectName(ts, k);
      var (args, m) :- ParseOptionalArgumentsDefinition(ts, l);
      var repeatable := At(ts, m) == Some(StringLit("repeatable"));
      var n := if repeatable then m + 1 else m;
      var (on, o) :- ExpectName(ts, n);
      if on != "on" then Fatal(Error("Expected on", At(ts, n)))
      else
        var (locations, p) :- Unwrap(ParseDirectiveLocations(ts, o), "");
        Ok(DirectiveDefinition(description, name, args, repeatable, locations), p)
  }

  // ---------------------------------------------------- schema definitions

  /** `Description? schema Directives? { RootOperationTypeDefinition+ }`:
      the root-operation block is required. */
  function ParseSchemaDefinition(ts: seq<Token>, i: nat): (r: Res<Definition>)
    requires i <= |ts|
    ensures r.NoMatch? <==> !DescribedKeyword(ts, i, "schema")
    ensures r.Ok? ==> i < r.next <= |ts| && r.value.SchemaDefinition?
    ensures r.Ok? ==> |r.value.rootOperationTypes| > 0
    ensures r.Ok? ==> (r.value.description.Some? <==> IsString(At(ts, i)))
  {
    var (description, j) := ParseOptionalDescription(ts, i);
    if !IsKeyword(At(ts, j), "schema") then NoMatch(Error("Expected schema", At(ts, j)))
    else
      var (ds, k) :- ParseOptionalDirectives(ts, j + 1);
      var (roots, l) :- ParseOptionalRootOperationTypesDefinition(ts, k);
      if roots.None? then Fatal(Error("Expected { RootOperationTypeDefinition_list }", At(ts, l)))
      else Ok(SchemaDefinition(description, ds, roots.value), l)
  }

  /** Schema, else type definition, else directive definition. */
  function ParseTypeSystemDefinition(ts: seq<Token>, i: nat): (r: Res<Definition>)
    requires i <= |ts|
    ensures r.NoMatch? <==>
      !IsKeywordIn(At(ts, AfterDescription(ts, i)), TypeKeywords + {"schema", "directive"})
    ensures r.NoMatch? ==> r.error == Error("Unrecognized TypeSystemDefinition", At(ts, i))
    ensures r.Ok? ==> i < r.next <= |ts| && r.value.IsTypeSystemDefinition()
  {
    var schema := ParseSchemaDefinition(ts, i);
    if !schema.NoMatch? then schema else
    var typeDefinition := ParseTypeDefinition(ts, i);
    if !typeDefinition.NoMatch? then typeDefinition else
    var directive := ParseDirectiveDefinition(ts, i);
    if !directive.NoMatch? then directive else
    NoMatch(Error("Unrecognized TypeSystemDefinition", At(ts, i)))
  }

  // ------------------------------------------------------------- extensions

  /** `extend schema Directives? { RootOperationTypeDefinition+ }?` with at
      least one of the two clauses. */
  function ParseSchemaExtension(ts: seq<Token>, i: nat): (r: Res<Definition>)
    requires i <= |ts|
    ensures r.NoMatch? <==> !ExtensionOf(ts, i, "schema")
    ensures r.Ok? ==> i + 2 < r.next <= |ts| && r.value.SchemaExtension?
    ensures r.Ok? ==> r.value.directives.Some? || r.value.rootOperationTypeDefinitions.Some?
    ensures ExtensionOf(ts, i, "schema") && !IsPunct(At(ts, i + 2), AtSign) && !IsPunct(At(ts, i + 2), LBrace) ==>
      r == Fatal(Error(SchemaClausesMessage, At(ts, i + 2)))
  {
    if !IsKeyword(At(ts, i), "extend") then NoMatch(Error("Expected extend", At(ts, i)))
    else if !IsKeyword(At(ts, i + 1), "schema") then NoMatch(Error("Expected schema", At(ts, i + 1)))
    else
      var (ds, j) :- ParseOptionalDirectives(ts, i + 2);
      var (roots, k) :- ParseOptionalRootOperationTypesDefinition(ts, j);
      if ds.None? && roots.None? then
        Fatal(Error(SchemaClausesMessage, At(ts, k)))
      else Ok(SchemaExtension(ds, roots), k)
  }

  /** `extend scalar Name Directives?`, which FAILS when directives are present
      (the directives check in `parseScalarTypeExtension` is inverted), so a successful scalar extension
      never carries directives. */
  function ParseScalarTypeExtension(ts: seq<Token>, i: nat): (r: Res<Definition>)
    requires i <= |ts|
    ensures r.NoMatch? <==> !ExtensionOf(ts, i, "scalar")
    ensures r.Ok? ==> r.next == i + 3 <= |ts| && r.value.ScalarTypeExtension?
    ensures r.Ok? ==> r.value.directives == None && Some(Name(r.value.name)) == At(ts, i + 2)
    ensures ExtensionOf(ts, i, "scalar") && IsPunct(At(ts, i + 3), AtSign) ==> r.Fatal?
  {
    if !IsKeyword(At(ts, i), "extend") then NoMatch(Error("Expected extend", At(ts, i)))
    else if !IsKeyword(At(ts, i + 1), "scalar") then NoMatch(Error("Expected scalar", At(ts, i + 1)))
    else
      var (name, j) :- ExpectName(ts, i + 2);
      var (ds, k) :- ParseOptionalDirectives(ts, j);
      if ds.Some? then Fatal(Error("Expected Directives", At(ts, k)))
      else Ok(ScalarTypeExtension(name, ds), k)
  }

  /** `extend type Name ImplementsInterfaces? Directives? FieldsDefinition?`
      with at least one of the three clauses. */
  function ParseObjectTypeExtension(ts: seq<Token>, i: nat): (r: Res<Definition>)
    requires i <= |ts|
    ensures r.NoMatch? <==> !ExtensionOf(ts, i, "type")
    ensures r.Ok? ==> i + 3 < r.next <= |ts| && r.value.ObjectTypeExtension?
    ensures r.Ok? ==>
      r.value.implementsInterfaces.Some? || r.value.directives.Some? || r.value.fieldsDefinition.Some?
    ensures (ExtensionOf(ts, i, "type") && IsName(At(ts, i + 2)) && !IsKeyword(At(ts, i + 3), "implements")
             && !IsPunct(At(ts, i + 3), AtSign) && !IsPunct(At(ts, i + 3), LBrace)) ==>
      r == Fatal(Error(ObjectClausesMessage, At(ts, i + 3)))
  {
    if !IsKeyword(At(ts, i), "extend") then NoMatch(Error("Expected extend", At(ts, i)))
    else if !IsKeyword(At(ts, i + 1), "type") then NoMatch(Error("Expected type", At(ts, i + 1)))
    else
      var (name, j) :- ExpectName(ts, i + 2);
      var (interfaces, k) :- ParseOptionalImplementsInterfaces(ts, j);
      var (ds, l) :- ParseOptionalDirectives(ts, k);
      var (fields, m) :- ParseOptionalFieldsDefinition(ts, l);
      if interfaces.None? && ds.None? && fields.None? then
        Fatal(Error(ObjectClausesMessage, At(ts, m)))
      else Ok(ObjectTypeExtension(name, interfaces, ds, fields), m)
  }

  /** `extend interface Name ImplementsInterfaces? Directives?
      FieldsDefinition?` with at least one of the three clauses. */
  function ParseInterfaceTypeExtension(ts: seq<Token>, i: nat): (r: Res<Definition>)
    requires i <= |ts|
    ensures r.NoMatch? <==> !ExtensionOf(ts, i, "interface")
    ensures r.Ok? ==> i + 3 < r.next <= |ts| && r.value.InterfaceTypeExtension?
    ensures r.Ok? ==>
      r.value.implementsInterfaces.Some? || r.value.directives.Some? || r.value.fieldsDefinition.Some?
    ensures (ExtensionOf(ts, i, "interface") && IsName(At(ts, i + 2)) && !IsKeyword(At(ts, i + 3), "implements")
             && !IsPunct(At(ts, i + 3), AtSign) && !IsPunct(At(ts, i + 3), LBrace)) ==>
      r == Fatal(Error(ObjectClausesMessage, At(ts, i + 3)))
  {
    if !IsKeyword(At(ts, i), "extend") then NoMatch(Error("Expected extend", At(ts, i)))
    else if !IsKeyword(At(ts, i + 1), "interface") then NoMatch(Error("Expected interface", At(ts, i + 1)))
    else
      var (name, j) :- ExpectName(ts, i + 2);
      var (interfaces, k) :- ParseOptionalImplementsInterfaces(ts, j);
      var (ds, l) :- ParseOptionalDirectives(ts, k);
      var (fields, m) :- ParseOptionalFieldsDefinition(ts, l);
      if interfaces.None? && ds.None? && fields.None? then
        Fatal(Error(ObjectClausesMessage, At(ts, m)))
      else Ok(InterfaceTypeExtension(name, interfaces, ds, fields), m)
  }

  /** `extend union Name Directives? UnionMemberTypes?` with at least one of
      the two clauses. */
  function ParseUnionTypeExtension(ts: seq<Token>, i: nat): (r: Res<Definition>)
    requires i <= |ts|
    ensures r.NoMatch? <==> !ExtensionOf(ts, i, "union")
    ensures r.Ok? ==> i + 3 < r.next <= |ts| && r.value.UnionTypeExtension?
    ensures r.Ok? ==> r.value.directives.Some? || r.value.unionMemberTypes.Some?
    ensures (ExtensionOf(ts, i, "union") && IsName(At(ts, i + 2))
             && !IsPunct(At(ts, i + 3), AtSign) && !IsPunct(At(ts, i + 3), Equals)) ==>
      r == Fatal(Error(UnionClausesMessage, At(ts, i + 3)))
  {
    if !IsKeyword(At(ts, i), "extend") then NoMatch(Error("Expected extend", At(ts, i)))
    else if !IsKeyword(At(ts, i + 1), "union") then NoMatch(Error("Expected union", At(ts, i + 1)))
    else
      var (name, j) :- ExpectName(ts, i + 2);
      var (ds, k) :- ParseOptionalDirectives(ts, j);
      var (members, l) :- ParseOptionalUnionMemberTypes(ts, k);
      if ds.None? && members.None? then
        Fatal(Error(UnionClausesMessage, At(ts, l)))
      else Ok(UnionTypeExtension(name, ds, members), l)
  }

  /** `extend enum Name Directives? EnumValuesDefinition?` with at least one
      of the two clauses. */
  function ParseEnumTypeExtension(ts: seq<Token>, i: nat): (r: Res<Definition>)
    requires i <= |ts|
    ensures r.NoMatch? <==> !ExtensionOf(ts, i, "enum")
    ensures r.Ok? ==> i + 3 < r.next <= |ts| && r.value.EnumTypeExtension?
    ensures r.Ok? ==> r.value.directives.Some? || r.value.enumValuesDefinition.Some?
    ensures (ExtensionOf(ts, i, "enum") && IsName(At(ts, i + 2))
             && !IsPunct(At(ts, i + 3), AtSign) && !IsPunct(At(ts, i + 3), LBrace)) ==>
      r == Fatal(Error(EnumClausesMessage, At(ts, i + 3)))
  {
    if !IsKeyword(At(ts, i), "extend") then NoMatch(Error("Expected extend", At(ts, i)))
    else if !IsKeyword(At(ts, i + 1), "enum") then NoMatch(Error("Expected enum", At(ts, i + 1)))
    else
      var (name, j) :- ExpectName(ts, i + 2);
      var (ds, k) :- ParseOptionalDirectives(ts, j);
      var (values, l) :- ParseOptionalEnumValuesDefinition(ts, k);
      if ds.None? && values.None? then
        Fatal(Error(EnumClausesMessage, At(ts, l)))
      else Ok(EnumTypeExtension(name, ds, values), l)
  }

  /** `extend input Name Directives? InputFieldsDefinition?` with at least one
      of the two clauses. */
  function ParseInputObjectTypeExtension(ts: seq<Token>, i: nat): (r: Res<Definition>)
    requires i <= |ts|
    ensures r.NoMatch? <==> !ExtensionOf(ts, i, "input")
    ensures r.Ok? ==> i + 3 < r.next <= |ts| && r.value.InputObjectTypeExtension?
    ensures r.Ok? ==> r.value.directives.Some? || r.value.inputFieldsDefinition.Some?
    ensures (ExtensionOf(ts, i, "input") && IsName(At(ts, i + 2))
             && !IsPunct(At(ts, i + 3), AtSign) && !IsPunct(At(ts, i + 3), LBrace)) ==>
      r == Fatal(Error(InputClausesMessage, At(ts, i + 3)))
  {
    if !IsKeyword(At(ts, i), "extend") then NoMatch(Error("Expected extend", At(ts, i)))
    else if !IsKeyword(At(ts, i + 1), "input") then NoMatch(Error("Expected input", At(ts, i + 1)))
    else
      var (name, j) :- ExpectName(ts, i + 2);
      var (ds, k) :- ParseOptionalDirectives(ts, j);
      var (fields, l) :- ParseOptionalInputFieldsDefinition(ts, k);
      if ds.None? && fields.None? then
        Fatal(Error(InputClausesMessage, At(ts, l)))
      else Ok(InputObjectTypeExtension(name, ds, fields), l)
  }

  /** Scalar, object, interface, union, enum, input-object extension, in that
      order. */
  function ParseTypeExtension(ts: seq<Token>, i: nat): (r: Res<Definition>)
    requires i <= |ts|
    ensures r.NoMatch? <==> !(IsKeyword(At(ts, i), "extend") && IsKeywordIn(At(ts, i + 1), TypeKeywords))
    ensures r.NoMatch? ==> r.error == Error("Unrecognized TypeExtension", At(ts, i))
    ensures r.Ok? ==> i < r.next <= |ts| && r.value.IsTypeExtension()
  {
    var scalar := ParseScalarTypeExtension(ts, i);
    if !scalar.NoMatch? then scalar else
    var objectType := ParseObjectTypeExtension(ts, i);
    if !objectType.NoMatch? then objectType else
    var interface := ParseInterfaceTypeExtension(ts, i);
    if !interface.NoMatch? then interface else
    var union := ParseUnionTypeExtension(ts, i);
    if !union.NoMatch? then union else
    var enumeration := ParseEnumTypeExtension(ts, i);
    if !enumeration.NoMatch? then enumeration else
    var inputObject := ParseInputObjectTypeExtension(ts, i);
    if !inputObject.NoMatch? then inputObject else
    NoMatch(Error("Unrecognized TypeExtension", At(ts, i)))
  }

  /** Schema extension, else type extension. */
  function ParseTypeSystemExtension(ts: seq<Token>, i: nat): (r: Res<Definition>)
    requires i <= |ts|
    ensures r.NoMatch? <==>
      !(IsKeyword(At(ts, i), "extend") && IsKeywordIn(At(ts, i + 1), TypeKeywords + {"schema"}))
    ensures r.NoMatch? ==> r.error == Error("Unrecognized TypeSystemExtension", At(ts, i))
    ensures r.Ok? ==> i < r.next <= |ts| && r.value.IsTypeSystemExtension()
  {
    var schema := ParseSchemaExtension(ts, i);
    if !schema.NoMatch? then schema else
    var typeExtension := ParseTypeExtension(ts, i);
    if !typeExtension.NoMatch? then typeExtension else
    NoMatch(Error("Unrecognized TypeSystemExtension", At(ts, i)))
  }

  /** Definition, else extension. */
  function ParseTypeSystemDefinitionOrExtension(ts: seq<Token>, i: nat): (r: Res<Definition>)
    requires i <= |ts|
    ensures r.NoMatch? <==>
      !IsKeywordIn(At(ts, AfterDescription(ts, i)), TypeKeywords + {"schema", "directive"})
      && !(IsKeyword(At(ts, i), "extend") && IsKeywordIn(At(ts, i + 1), TypeKeywords + {"schema"}))
    ensures r.NoMatch? ==> r.error == Error("Unrecognized TypeSystemDefinitionOrExtension", At(ts, i))
    ensures r.Ok? ==> i < r.next <= |ts| && (r.value.IsTypeSystemDefinition() || r.value.IsTypeSystemExtension())
  {
    var definition := ParseTypeSystemDefinition(ts, i);
    if !definition.NoMatch? then definition else
    var extension := ParseTypeSystemExtension(ts, i);
    if !extension.NoMatch? then extension else
    NoMatch(Error("Unrecognized TypeSystemDefinitionOrExtension", At(ts, i)))
  }
}
