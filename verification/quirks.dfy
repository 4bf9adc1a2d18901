/**
 Concrete token sequences on which the parser behaves as its code is written
 rather than as the GraphQL grammar (October 2021 edition) reads. Each lemma
 pins the exact result the rules give for one small input.
 */
module Quirks {
  import opened Wrappers
  import opened Tokens
  import opened Ast
  import opened Results
  import opened ValueGrammar
  import opened ExecutableGrammar
  import opened TypeSystemGrammar
  import opened Document

  // ---------------------------------------------------------- executable

  /** `{ x }` at `i` is a selection set holding the one field `x`. */
  lemma SingleFieldSet(ts: seq<Token>, i: nat)
    requires i + 3 <= |ts| && ts[i] == Punct(LBrace) && ts[i + 1] == Name("x") && ts[i + 2] == Punct(RBrace)
    ensures ParseSelectionSet(ts, i) == Ok([Field(None, "x", None, None, None)], i + 3)
  {
    assert ParseSelectionSet(ts, i + 2).NoMatch?;
    assert ParseField(ts, i + 1) == Ok(Field(None, "x", None, None, None), i + 2);
    assert ParseSelection(ts, i + 1) == Ok(Field(None, "x", None, None, None), i + 2);
    assert ParseSelectionItems(ts, i + 2) == Ok([], i + 2);
    assert IsPunct(At(ts, i), LBrace);
    assert [Field(None, "x", None, None, None)] + [] == [Field(None, "x", None, None, None)];
  }

  /** `... on { x }`: the type condition is the word `on` itself. */
  lemma InlineFragmentStoresOn()
    ensures ParseInlineFragment([Punct(Spread), Name("on"), Punct(LBrace), Name("x"), Punct(RBrace)], 0)
      == Ok(InlineFragment(Some("on"), None, [Field(None, "x", None, None, None)]), 5)
  {
    SingleFieldSet([Punct(Spread), Name("on"), Punct(LBrace), Name("x"), Punct(RBrace)], 2);
  }

  /** `... on Foo { x }`: the type name after `on` is not consumed, so the
      selection set is looked for at `Foo`, and its absence is fatal. */
  lemma InlineFragmentTypeNameIsFatal()
    ensures ParseInlineFragment(
      [Punct(Spread), Name("on"), Name("Foo"), Punct(LBrace), Name("x"), Punct(RBrace)], 0)
      == Fatal(Error("Expected {", Some(Name("Foo"))))
  {
  }

  /** `fragment on on T { x }`: a fragment may be named `on`. */
  lemma FragmentNamedOn()
    ensures ParseFragmentDefinition(
      [Name("fragment"), Name("on"), Name("on"), Name("T"), Punct(LBrace), Name("x"), Punct(RBrace)], 0)
      == Ok(FragmentDefinition("on", "T", None, [Field(None, "x", None, None, None)]), 7)
  {
    SingleFieldSet([Name("fragment"), Name("on"), Name("on"), Name("T"), Punct(LBrace), Name("x"), Punct(RBrace)], 4);
  }

  /** `query { x }`: an operation without a name is a fatal error at `{`. */
  lemma AnonymousOperationIsFatal()
    ensures Parse([Name("query"), Punct(LBrace), Name("x"), Punct(RBrace)])
      == Failed(Error("Expected name", Some(Punct(LBrace))))
  {
    var ts := [Name("query"), Punct(LBrace), Name("x"), Punct(RBrace)];
    assert ParseOperationDefinition(ts, 0) == Fatal(Error("Expected name", Some(Punct(LBrace))));
    assert ParseDefinition(ts, 0) == Fatal(Error("Expected name", Some(Punct(LBrace))));
  }

  /** `{ x }`: the query shorthand starts no definition. */
  lemma ShorthandIsUnterminated()
    ensures Parse([Punct(LBrace), Name("x"), Punct(RBrace)])
      == Failed(Error("Unterminated document", Some(Punct(LBrace))))
  {
  }

  /** The tokens of `($v: Int @d)`. */
  const VariableWithDirective: seq<Token> :=
    [Punct(LParen), Punct(Dollar), Name("v"), Punct(Colon), Name("Int"),
     Punct(AtSign), Name("d"), Punct(RParen)]

  /** In `($v: Int @d)` the first variable definition ends before the `@`, and
      no further definition starts there. */
  lemma VariableEndsBeforeDirective()
    ensures ParseVariableDefinition(VariableWithDirective, 1)
      == Ok(VariableDefinition("v", NamedType("Int"), None, None), 5)
    ensures ParseVariableDefinitionItems(VariableWithDirective, 5) == Ok([], 5)
  {
    assert ParseType(VariableWithDirective, 4) == Ok(NamedType("Int"), 5);
  }

  /** `($v: Int @d)`: directives after a variable's type are read only after a
      default value, so the `@` stops the variable list where `)` is expected. */
  lemma VariableDirectivesNeedDefault()
    ensures ParseOptionalVariableDefinitions(VariableWithDirective, 0)
      == Fatal(Error("Expected VariableDefinition, or )", Some(Punct(AtSign))))
  {
    VariableEndsBeforeDirective();
    assert ExpectMessage(PunctKind(RParen), "VariableDefinition") == "Expected VariableDefinition, or )";
    assert ExpectPunct(VariableWithDirective, 5, RParen, "VariableDefinition")
      == Fatal(Error("Expected VariableDefinition, or )", Some(Punct(AtSign))));
    // The facts above suffice; hiding the bodies keeps the postcondition check cheap.
    hide ParseVariableDefinition, ParseVariableDefinitionItems, ExpectPunct;
  }

  // ----------------------------------------------------------------- values

  /** `{ a: 1 a: 2 }`: the last of two equal keys wins. */
  lemma LastDuplicateKeyWins()
    ensures ParseObjectValue(
      [Punct(LBrace), Name("a"), Punct(Colon), IntLit(1), Name("a"), Punct(Colon), IntLit(2), Punct(RBrace)], 0)
      == Ok(ObjectValue(map["a" := IntValue(2)]), 8)
  {
    var ts := [Punct(LBrace), Name("a"), Punct(Colon), IntLit(1), Name("a"), Punct(Colon), IntLit(2), Punct(RBrace)];
    var first := map["a" := IntValue(1)];
    assert ParseObjectFields(ts, 7, first["a" := IntValue(2)]) == Ok(first["a" := IntValue(2)], 7);
    assert ParseValue(ts, 6) == Ok(IntValue(2), 7);
    assert ParseObjectFields(ts, 4, first) == Ok(first["a" := IntValue(2)], 7);
    assert ParseValue(ts, 3) == Ok(IntValue(1), 4);
    assert ParseObjectFields(ts, 1, map[]) == Ok(first["a" := IntValue(2)], 7);
    assert first["a" := IntValue(2)] == map["a" := IntValue(2)];
  }

  /** `Int!!`: one `!` is taken, the second is left for the caller. */
  lemma SecondBangIsLeft()
    ensures ParseType([Name("Int"), Punct(Bang), Punct(Bang)], 0) == Ok(NonNullType(NamedType("Int")), 2)
  {
  }

  // ------------------------------------------------------------ type system

  /** `extend scalar X @d`: the check on directives is inverted, so the
      extension the GraphQL grammar asks for is refused. */
  lemma ScalarExtensionWithDirectivesIsFatal()
    ensures ParseScalarTypeExtension([Name("extend"), Name("scalar"), Name("X"), Punct(AtSign), Name("d")], 0)
      == Fatal(Error("Expected Directives", None))
  {
  }

  /** `extend scalar X`: the extension the GraphQL grammar refuses is
      accepted. */
  lemma BareScalarExtensionIsAccepted()
    ensures ParseScalarTypeExtension([Name("extend"), Name("scalar"), Name("X")], 0)
      == Ok(ScalarTypeExtension("X", None), 3)
  {
  }

  /** `directive @d repeatable on FIELD` with `repeatable` a name: the word is
      taken where `on` is expected. */
  lemma NameRepeatableIsFatal()
    ensures ParseDirectiveDefinition(
      [Name("directive"), Punct(AtSign), Name("d"), Name("repeatable"), Name("on"), StringLit("FIELD")], 0)
      == Fatal(Error("Expected on", Some(Name("repeatable"))))
  {
  }

  /** The same definition with `repeatable` and the location as string
      tokens is accepted. */
  lemma StringRepeatableIsAccepted()
    ensures ParseDirectiveDefinition(
      [Name("directive"), Punct(AtSign), Name("d"), StringLit("repeatable"), Name("on"), StringLit("FIELD")], 0)
      == Ok(DirectiveDefinition(None, "d", None, true, [FIELD]), 6)
  {
    var ts := [Name("directive"), Punct(AtSign), Name("d"), StringLit("repeatable"), Name("on"), StringLit("FIELD")];
    assert ParseDirectiveLocation(ts, 5) == Ok(FIELD, 6);
    assert ParseMoreDirectiveLocations(ts, 6) == Ok([], 6);
    assert [FIELD] + [] == [FIELD];
    assert ParseDirectiveLocations(ts, 5) == Ok([FIELD], 6);
    assert ParseOptionalArgumentsDefinition(ts, 3) == Ok(None, 3);
  }

  /** `schema @d`: a schema definition without root operation types is
      fatal. */
  lemma SchemaWithoutRootsIsFatal()
    ensures ParseSchemaDefinition([Name("schema"), Punct(AtSign), Name("d")], 0)
      == Fatal(Error("Expected { RootOperationTypeDefinition_list }", None))
  {
    var ts := [Name("schema"), Punct(AtSign), Name("d")];
    assert ParseOptionalArguments(ts, 3) == Ok(None, 3);
    assert ParseDirective(ts, 1) == Ok(Directive("d", None), 3);
    assert ParseDirectiveList(ts, 3) == Ok([], 3);
    assert [Directive("d", None)] + [] == [Directive("d", None)];
    assert ParseDirectiveList(ts, 1) == Ok([Directive("d", None)], 3);
    assert ParseOptionalDirectives(ts, 1) == Ok(Some([Directive("d", None)]), 3);
    assert ParseOptionalRootOperationTypesDefinition(ts, 3) == Ok(None, 3);
  }

  /** `enum E { true }`: a reserved spelling inside an enum body is fatal. */
  lemma ReservedEnumValueIsFatal()
    ensures ParseEnumTypeDefinition(
      [Name("enum"), Name("E"), Punct(LBrace), Name("true"), Punct(RBrace)], 0)
      == Fatal(Error("EnumValue can't be one of true, false, or null", Some(Name("true"))))
  {
  }
}
