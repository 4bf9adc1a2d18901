# GraphQL parser model

This project models the recursive-descent GraphQL parser of `typed-gql`
(`src/index.ts`) in Dafny. The parser takes a finished token sequence from the
lexer. It returns either a `Document`, which is a list of executable and
type-system definitions, or an `Error { message, tokenNear }`. The grammar is
the one in the GraphQL specification (October 2021 edition, sections 2 and 3,
summarised in Appendix B). The model follows the code wherever the two differ.

How the source maps onto Dafny:

- **Tokens and AST** (`tokens.dfy`, `ast.dfy`). The source's tagged unions
  become datatypes. The nested tag fields of a definition (`type`, `subType`,
  `definitionType`, `typeType`) become one flat `Definition` datatype with
  predicates such as `IsExecutable` and `IsTypeExtension`.
- **Results** (`results.dfy`). Every rule `(tokens, index)` returns
  `Ok(value, next)`, `NoMatch(error)` or `Fatal(error)`:
  - `NoMatch` is the returned error object. An alternation point falls
    through to its next sibling only on this result.
  - `Fatal` is the error thrown as a `ParseError` by `unwrap` or `expect`.
    Only the entry point catches it.
  - `Unwrap`, `Expect`, `ExpectName` and `ExpectPunct` are those two helpers.
- **Rules** (`value_grammar.dfy`, `executable_grammar.dfy`,
  `type_system_grammar.dfy`, `document.dfy`). There is one mutually recursive
  pure function per `parse*` rule. Each `while` loop of the source becomes a
  recursive item function. Each rule's contract gives:
  - when it fails recoverably (the token it commits on);
  - that a success consumes tokens and stays within the input;
  - what the parsed value is in terms of the tokens.
- **Partner: the printer** (`printer.dfy`, `spans.dfy`). A ghost printer maps
  an AST back to tokens. The round-trip lemmas state that each rule reads a
  printed AST back exactly, and stops right after it:
  - `ParseX(ts, i) == Ok(x, i + |PrintX(x)|)` wherever `PrintX(x)` occurs in
    `ts` at `i`.
  - This holds for every AST in the image of the rules. The image predicates
    (`SelectionOk`, `TypeSystemDefinitionOk`, ...) spell out which ASTs the
    code can produce.
  - It also needs the next token not to continue the printed phrase. The
    follow conditions `DirectivesDanger`, `SelectionDanger`, `TrailDanger`
    and `Boundary` name the tokens that would.
  - At the top, `DocumentRoundTrips.ParseRoundTrip` states
    `Parse(PrintDocument(defs)) == Parsed(defs)` for every document in the
    image.
- **Divergences** (`quirks.dfy`). Where the code departs from the GraphQL
  grammar, the model keeps the code's behaviour. One lemma pins the exact
  result on a concrete input for each of these:
  - operations need a type and a name, so there is no `{ ... }` shorthand and
    no anonymous `query { ... }`;
  - an inline fragment's type condition is the literal `"on"`, and the type
    name after it is not consumed;
  - a variable definition's directives are read only after a default value;
  - `repeatable` and the directive locations must be string tokens;
  - the scalar-extension check is inverted;
  - a fragment may be named `on`;
  - a schema definition needs its root-operation-types block;
  - in an object value, the last of two equal keys wins.

## Model

| member | source | states |
|---|---|---|
| Results.Unwrap | src/index.ts:397-406 | a recoverable failure becomes fatal with the same token; the message is replaced by "Expected <alternatives>" only when alternatives are given; success and fatal failure pass unchanged |
| Results.Expect | src/index.ts:421-433 | succeeds exactly when the token at the index has the expected kind, consuming one token; otherwise fatal with "Expected <kind>" or "Expected <alternatives>, or <kind>" at that token (none at end of input) |
| Results.ExpectName | src/index.ts:421-433 | a name token is taken and its spelling returned; anything else is the fatal "Expected name" |
| Results.ExpectPunct | src/index.ts:421-433 | the punctuator is taken exactly when it is next; otherwise fatal, never recoverable |
| Ast.OperationTypeOf | src/index.ts:387 | only the spellings query, mutation and subscription name an operation type, and the found type spells the input back |
| Ast.OperationTypeRoundTrip | src/index.ts:387 | the operation-type table and its lookup are inverse |
| Ast.LocationOf | src/index.ts:1645-1681 | exactly the nineteen listed spellings are directive locations, and each found location spells the input back |
| Ast.LocationRoundTrip | src/index.ts:1645-1681 | the directive-location table and its lookup are inverse |
| ValueGrammar.ParseVariable | src/index.ts:746-756 | recoverable unless `$` is next; after `$`, a missing name is fatal; a variable takes two tokens |
| ValueGrammar.ParseIntValue | src/index.ts:734-744 | matches exactly an int token and never fails fatally |
| ValueGrammar.ParseFloatValue | src/index.ts:722-732 | matches exactly a float token, whose payload is copied through unchanged |
| ValueGrammar.ParseStringValue | src/index.ts:710-720 | matches exactly a string token and never fails fatally |
| ValueGrammar.ParseBooleanValue | src/index.ts:695-708 | matches exactly the names true and false, and the value is true only for the name true |
| ValueGrammar.ParseNullValue | src/index.ts:683-693 | matches exactly the name null |
| ValueGrammar.ParseEnumValue | src/index.ts:665-681 | matches every name except true, false and null; those three give the recoverable "EnumValue can't be one of true, false, or null" |
| ValueGrammar.ParseValue | src/index.ts:602-621 | recoverable "Unrecognized Value" exactly when no value can start at the token; one-token literals read as the order-independent LiteralValue (a name is boolean, null or else enum); `$`, `[` and `{` go to the variable, list and object rules; a success consumes at least one token |
| ValueGrammar.ParseListValue | src/index.ts:647-663 | recoverable only without `[`; a list value ends at its `]` and may be empty |
| ValueGrammar.ParseListItems | src/index.ts:656-661 | the items loop stops only at `]`; running out of values first is fatal |
| ValueGrammar.ParseObjectValue | src/index.ts:623-645 | recoverable only without `{`; an object value ends at its `}` and may be empty |
| ValueGrammar.ParseObjectFields | src/index.ts:633-642 | the fields loop stops at the first non-name, and every key already collected stays in the map |
| ValueGrammar.ParseType | src/index.ts:566-600 | recoverable exactly when neither a name nor `[` is next; the result is a named or list type, non-null exactly when the last consumed token is `!`, and never a non-null of a non-null |
| ValueProperties.ParsedValueHasNoReservedEnum | src/index.ts:602-681 | no parsed value, however deeply nested, contains an enum value spelled true, false or null |
| ValueProperties.ParsedItemsHaveNoReservedEnum | src/index.ts:647-663 | the same for the items of a parsed list value |
| ValueProperties.ParsedFieldsHaveNoReservedEnum | src/index.ts:623-645 | the same for the fields of a parsed object value |
| ValueRoundTrips.ValueRoundTrip | src/index.ts:602-663 | every printed value without a reserved enum spelling is read back exactly, whatever follows it |
| ValueRoundTrips.VariableRoundTrip | src/index.ts:746-756 | `$ name` is read back as that variable |
| ValueRoundTrips.LiteralRoundTrip | src/index.ts:683-744 | a printed one-token literal is read back as the same value |
| ValueRoundTrips.ListValueRoundTrip | src/index.ts:647-663 | a printed list value, empty or not, is read back with its items in order |
| ValueRoundTrips.ListItemsRoundTrip | src/index.ts:656-661 | the items loop reads back the printed items up to `]` |
| ValueRoundTrips.ObjectValueRoundTrip | src/index.ts:623-645 | a printed object value (each key once) is read back as the same map |
| ValueRoundTrips.FieldsRoundTrip | src/index.ts:633-642 | the fields loop folds the printed fields into the accumulated map in print order |
| ValueRoundTrips.FoldFieldsWhole | src/index.ts:640 | folding all printed fields of an object into an empty map rebuilds exactly its map |
| ValueRoundTrips.TypeRoundTrip | src/index.ts:566-600 | every printed well-formed type is read back, provided a type that is not non-null is not followed by `!` |
| ValueRoundTrips.ListTypeRoundTrip | src/index.ts:568-581 | `[ T ]` is read as a list type, made non-null exactly when a `!` follows |
| ExecutableGrammar.ParseOptionalDirectives | src/index.ts:758-775 | absent with the index unchanged exactly when `@` is not next; present directives are non-empty and stop before a token other than `@`; never recoverable |
| ExecutableGrammar.ParseDirectiveList | src/index.ts:767-773 | the loop takes one directive per `@` and consumes nothing exactly when it returns none |
| ExecutableGrammar.ParseDirective | src/index.ts:767-772 | at `@`, succeeds exactly when a name follows and its arguments do not fail; the name is the token after `@` |
| ExecutableGrammar.ParseOptionalArguments | src/index.ts:777-794 | absent with the index unchanged exactly when `(` is not next; present arguments are non-empty and end at `)` |
| ExecutableGrammar.ParseArgumentItems | src/index.ts:788-792 | the argument loop stops only at `)`; anything else that is not an argument is fatal |
| ExecutableGrammar.ParseArgument | src/index.ts:796-810 | recoverable exactly when no name is next; `name : value` takes the name from the first token |
| ExecutableGrammar.ParseOptionalVariableDefinitions | src/index.ts:519-541 | absent with the index unchanged exactly when `(` is not next; present definitions are non-empty and end at `)` |
| ExecutableGrammar.ParseVariableDefinitionItems | src/index.ts:535-539 | the loop runs as long as a `$` starts another definition |
| ExecutableGrammar.ParseVariableDefinition | src/index.ts:543-564 | recoverable exactly when `$` is not next; the variable is the name after `$`, its type is well formed, and directives occur only together with a default value |
| ExecutableGrammar.ParseVariableDefinitionTail | src/index.ts:552-563 | without `=` nothing more is consumed; with it, a default value and then optional directives are read, keeping the name and type |
| ExecutableGrammar.ParseSelectionSet | src/index.ts:812-829 | the recoverable "Expected {" exactly when `{` is not next; a selection set is non-empty and ends at its `}` |
| ExecutableGrammar.ParseSelectionItems | src/index.ts:823-827 | the selection loop stops only at `}` |
| ExecutableGrammar.ParseSelection | src/index.ts:831-847 | recoverable exactly when neither a name nor `...` is next; a name always goes to the field rule; a success consumes at least one token |
| ExecutableGrammar.ParseInlineFragment | src/index.ts:849-877 | committed after `...` unless a name other than `on` follows; the type condition is `Some("on")` exactly when a name follows `...` |
| ExecutableGrammar.ParseFragmentSpread | src/index.ts:879-897 | recoverable unless `...` is followed by a name other than `on`; the spread's name is that token |
| ExecutableGrammar.ParseField | src/index.ts:899-932 | recoverable exactly when no name is next; `a : b` gives alias a and name b, a bare `b` gives name b and no alias |
| ExecutableGrammar.ParseOperationDefinition | src/index.ts:485-517 | recoverable "Expected OperationType" exactly when no operation keyword is next; a parsed operation always has its type and the name from the next token |
| ExecutableGrammar.ParseFragmentDefinition | src/index.ts:934-964 | recoverable "Expected fragment" exactly without the `fragment` keyword; the name, `on` and the type condition are the next three tokens |
| ExecutableGrammar.ParseExecutableDefinition | src/index.ts:467-483 | recoverable "Unrecognized ExecutableDefinition" exactly when neither an operation keyword nor `fragment` is next |
| ExecutableRoundTrips.ArgumentsRoundTrip | src/index.ts:777-810 | printed arguments are read back in order; absent ones read back as absent when `(` does not follow |
| ExecutableRoundTrips.ArgumentItemsRoundTrip | src/index.ts:788-792 | the argument loop reads back the printed arguments up to `)` |
| ExecutableRoundTrips.DirectivesRoundTrip | src/index.ts:758-775 | printed directives are read back in order, provided the next token neither starts a directive nor opens arguments |
| ExecutableRoundTrips.DirectiveListRoundTrip | src/index.ts:767-773 | the directive loop reads back the printed directives and stops right after them |
| ExecutableRoundTrips.VariableDefinitionRoundTrip | src/index.ts:543-564 | a printed variable definition in the image is read back, provided what follows cannot continue it |
| ExecutableRoundTrips.DefaultValueRoundTrip | src/index.ts:555-563 | `= value directives` after a type is read back as that default value and those directives |
| ExecutableRoundTrips.VariableDefinitionsRoundTrip | src/index.ts:519-541 | printed variable definitions are read back in order; absent ones read back as absent when `(` does not follow |
| ExecutableRoundTrips.VariableDefinitionItemsRoundTrip | src/index.ts:535-539 | the variable-definition loop reads back the printed definitions up to `)` |
| SelectionRoundTrips.SelectionSetRoundTrip | src/index.ts:812-829 | every printed selection set in the image is read back exactly, whatever follows its `}` |
| SelectionRoundTrips.SelectionItemsRoundTrip | src/index.ts:823-827 | the selection loop reads back the printed selections up to `}` |
| SelectionRoundTrips.SelectionRoundTrip | src/index.ts:831-847 | each printed selection kind is read back by the dispatch, provided the next token cannot extend it |
| SelectionRoundTrips.FieldRoundTrip | src/index.ts:899-932 | a printed field, with or without alias, arguments, directives and sub-selection, is read back |
| SelectionRoundTrips.FragmentSpreadRoundTrip | src/index.ts:879-897 | a printed spread of a fragment not named `on` is read back |
| SelectionRoundTrips.InlineFragmentRoundTrip | src/index.ts:849-877 | a printed inline fragment whose type condition is absent or `"on"` is read back |
| DefinitionRoundTrips.OperationRoundTrip | src/index.ts:485-517 | a printed named operation in the image is read back and ends at its `}` |
| DefinitionRoundTrips.FragmentRoundTrip | src/index.ts:934-964 | a printed fragment definition is read back, whatever its name |
| DefinitionRoundTrips.ExecutableDefinitionRoundTrip | src/index.ts:467-483 | a printed executable definition starts with an operation keyword or `fragment` and is read back by the dispatch |
| TypeSystemGrammar.ParseOptionalDescription | src/index.ts:1090-1095 | a leading string token is the description and is consumed; otherwise there is none and nothing is consumed |
| TypeSystemGrammar.ParseSeparatedNames | src/index.ts:1244-1255 | after an optional leading separator, a non-empty list of names that stops before a token other than the separator; a missing name is fatal |
| TypeSystemGrammar.ParseMoreNames | src/index.ts:1250-1254 | the separator loop consumes nothing exactly when it finds no further names |
| TypeSystemGrammar.ParseOptionalUnionMemberTypes | src/index.ts:1236-1256 | absent with the index unchanged exactly when `=` is not next; present members are non-empty |
| TypeSystemGrammar.ParseOptionalImplementsInterfaces | src/index.ts:1370-1391 | absent with the index unchanged exactly when `implements` is not next; present interfaces are non-empty |
| TypeSystemGrammar.ParseOptionalDefaultValue | src/index.ts:1100-1105 | absent with the index unchanged exactly when `=` is not next; a present value follows the `=` |
| TypeSystemGrammar.ParseInputValueDefinition | src/index.ts:1085-1109 | never recoverable; a definition consumes tokens, has a well-formed type, and has a description exactly when it starts with a string |
| TypeSystemGrammar.ParseOptionalArgumentsDefinition | src/index.ts:1347-1368 | absent with the index unchanged exactly when `(` is not next; present definitions are non-empty and end at `)` |
| TypeSystemGrammar.ParseOptionalInputFieldsDefinition | src/index.ts:1062-1083 | absent with the index unchanged exactly when `{` is not next; present definitions are non-empty and end at `}` |
| TypeSystemGrammar.ParseInputValuesBlock | src/index.ts:1062-1083 | once opened, a block of input-value definitions is non-empty and ends at its closer |
| TypeSystemGrammar.ParseInputValueItems | src/index.ts:1075-1081 | the input-value loop stops only at the closer |
| TypeSystemGrammar.ParseFieldDefinition | src/index.ts:1322-1345 | never recoverable; a field definition has a well-formed type and a description exactly when it starts with a string |
| TypeSystemGrammar.ParseOptionalFieldsDefinition | src/index.ts:1303-1320 | absent with the index unchanged exactly when `{` is not next; present fields are non-empty and end at `}` |
| TypeSystemGrammar.ParseFieldsBlock | src/index.ts:1303-1320 | once opened, a fields block is non-empty and ends at `}` |
| TypeSystemGrammar.ParseFieldDefinitionItems | src/index.ts:1314-1318 | the field loop stops only at `}` |
| TypeSystemGrammar.ParseEnumValueDefinition | src/index.ts:1175-1196 | recoverable exactly when the name after the optional description is true, false or null; a parsed enum value is never one of those |
| TypeSystemGrammar.ParseOptionalEnumValuesDefinition | src/index.ts:1152-1173 | absent with the index unchanged exactly when `{` is not next; present values are non-empty, end at `}` and avoid the reserved spellings, a reserved one being fatal |
| TypeSystemGrammar.ParseEnumValueItems | src/index.ts:1165-1171 | the enum-value loop stops only at `}` and yields no reserved spelling |
| TypeSystemGrammar.ParseRootOperationTypeDefinition | src/index.ts:1533-1546 | never recoverable; `OperationType : Name` takes exactly three tokens |
| TypeSystemGrammar.ParseOptionalRootOperationTypesDefinition | src/index.ts:1510-1531 | absent with the index unchanged exactly when `{` is not next; present roots are non-empty and end at `}` |
| TypeSystemGrammar.ParseRootOperationTypeItems | src/index.ts:1523-1529 | the root loop stops only at `}` |
| TypeSystemGrammar.ParseScalarTypeDefinition | src/index.ts:1918-1952 | recoverable exactly without the (optionally described) `scalar` keyword; the description is present exactly when a string leads |
| TypeSystemGrammar.ParseObjectTypeDefinition | src/index.ts:1873-1916 | recoverable exactly without the (optionally described) `type` keyword; the description is present exactly when a string leads |
| TypeSystemGrammar.ParseInterfaceTypeDefinition | src/index.ts:1828-1871 | recoverable exactly without the (optionally described) `interface` keyword; the description is present exactly when a string leads |
| TypeSystemGrammar.ParseUnionTypeDefinition | src/index.ts:1788-1826 | recoverable exactly without the (optionally described) `union` keyword; the description is present exactly when a string leads |
| TypeSystemGrammar.ParseEnumTypeDefinition | src/index.ts:1746-1786 | recoverable exactly without the (optionally described) `enum` keyword; the description is present exactly when a string leads |
| TypeSystemGrammar.ParseInputObjectTypeDefinition | src/index.ts:1704-1744 | recoverable exactly without the (optionally described) `input` keyword; the description is present exactly when a string leads |
| TypeSystemGrammar.ParseTypeDefinition | src/index.ts:1683-1702 | recoverable "Unrecognized TypeDefinition" exactly when no type keyword follows the optional description |
| TypeSystemGrammar.ParseDirectiveLocation | src/index.ts:1645-1681 | matches exactly a string token spelling one of the nineteen locations, and never fails fatally |
| TypeSystemGrammar.ParseDirectiveLocations | src/index.ts:1626-1643 | after an optional pipe, a non-empty list of locations that stops before a token other than a pipe |
| TypeSystemGrammar.ParseMoreDirectiveLocations | src/index.ts:1637-1641 | the pipe loop consumes nothing exactly when it finds no further locations |
| TypeSystemGrammar.ParseDirectiveDefinition | src/index.ts:1566-1624 | recoverable exactly without the (optionally described) `directive` keyword; a definition has at least one location |
| TypeSystemGrammar.ParseSchemaDefinition | src/index.ts:1954-1995 | recoverable exactly without the (optionally described) `schema` keyword; a schema definition always has root operation types |
| TypeSystemGrammar.ParseTypeSystemDefinition | src/index.ts:1548-1564 | recoverable "Unrecognized TypeSystemDefinition" exactly when no definition keyword follows the optional description |
| TypeSystemGrammar.ParseSchemaExtension | src/index.ts:1473-1508 | recoverable exactly without `extend schema`; an extension has directives or roots, and with neither `@` nor `{` next it is the fatal "Expected at least one of ..." at that token |
| TypeSystemGrammar.ParseScalarTypeExtension | src/index.ts:1438-1471 | recoverable exactly without `extend scalar`; succeeds only without directives, and a directive after the name is fatal |
| TypeSystemGrammar.ParseObjectTypeExtension | src/index.ts:1393-1436 | recoverable exactly without `extend type`; an extension has interfaces, directives or fields, and with none of them it is the fatal "Expected at least one of ..." at the next token |
| TypeSystemGrammar.ParseInterfaceTypeExtension | src/index.ts:1258-1301 | recoverable exactly without `extend interface`; an extension has interfaces, directives or fields, and with none of them it is the fatal "Expected at least one of ..." |
| TypeSystemGrammar.ParseUnionTypeExtension | src/index.ts:1198-1234 | recoverable exactly without `extend union`; an extension has directives or members, and with neither it is the fatal "Expected at least one of ..." |
| TypeSystemGrammar.ParseEnumTypeExtension | src/index.ts:1111-1150 | recoverable exactly without `extend enum`; an extension has directives or values, and with neither it is the fatal "Expected at least one of ..." |
| TypeSystemGrammar.ParseInputObjectTypeExtension | src/index.ts:1021-1060 | recoverable exactly without `extend input`; an extension has directives or input fields, and with neither it is the fatal "Expected at least one of ..." |
| TypeSystemGrammar.ParseTypeExtension | src/index.ts:1000-1019 | recoverable "Unrecognized TypeExtension" exactly when `extend` is not followed by a type keyword |
| TypeSystemGrammar.ParseTypeSystemExtension | src/index.ts:983-998 | recoverable "Unrecognized TypeSystemExtension" exactly when `extend` is not followed by `schema` or a type keyword |
| TypeSystemGrammar.ParseTypeSystemDefinitionOrExtension | src/index.ts:966-981 | recoverable "Unrecognized TypeSystemDefinitionOrExtension" exactly when neither a definition nor an extension starts; a result is always a type-system definition or extension |
| TypeListRoundTrips.DescriptionRoundTrip | src/index.ts:1090-1095 | a printed description is read back; an absent one reads back as absent when no string follows |
| TypeListRoundTrips.SeparatedNamesRoundTrip | src/index.ts:1244-1255 | a printed separated name list is read back in order, provided no separator follows it |
| TypeListRoundTrips.LeadingSeparatorNames | src/index.ts:1244-1246 | one separator before the first name is skipped: with a leading pipe or ampersand the same names are read as without it, ending after the last name |
| TypeListRoundTrips.ImplementsInterfacesRoundTrip | src/index.ts:1370-1391 | printed interfaces are read back in order; absent ones read back as absent when `implements` does not follow |
| TypeListRoundTrips.UnionMemberTypesRoundTrip | src/index.ts:1236-1256 | printed union members are read back in order; absent ones read back as absent when `=` does not follow |
| TypeListRoundTrips.DirectiveLocationRoundTrip | src/index.ts:1645-1681 | the string spelling of each location is read back as that location |
| TypeListRoundTrips.DirectiveLocationsRoundTrip | src/index.ts:1626-1643 | printed locations are read back in order, provided no pipe follows |
| TypeListRoundTrips.LeadingPipeLocations | src/index.ts:1632-1635 | one pipe before the first location is skipped: the same locations are read as without it, ending after the last location |
| TypeListRoundTrips.RootOperationTypeRoundTrip | src/index.ts:1533-1546 | a printed root operation type is read back |
| TypeListRoundTrips.RootOperationTypesRoundTrip | src/index.ts:1510-1531 | printed root operation types are read back in order; absent ones read back as absent when `{` does not follow |
| TypeListRoundTrips.OptionalDefaultValueRoundTrip | src/index.ts:1100-1105 | a printed default value is read back; an absent one reads back as absent when `=` does not follow |
| TypeListRoundTrips.InputValueRoundTrip | src/index.ts:1085-1109 | a printed input-value definition in the image is read back, provided what follows cannot continue it |
| TypeListRoundTrips.ArgumentsDefinitionRoundTrip | src/index.ts:1347-1368 | printed argument definitions are read back in order; absent ones read back as absent when `(` does not follow |
| TypeListRoundTrips.InputFieldsDefinitionRoundTrip | src/index.ts:1062-1083 | printed input fields are read back in order; absent ones read back as absent when `{` does not follow |
| TypeListRoundTrips.FieldDefinitionRoundTrip | src/index.ts:1322-1345 | a printed field definition in the image is read back, provided what follows cannot continue it |
| TypeListRoundTrips.FieldDefinitionsRoundTrip | src/index.ts:1303-1320 | printed field definitions are read back in order; absent ones read back as absent when `{` does not follow |
| TypeListRoundTrips.EnumValueRoundTrip | src/index.ts:1175-1196 | a printed enum-value definition with a non-reserved spelling is read back |
| TypeListRoundTrips.EnumValuesRoundTrip | src/index.ts:1152-1173 | printed enum-value definitions are read back in order; absent ones read back as absent when `{` does not follow |
| TypeDefinitionRoundTrips.ScalarTypeDefinitionRoundTrip | src/index.ts:1918-1952 | a printed scalar definition is read back, provided the next token starts another definition or ends the input |
| TypeDefinitionRoundTrips.ObjectTypeDefinitionRoundTrip | src/index.ts:1873-1916 | a printed object type definition in the image is read back under the same condition |
| TypeDefinitionRoundTrips.InterfaceTypeDefinitionRoundTrip | src/index.ts:1828-1871 | a printed interface definition in the image is read back under the same condition |
| TypeDefinitionRoundTrips.UnionTypeDefinitionRoundTrip | src/index.ts:1788-1826 | a printed union definition in the image is read back under the same condition |
| TypeDefinitionRoundTrips.EnumTypeDefinitionRoundTrip | src/index.ts:1746-1786 | a printed enum definition in the image is read back under the same condition |
| TypeDefinitionRoundTrips.InputObjectTypeDefinitionRoundTrip | src/index.ts:1704-1744 | a printed input object definition in the image is read back under the same condition |
| TypeDefinitionRoundTrips.SchemaDefinitionRoundTrip | src/index.ts:1954-1995 | a printed schema definition with root operation types is read back under the same condition |
| TypeDefinitionRoundTrips.DirectiveDefinitionRoundTrip | src/index.ts:1566-1624 | a printed directive definition, repeatable or not, is read back under the same condition |
| TypeDefinitionRoundTrips.SchemaExtensionRoundTrip | src/index.ts:1473-1508 | a printed schema extension with at least one clause is read back under the same condition |
| TypeDefinitionRoundTrips.ScalarTypeExtensionRoundTrip | src/index.ts:1438-1471 | a printed scalar extension without directives is read back under the same condition |
| TypeDefinitionRoundTrips.ObjectTypeExtensionRoundTrip | src/index.ts:1393-1436 | a printed object type extension with at least one clause is read back under the same condition |
| TypeDefinitionRoundTrips.InterfaceTypeExtensionRoundTrip | src/index.ts:1258-1301 | a printed interface extension with at least one clause is read back under the same condition |
| TypeDefinitionRoundTrips.UnionTypeExtensionRoundTrip | src/index.ts:1198-1234 | a printed union extension with at least one clause is read back under the same condition |
| TypeDefinitionRoundTrips.EnumTypeExtensionRoundTrip | src/index.ts:1111-1150 | a printed enum extension with at least one clause is read back under the same condition |
| TypeDefinitionRoundTrips.InputObjectTypeExtensionRoundTrip | src/index.ts:1021-1060 | a printed input object extension with at least one clause is read back under the same condition |
| TypeDefinitionRoundTrips.TypeDefinitionRoundTrip | src/index.ts:1683-1702 | every printed type definition is read back by the type-definition dispatch, whichever alternative it is |
| TypeDefinitionRoundTrips.TypeSystemDefinitionRoundTrip | src/index.ts:1548-1564 | every printed type-system definition is read back by its dispatch |
| TypeDefinitionRoundTrips.TypeExtensionRoundTrip | src/index.ts:1000-1019 | every printed type extension is read back by the type-extension dispatch |
| TypeDefinitionRoundTrips.TypeSystemExtensionRoundTrip | src/index.ts:983-998 | every printed type-system extension is read back by its dispatch |
| TypeDefinitionRoundTrips.TypeSystemRoundTrip | src/index.ts:966-981 | every printed type-system definition or extension is read back, and it starts neither with an operation keyword nor with `fragment` |
| Document.ParseDefinition | src/index.ts:450-465 | recoverable "Unrecognized Definition" exactly when no definition can start at the index; an operation keyword or `fragment` always goes to the executable rule |
| Document.ParseDefinitions | src/index.ts:435-448 | the document loop stops only where no definition starts, and consumes nothing exactly when it returns no definitions |
| Document.Parse | src/index.ts:360-376 | the empty input is the empty document; a document is returned exactly when the definition loop consumed every token, and only then; a fatal failure is returned as it is; any other failure is "Unterminated document" at the first token no definition starts with |
| DocumentRoundTrips.DefinitionRoundTrip | src/index.ts:450-465 | every printed definition in the image is read back by the definition dispatch |
| DocumentRoundTrips.DefinitionsRoundTrip | src/index.ts:435-448 | the document loop reads back printed definitions, placed one after another with no separator, up to the end of input |
| DocumentRoundTrips.ParseRoundTrip | src/index.ts:360-376 | parsing a printed document in the image returns exactly its definitions |
| Quirks.InlineFragmentStoresOn | src/index.ts:858-867 | `... on { x }` has the type condition "on" |
| Quirks.InlineFragmentTypeNameIsFatal | src/index.ts:858-867 | in `... on Foo { x }` the type name is not consumed, and "Expected {" is raised at `Foo` |
| Quirks.FragmentNamedOn | src/index.ts:943-948 | `fragment on on T { x }` is a fragment named `on` |
| Quirks.AnonymousOperationIsFatal | src/index.ts:491-495 | `query { x }` fails with "Expected name" at `{` |
| Quirks.ShorthandIsUnterminated | src/index.ts:360-376 | the shorthand `{ x }` starts no definition and ends in "Unterminated document" |
| Quirks.VariableDirectivesNeedDefault | src/index.ts:555-563 | `($v: Int @d)` fails fatally with "Expected VariableDefinition, or )" at the `@`, because directives come only after a default value |
| Quirks.LastDuplicateKeyWins | src/index.ts:640 | `{ a: 1 a: 2 }` is the object mapping a to 2 |
| Quirks.SecondBangIsLeft | src/index.ts:582-596 | `Int!!` takes one `!` and leaves the second |
| Quirks.ScalarExtensionWithDirectivesIsFatal | src/index.ts:1454-1459 | `extend scalar X @d` fails with "Expected Directives" |
| Quirks.BareScalarExtensionIsAccepted | src/index.ts:1454-1459 | `extend scalar X` is accepted |
| Quirks.NameRepeatableIsFatal | src/index.ts:1594-1601 | a name token `repeatable` fails with "Expected on" at that token |
| Quirks.StringRepeatableIsAccepted | src/index.ts:1594-1601 | a string token `repeatable` and a string location are accepted |
| Quirks.SchemaWithoutRootsIsFatal | src/index.ts:1978-1983 | `schema @d` without roots fails with "Expected { RootOperationTypeDefinition_list }" |
| Quirks.ReservedEnumValueIsFatal | src/index.ts:1160-1170 | `enum E { true }` fails fatally with the reserved-spelling message at `true` |

## Left out

- The lexer (`@typed-gql/lexer`) is not part of this model. Tokens are an input datatype holding a name, an int, a float, a string or a punctuator.
- `test/index.ts` and `test/stringify.ts` are left out. They are file-system fixtures and a JSON serializer, not parsing logic.
- Float literal payloads are an opaque `FloatLiteral` value that is only copied. The source holds a JavaScript number and does no arithmetic on it.
- Int literal payloads are an unbounded `int`, while the source holds a JavaScript number. The parser only copies the value, so there is no rounding or overflow to model.
- The JavaScript exception machinery is replaced by the `Fatal` result. A `ParseError` thrown from any depth is the same value propagated to `Parse`.
- The prototype behaviour of `Partial<Record>` is replaced by `map<string, Value>`, so a key like `__proto__` is an ordinary key.
- The closing `expect` is folded into the item loop only where that loop stops at nothing but its closer, so the `expect` cannot fail there. These are the loops for list values (`]`), arguments (`)`), selection sets (`}`), input value definitions (`)` or `}`), field definitions (`}`), enum values (`}`) and root operation types (`}`).
- The closers of an object value (`}`, src/index.ts:643) and of the variable definitions (`)`, src/index.ts:539) are kept as separate checks, as in the source. Those loops stop at any token that cannot start an item, so the check can fail: `{ a: 1 2 }` fails with "Expected }".
- The branch of `parseType` that re-checks the name after taking it (src/index.ts:584-586) cannot be reached. It is left out.
- Source positions are not modelled. `tokenNear` is the token itself, or none at the end of the input.
- The round-trip lemmas assume what follows a printed phrase cannot continue it. These are the `DirectivesDanger`, `SelectionDanger`, `TrailDanger` and `Boundary` conditions. Without them the parser would read the next token as part of the phrase, as the code does.
- The round-trip lemmas cover ASTs the rules can produce, so they do not cover:
  - anonymous operations;
  - variable directives without a default value;
  - scalar extensions with directives;
  - enum values spelled `true`, `false` or `null`.
