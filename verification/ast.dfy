/**
 The abstract syntax tree the parser produces: immutable, tree-shaped tagged
 unions. Every `?:` field of the source's record types is an `Option`; a list
 that the grammar requires to be non-empty is still a plain `seq`, and its
 non-emptiness is a proved property of the parser rather than a type.
 */
module Ast {
  import opened Wrappers
  import opened Tokens

  datatype OperationType = Query | Mutation | Subscription

  function OperationTypeName(o: OperationType): string {
    match o
    case Query => "query"
    case Mutation => "mutation"
    case Subscription => "subscription"
  }

  /** Looks a spelling up in the operation-type table. */
  function OperationTypeOf(s: string): (r: Option<OperationType>)
    ensures r.Some? <==> s in {"query", "mutation", "subscription"}
    ensures r.Some? ==> OperationTypeName(r.value) == s
  {
    if s == "query" then Some(Query)
    else if s == "mutation" then Some(Mutation)
    else if s == "subscription" then Some(Subscription)
    else None
  }

  /** The operation-type table and its lookup are inverse to each other. */
  lemma OperationTypeRoundTrip(o: OperationType)
    ensures OperationTypeOf(OperationTypeName(o)) == Some(o)
  {
  }

  datatype Value =
    | Variable(name: string)
    | IntValue(intValue: int)
    | FloatValue(floatValue: FloatLiteral)
    | StringValue(stringValue: string)
    | BooleanValue(boolValue: bool)
    | NullValue
    | EnumValue(enumValue: string)
    | ListValue(values: seq<Value>)
    | ObjectValue(fields: map<string, Value>)

  datatype Type =
    | NamedType(name: string)
    | ListType(element: Type)
    | NonNullType(element: Type)

  /** A non-null type wraps only a named or a list type, never another
      non-null type. */
  ghost predicate WellFormedType(t: Type) {
    match t
    case NamedType(_) => true
    case ListType(e) => WellFormedType(e)
    case NonNullType(e) => !e.NonNullType? && WellFormedType(e)
  }

  datatype Argument = Argument(name: string, value: Value)

  datatype Directive = Directive(name: string, arguments: Option<seq<Argument>>)

  datatype VariableDefinition = VariableDefinition(
    variable: string,
    varType: Type,
    defaultValue: Option<Value>,
    directives: Option<seq<Directive>>)

  datatype Selection =
    | Field(
        alias: Option<string>,
        name: string,
        arguments: Option<seq<Argument>>,
        directives: Option<seq<Directive>>,
        selectionSet: Option<SubSelections>)
    | FragmentSpread(name: string, directives: Option<seq<Directive>>)
    | InlineFragment(
        typeCondition: Option<string>,
        directives: Option<seq<Directive>>,
        body: seq<Selection>)

  /** The selection set a field may carry. It is wrapped in a one-field
      datatype only so that structural recursion can descend through the
      `Option` into it; it holds the same list of selections. */
  datatype SubSelections = SubSelections(selections: seq<Selection>)

  datatype RootOperationTypeDefinition =
    RootOperationTypeDefinition(operationType: OperationType, typeName: string)

  datatype InputValueDefinition = InputValueDefinition(
    description: Option<string>,
    name: string,
    valueType: Type,
    defaultValue: Option<Value>,
    directives: Option<seq<Directive>>)

  datatype FieldDefinition = FieldDefinition(
    description: Option<string>,
    name: string,
    argumentsDefinition: Option<seq<InputValueDefinition>>,
    fieldType: Type,
    directives: Option<seq<Directive>>)

  datatype EnumValueDefinition = EnumValueDefinition(
    description: Option<string>,
    enumValue: string,
    directives: Option<seq<Directive>>)

  datatype DirectiveLocation =
    | QUERY | MUTATION | SUBSCRIPTION | FIELD | FRAGMENT_DEFINITION
    | FRAGMENT_SPREAD | INLINE_FRAGMENT | VARIABLE_DEFINITION
    | SCHEMA | SCALAR | OBJECT | FIELD_DEFINITION | ARGUMENT_DEFINITION
    | INTERFACE | UNION | ENUM | ENUM_VALUE | INPUT_OBJECT | INPUT_FIELD_DEFINITION

  function LocationName(l: DirectiveLocation): string {
    match l
    case QUERY => "QUERY"
    case MUTATION => "MUTATION"
    case SUBSCRIPTION => "SUBSCRIPTION"
    case FIELD => "FIELD"
    case FRAGMENT_DEFINITION => "FRAGMENT_DEFINITION"
    case FRAGMENT_SPREAD => "FRAGMENT_SPREAD"
    case INLINE_FRAGMENT => "INLINE_FRAGMENT"
    case VARIABLE_DEFINITION => "VARIABLE_DEFINITION"
    case SCHEMA => "SCHEMA"
    case SCALAR => "SCALAR"
    case OBJECT => "OBJECT"
    case FIELD_DEFINITION => "FIELD_DEFINITION"
    case ARGUMENT_DEFINITION => "ARGUMENT_DEFINITION"
    case INTERFACE => "INTERFACE"
    case UNION => "UNION"
    case ENUM => "ENUM"
    case ENUM_VALUE => "ENUM_VALUE"
    case INPUT_OBJECT => "INPUT_OBJECT"
    case INPUT_FIELD_DEFINITION => "INPUT_FIELD_DEFINITION"
  }

  /** The nineteen directive-location spellings the parser accepts. */
  const LocationNames: set<string> := {
    "QUERY", "MUTATION", "SUBSCRIPTION", "FIELD", "FRAGMENT_DEFINITION",
    "FRAGMENT_SPREAD", "INLINE_FRAGMENT", "VARIABLE_DEFINITION",
    "SCHEMA", "SCALAR", "OBJECT", "FIELD_DEFINITION", "ARGUMENT_DEFINITION",
    "INTERFACE", "UNION", "ENUM", "ENUM_VALUE", "INPUT_OBJECT", "INPUT_FIELD_DEFINITION"
  }

  /** Looks a spelling up in the directive-location table. */
  function LocationOf(s: string): (r: Option<DirectiveLocation>)
    ensures r.Some? <==> s in LocationNames
    ensures r.Some? ==> LocationName(r.value) == s
  {
    if s == "QUERY" then Some(QUERY)
    else if s == "MUTATION" then Some(MUTATION)
    else if s == "SUBSCRIPTION" then Some(SUBSCRIPTION)
    else if s == "FIELD" then Some(FIELD)
    else if s == "FRAGMENT_DEFINITION" then Some(FRAGMENT_DEFINITION)
    else if s == "FRAGMENT_SPREAD" then Some(FRAGMENT_SPREAD)
    else if s == "INLINE_FRAGMENT" then Some(INLINE_FRAGMENT)
    else if s == "VARIABLE_DEFINITION" then Some(VARIABLE_DEFINITION)
    else if s == "SCHEMA" then Some(SCHEMA)
    else if s == "SCALAR" then Some(SCALAR)
    else if s == "OBJECT" then Some(OBJECT)
    else if s == "FIELD_DEFINITION" then Some(FIELD_DEFINITION)
    else if s == "ARGUMENT_DEFINITION" then Some(ARGUMENT_DEFINITION)
    else if s == "INTERFACE" then Some(INTERFACE)
    else if s == "UNION" then Some(UNION)
    else if s == "ENUM" then Some(ENUM)
    else if s == "ENUM_VALUE" then Some(ENUM_VALUE)
    else if s == "INPUT_OBJECT" then Some(INPUT_OBJECT)
    else if s == "INPUT_FIELD_DEFINITION" then Some(INPUT_FIELD_DEFINITION)
    else None
  }

  /** The location table and its lookup are inverse to each other. */
  lemma LocationRoundTrip(l: DirectiveLocation)
    ensures LocationOf(LocationName(l)) == Some(l)
  {
  }

  /** A document is an ordered sequence of definitions. The source's nested
      tag fields (executable / type-system, definition / extension, and the kind
      of type) are flattened into one constructor per leaf record type; the
      predicates below recover the intermediate unions. */
  datatype Definition =
    | OperationDefinition(
        operationType: Option<OperationType>,
        operationName: Option<string>,
        variableDefinitions: Option<seq<VariableDefinition>>,
        directives: Option<seq<Directive>>,
        selectionSet: seq<Selection>)
    | FragmentDefinition(
        name: string,
        typeCondition: string,
        directives: Option<seq<Directive>>,
        selectionSet: seq<Selection>)
    | SchemaDefinition(
        description: Option<string>,
        directives: Option<seq<Directive>>,
        rootOperationTypes: seq<RootOperationTypeDefinition>)
    | ScalarTypeDefinition(
        description: Option<string>,
        name: string,
        directives: Option<seq<Directive>>)
    | ObjectTypeDefinition(
        description: Option<string>,
        name: string,
        implementsInterfaces: Option<seq<string>>,
        directives: Option<seq<Directive>>,
        fieldsDefinition: Option<seq<FieldDefinition>>)
    | InterfaceTypeDefinition(
        description: Option<string>,
        name: string,
        implementsInterfaces: Option<seq<string>>,
        directives: Option<seq<Directive>>,
        fieldsDefinition: Option<seq<FieldDefinition>>)
    | UnionTypeDefinition(
        description: Option<string>,
        name: string,
        directives: Option<seq<Directive>>,
        unionMemberTypes: Option<seq<string>>)
    | EnumTypeDefinition(
        description: Option<string>,
        name: string,
        directives: Option<seq<Directive>>,
        enumValuesDefinition: Option<seq<EnumValueDefinition>>)
    | InputObjectTypeDefinition(
        description: Option<string>,
        name: string,
        directives: Option<seq<Directive>>,
        inputFieldsDefinition: Option<seq<InputValueDefinition>>)
    | DirectiveDefinition(
        description: Option<string>,
        name: string,
        argumentsDefinition: Option<seq<InputValueDefinition>>,
        repeatable: bool,
        directiveLocations: seq<DirectiveLocation>)
    | SchemaExtension(
        directives: Option<seq<Directive>>,
        rootOperationTypeDefinitions: Option<seq<RootOperationTypeDefinition>>)
    | ScalarTypeExtension(
        name: string,
        directives: Option<seq<Directive>>)
    | ObjectTypeExtension(
        name: string,
        implementsInterfaces: Option<seq<string>>,
        directives: Option<seq<Directive>>,
        fieldsDefinition: Option<seq<FieldDefinition>>)
    | InterfaceTypeExtension(
        name: string,
        implementsInterfaces: Option<seq<string>>,
        directives: Option<seq<Directive>>,
        fieldsDefinition: Option<seq<FieldDefinition>>)
    | UnionTypeExtension(
        name: string,
        directives: Option<seq<Directive>>,
        unionMemberTypes: Option<seq<string>>)
    | EnumTypeExtension(
        name: string,
        directives: Option<seq<Directive>>,
        enumValuesDefinition: Option<seq<EnumValueDefinition>>)
    | InputObjectTypeExtension(
        name: string,
        directives: Option<seq<Directive>>,
        inputFieldsDefinition: Option<seq<InputValueDefinition>>)
  {
    predicate IsExecutable() {
      OperationDefinition? || FragmentDefinition?
    }

    predicate IsTypeDefinition() {
      ScalarTypeDefinition? || ObjectTypeDefinition? || InterfaceTypeDefinition?
      || UnionTypeDefinition? || EnumTypeDefinition? || InputObjectTypeDefinition?
    }

    predicate IsTypeSystemDefinition() {
      SchemaDefinition? || IsTypeDefinition() || DirectiveDefinition?
    }

    predicate IsTypeExtension() {
      ScalarTypeExtension? || ObjectTypeExtension? || InterfaceTypeExtension?
      || UnionTypeExtension? || EnumTypeExtension? || InputObjectTypeExtension?
    }

    predicate IsTypeSystemExtension() {
      SchemaExtension? || IsTypeExtension()
    }
  }
}
