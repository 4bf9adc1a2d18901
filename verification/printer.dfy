/**
 A printer from syntax trees back to tokens: the reference inverse of the
 parser. Together with the round-trip lemmas it pins down what each rule
 returns on every phrase it can have produced.

 Object values are maps, so their fields are printed in an unspecified but
 fixed key order.
 */
module Printer {
  import opened Wrappers
  import opened Tokens
  import opened Ast

  // ----------------------------------------------------------------- values

  ghost function PrintValue(v: Value): (r: seq<Token>)
    ensures |r| > 0
    decreases v, 1
  {
    match v
    case Variable(n) => [Punct(Dollar), Name(n)]
    case IntValue(n) => [IntLit(n)]
    case FloatValue(f) => [FloatLit(f)]
    case StringValue(s) => [StringLit(s)]
    case BooleanValue(b) => [Name(if b then "true" else "false")]
    case NullValue => [Name("null")]
    case EnumValue(e) => [Name(e)]
    case ListValue(_) => [Punct(LBracket)] + (PrintValues(v, 0) + [Punct(RBracket)])
    case ObjectValue(m) => [Punct(LBrace)] + (PrintFields(v, m.Keys) + [Punct(RBrace)])
  }

  /** The items of list value `parent` from index `k` on. */
  ghost function PrintValues(parent: Value, k: nat): seq<Token>
    requires parent.ListValue? && k <= |parent.values|
    decreases parent, 0, |parent.values| - k
  {
    if k == |parent.values| then []
    else PrintValue(parent.values[k]) + PrintValues(parent, k + 1)
  }

  /** Some key of a non-empty key set; the printing order of object fields. */
  ghost function PickKey(keys: set<string>): (k: string)
    requires keys != {}
    ensures k in keys
  {
    var k :| k in keys; k
  }

  /** The fields of object value `parent` whose keys are in `keys`. */
  ghost function PrintFields(parent: Value, keys: set<string>): seq<Token>
    requires parent.ObjectValue? && keys <= parent.fields.Keys
    decreases parent, 0, |keys|
  {
    if keys == {} then []
    else
      var key := PickKey(keys);
      [Name(key), Punct(Colon)] + (PrintValue(parent.fields[key]) + PrintFields(parent, keys - {key}))
  }

  // ------------------------------------------------------------------ types

  ghost function PrintType(t: Type): (r: seq<Token>)
    ensures |r| > 0
  {
    match t
    case NamedType(n) => [Name(n)]
    case ListType(e) => [Punct(LBracket)] + (PrintType(e) + [Punct(RBracket)])
    case NonNullType(e) => PrintType(e) + [Punct(Bang)]
  }

  /** A type that is not non-null must not be followed by `!`. */
  function TypeDanger(t: Type): set<Token> {
    if t.NonNullType? then {} else {Punct(Bang)}
  }

  // ------------------------------------------------- arguments and directives

  ghost function PrintArgument(a: Argument): seq<Token> {
    [Name(a.name), Punct(Colon)] + PrintValue(a.value)
  }

  /** The arguments `list[k..]`, without parentheses. */
  ghost function PrintArgumentsFrom(list: seq<Argument>, k: nat): seq<Token>
    requires k <= |list|
    decreases |list| - k
  {
    if k == |list| then [] else PrintArgument(list[k]) + PrintArgumentsFrom(list, k + 1)
  }

  ghost function PrintArguments(args: Option<seq<Argument>>): seq<Token> {
    match args
    case None => []
    case Some(list) => [Punct(LParen)] + (PrintArgumentsFrom(list, 0) + [Punct(RParen)])
  }

  ghost function PrintDirective(d: Directive): seq<Token> {
    [Punct(AtSign), Name(d.name)] + PrintArguments(d.arguments)
  }

  /** The directives `ds[k..]`. */
  ghost function PrintDirectivesFrom(ds: seq<Directive>, k: nat): seq<Token>
    requires k <= |ds|
    decreases |ds| - k
  {
    if k == |ds| then [] else PrintDirective(ds[k]) + PrintDirectivesFrom(ds, k + 1)
  }

  ghost function PrintDirectives(ds: Option<seq<Directive>>): seq<Token> {
    match ds
    case None => []
    case Some(list) => PrintDirectivesFrom(list, 0)
  }

  // --------------------------------------------------- variable definitions

  ghost function PrintDefaultValue(dv: Option<Value>): seq<Token> {
    match dv
    case None => []
    case Some(v) => [Punct(Equals)] + PrintValue(v)
  }

  ghost function PrintVariableDefinition(vd: VariableDefinition): seq<Token> {
    [Punct(Dollar), Name(vd.variable), Punct(Colon)]
      + (PrintType(vd.varType) + (PrintDefaultValue(vd.defaultValue) + PrintDirectives(vd.directives)))
  }

  /** The variable definitions `vds[k..]`, without parentheses. */
  ghost function PrintVariableDefinitionsFrom(vds: seq<VariableDefinition>, k: nat): seq<Token>
    requires k <= |vds|
    decreases |vds| - k
  {
    if k == |vds| then []
    else PrintVariableDefinition(vds[k]) + PrintVariableDefinitionsFrom(vds, k + 1)
  }

  ghost function PrintVariableDefinitions(vds: Option<seq<VariableDefinition>>): seq<Token> {
    match vds
    case None => []
    case Some(list) => [Punct(LParen)] + (PrintVariableDefinitionsFrom(list, 0) + [Punct(RParen)])
  }

  // ------------------------------------------------------------ selections

  ghost function PrintAlias(alias: Option<string>): seq<Token> {
    match alias
    case None => []
    case Some(a) => [Name(a), Punct(Colon)]
  }

  /** The type condition of an inline fragment: the parser records only the
      word after `...`, so that word is all the printer emits. */
  ghost function PrintTypeCondition(typeCondition: Option<string>): seq<Token> {
    match typeCondition
    case None => []
    case Some(word) => [Name(word)]
  }

  ghost function PrintSelection(s: Selection): seq<Token>
    decreases s, 0
  {
    match s
    case Field(alias, name, args, ds, sub) =>
      PrintAlias(alias) + ([Name(name)] + (PrintArguments(args) + (PrintDirectives(ds) + PrintSubselection(sub))))
    case FragmentSpread(name, ds) => [Punct(Spread), Name(name)] + PrintDirectives(ds)
    case InlineFragment(typeCondition, ds, body) =>
      [Punct(Spread)] + (PrintTypeCondition(typeCondition) + (PrintDirectives(ds) + PrintSelectionSet(body)))
  }

  /** The selection set of a field, if it has one. */
  ghost function PrintSubselection(sub: Option<SubSelections>): seq<Token>
    decreases sub, 0
  {
    match sub
    case None => []
    case Some(SubSelections(ss)) => PrintSelectionSet(ss)
  }

  /** The selections `ss[k..]`, without braces. */
  ghost function PrintSelectionsFrom(ss: seq<Selection>, k: nat): seq<Token>
    requires k <= |ss|
    decreases ss, |ss| - k
  {
    if k == |ss| then [] else PrintSelection(ss[k]) + PrintSelectionsFrom(ss, k + 1)
  }

  ghost function PrintSelectionSet(ss: seq<Selection>): (r: seq<Token>)
    ensures |r| >= 2 && r[0] == Punct(LBrace)
    decreases ss, |ss| + 1
  {
    [Punct(LBrace)] + (PrintSelectionsFrom(ss, 0) + [Punct(RBrace)])
  }

  // -------------------------------------------------- executable definitions

  ghost function PrintOperationType(o: Option<OperationType>): seq<Token> {
    match o
    case None => []
    case Some(t) => [Name(OperationTypeName(t))]
  }

  ghost function PrintOperationName(name: Option<string>): seq<Token> {
    match name
    case None => []
    case Some(n) => [Name(n)]
  }

  ghost function PrintExecutableDefinition(d: Definition): seq<Token>
    requires d.IsExecutable()
  {
    match d
    case OperationDefinition(o, name, vds, ds, ss) =>
      PrintOperationType(o) + (PrintOperationName(name) + (PrintVariableDefinitions(vds)
        + (PrintDirectives(ds) + PrintSelectionSet(ss))))
    case FragmentDefinition(name, typeCondition, ds, ss) =>
      [Name("fragment"), Name(name), Name("on"), Name(typeCondition)]
        + (PrintDirectives(ds) + PrintSelectionSet(ss))
  }

  // ------------------------------------------------------------ type system

  ghost function PrintDescription(description: Option<string>): seq<Token> {
    match description
    case None => []
    case Some(s) => [StringLit(s)]
  }

  /** The names `names[k..]`, each preceded by `sep`. */
  ghost function PrintMoreNames(names: seq<string>, k: nat, sep: Punctuator): seq<Token>
    requires k <= |names|
    decreases |names| - k
  {
    if k == |names| then [] else [Punct(sep), Name(names[k])] + PrintMoreNames(names, k + 1, sep)
  }

  /** Names separated by `sep`, without a leading separator. */
  ghost function PrintSeparatedNames(names: seq<string>, sep: Punctuator): seq<Token> {
    if |names| == 0 then [] else [Name(names[0])] + PrintMoreNames(names, 1, sep)
  }

  ghost function PrintImplementsInterfaces(interfaces: Option<seq<string>>): seq<Token> {
    match interfaces
    case None => []
    case Some(names) => [Name("implements")] + PrintSeparatedNames(names, Amp)
  }

  ghost function PrintUnionMemberTypes(members: Option<seq<string>>): seq<Token> {
    match members
    case None => []
    case Some(names) => [Punct(Equals)] + PrintSeparatedNames(names, Pipe)
  }

  ghost function PrintInputValueDefinition(iv: InputValueDefinition): seq<Token> {
    PrintDescription(iv.description)
      + ([Name(iv.name), Punct(Colon)]
        + (PrintType(iv.valueType) + (PrintDefaultValue(iv.defaultValue) + PrintDirectives(iv.directives))))
  }

  /** The input-value definitions `list[k..]`, without brackets. */
  ghost function PrintInputValuesFrom(list: seq<InputValueDefinition>, k: nat): seq<Token>
    requires k <= |list|
    decreases |list| - k
  {
    if k == |list| then [] else PrintInputValueDefinition(list[k]) + PrintInputValuesFrom(list, k + 1)
  }

  /** Input-value definitions between `opener` and `closer`: `(` and `)` for
      arguments definitions, `{` and `}` for input fields. */
  ghost function PrintInputValues(ivs: Option<seq<InputValueDefinition>>, opener: Punctuator, closer: Punctuator): seq<Token> {
    match ivs
    case None => []
    case Some(list) => [Punct(opener)] + (PrintInputValuesFrom(list, 0) + [Punct(closer)])
  }

  ghost function PrintFieldDefinition(f: FieldDefinition): seq<Token> {
    PrintDescription(f.description)
      + ([Name(f.name)]
        + (PrintInputValues(f.argumentsDefinition, LParen, RParen)
          + ([Punct(Colon)] + (PrintType(f.fieldType) + PrintDirectives(f.directives)))))
  }

  /** The field definitions `list[k..]`, without braces. */
  ghost function PrintFieldDefinitionsFrom(list: seq<FieldDefinition>, k: nat): seq<Token>
    requires k <= |list|
    decreases |list| - k
  {
    if k == |list| then [] else PrintFieldDefinition(list[k]) + PrintFieldDefinitionsFrom(list, k + 1)
  }

  ghost function PrintFieldsDefinition(fields: Option<seq<FieldDefinition>>): seq<Token> {
    match fields
    case None => []
    case Some(list) => [Punct(LBrace)] + (PrintFieldDefinitionsFrom(list, 0) + [Punct(RBrace)])
  }

  ghost function PrintEnumValueDefinition(e: EnumValueDefinition): seq<Token> {
    PrintDescription(e.description) + ([Name(e.enumValue)] + PrintDirectives(e.directives))
  }

  /** The enum-value definitions `list[k..]`, without braces. */
  ghost function PrintEnumValuesFrom(list: seq<EnumValueDefinition>, k: nat): seq<Token>
    requires k <= |list|
    decreases |list| - k
  {
    if k == |list| then [] else PrintEnumValueDefinition(list[k]) + PrintEnumValuesFrom(list, k + 1)
  }

  ghost function PrintEnumValuesDefinition(values: Option<seq<EnumValueDefinition>>): seq<Token> {
    match values
    case None => []
    case Some(list) => [Punct(LBrace)] + (PrintEnumValuesFrom(list, 0) + [Punct(RBrace)])
  }

  ghost function PrintRootOperationTypeDefinition(r: RootOperationTypeDefinition): seq<Token> {
    [Name(OperationTypeName(r.operationType)), Punct(Colon), Name(r.typeName)]
  }

  /** The root operation types `list[k..]`, without braces. */
  ghost function PrintRootOperationTypesFrom(list: seq<RootOperationTypeDefinition>, k: nat): seq<Token>
    requires k <= |list|
    decreases |list| - k
  {
    if k == |list| then []
    else PrintRootOperationTypeDefinition(list[k]) + PrintRootOperationTypesFrom(list, k + 1)
  }

  ghost function PrintRootOperationTypes(roots: Option<seq<RootOperationTypeDefinition>>): seq<Token> {
    match roots
    case None => []
    case Some(list) => [Punct(LBrace)] + (PrintRootOperationTypesFrom(list, 0) + [Punct(RBrace)])
  }

  /** The locations `locations[k..]`, each preceded by `|`. */
  ghost function PrintMoreLocations(locations: seq<DirectiveLocation>, k: nat): seq<Token>
    requires k <= |locations|
    decreases |locations| - k
  {
    if k == |locations| then []
    else [Punct(Pipe), StringLit(LocationName(locations[k]))] + PrintMoreLocations(locations, k + 1)
  }

  /** Locations separated by `|`, each a string token as the rule demands. */
  ghost function PrintDirectiveLocations(locations: seq<DirectiveLocation>): seq<Token> {
    if |locations| == 0 then []
    else [StringLit(LocationName(locations[0]))] + PrintMoreLocations(locations, 1)
  }

  /** The `repeatable` marker, a string token as the rule demands. */
  ghost function PrintRepeatable(repeatable: bool): seq<Token> {
    if repeatable then [StringLit("repeatable")] else []
  }

  // ------------------------------------------------------------ definitions

  /** A type-system definition: its description, keyword and name, then its
      clauses in the order the rule reads them. */
  ghost function PrintTypeSystemDefinition(d: Definition): seq<Token>
    requires d.IsTypeSystemDefinition()
  {
    match d
    case SchemaDefinition(description, ds, roots) =>
      PrintDescription(description)
        + ([Name("schema")] + (PrintDirectives(ds) + PrintRootOperationTypes(Some(roots))))
    case ScalarTypeDefinition(description, name, ds) =>
      PrintDescription(description) + ([Name("scalar"), Name(name)] + PrintDirectives(ds))
    case ObjectTypeDefinition(description, name, interfaces, ds, fields) =>
      PrintDescription(description)
        + ([Name("type"), Name(name)]
          + (PrintImplementsInterfaces(interfaces) + (PrintDirectives(ds) + PrintFieldsDefinition(fields))))
    case InterfaceTypeDefinition(description, name, interfaces, ds, fields) =>
      PrintDescription(description)
        + ([Name("interface"), Name(name)]
          + (PrintImplementsInterfaces(interfaces) + (PrintDirectives(ds) + PrintFieldsDefinition(fields))))
    case UnionTypeDefinition(description, name, ds, members) =>
      PrintDescription(description)
        + ([Name("union"), Name(name)] + (PrintDirectives(ds) + PrintUnionMemberTypes(members)))
    case EnumTypeDefinition(description, name, ds, values) =>
      PrintDescription(description)
        + ([Name("enum"), Name(name)] + (PrintDirectives(ds) + PrintEnumValuesDefinition(values)))
    case InputObjectTypeDefinition(description, name, ds, fields) =>
      PrintDescription(description)
        + ([Name("input"), Name(name)] + (PrintDirectives(ds) + PrintInputValues(fields, LBrace, RBrace)))
    case DirectiveDefinition(description, name, args, repeatable, locations) =>
      PrintDescription(description)
        + ([Name("directive"), Punct(AtSign), Name(name)]
          + (PrintInputValues(args, LParen, RParen)
            + (PrintRepeatable(repeatable) + ([Name("on")] + PrintDirectiveLocations(locations)))))
  }

  /** A type-system extension: `extend`, its keyword and name, then its
      clauses in the order the rule reads them. */
  ghost function PrintTypeSystemExtension(d: Definition): seq<Token>
    requires d.IsTypeSystemExtension()
  {
    match d
    case SchemaExtension(ds, roots) =>
      [Name("extend"), Name("schema")] + (PrintDirectives(ds) + PrintRootOperationTypes(roots))
    case ScalarTypeExtension(name, ds) =>
      [Name("extend"), Name("scalar"), Name(name)] + PrintDirectives(ds)
    case ObjectTypeExtension(name, interfaces, ds, fields) =>
      [Name("extend"), Name("type"), Name(name)]
        + (PrintImplementsInterfaces(interfaces) + (PrintDirectives(ds) + PrintFieldsDefinition(fields)))
    case InterfaceTypeExtension(name, interfaces, ds, fields) =>
      [Name("extend"), Name("interface"), Name(name)]
        + (PrintImplementsInterfaces(interfaces) + (PrintDirectives(ds) + PrintFieldsDefinition(fields)))
    case UnionTypeExtension(name, ds, members) =>
      [Name("extend"), Name("union"), Name(name)] + (PrintDirectives(ds) + PrintUnionMemberTypes(members))
    case EnumTypeExtension(name, ds, values) =>
      [Name("extend"), Name("enum"), Name(name)] + (PrintDirectives(ds) + PrintEnumValuesDefinition(values))
    case InputObjectTypeExtension(name, ds, fields) =>
      [Name("extend"), Name("input"), Name(name)] + (PrintDirectives(ds) + PrintInputValues(fields, LBrace, RBrace))
  }

  ghost function PrintDefinition(d: Definition): seq<Token> {
    if d.IsExecutable() then PrintExecutableDefinition(d)
    else if d.IsTypeSystemDefinition() then PrintTypeSystemDefinition(d)
    else PrintTypeSystemExtension(d)
  }

  /** The definitions `defs[k..]`, one after another. */
  ghost function PrintDefinitionsFrom(defs: seq<Definition>, k: nat): seq<Token>
    requires k <= |defs|
    decreases |defs| - k
  {
    if k == |defs| then [] else PrintDefinition(defs[k]) + PrintDefinitionsFrom(defs, k + 1)
  }

  ghost function PrintDocument(defs: seq<Definition>): seq<Token> {
    PrintDefinitionsFrom(defs, 0)
  }
}
