/**
 Round trips for the type-system definitions and extensions: every printed
 definition in the image of the rules parses back to the same definition and
 stops right after its last token, provided the next token is one a document
 can continue with (see `Boundary`).

 The image follows the rules as written: a schema definition always has its
 root-operation block; a directive definition has at least one location; a
 scalar extension has no directives (the rule rejects them); every other
 extension has at least one of its clauses; and every list that is present
 is non-empty.
 */
module TypeDefinitionRoundTrips {
  import opened Wrappers
  import opened Tokens
  import opened Ast
  import opened Results
  import opened ExecutableGrammar
  import opened TypeSystemGrammar
  import opened Spans
  import opened Printer
  import opened ExecutableRoundTrips
  import opened TypeListRoundTrips

  // ------------------------------------------------------------ the image

  /** A name list that is present is non-empty. */
  ghost predicate NamesOk(names: Option<seq<string>>) {
    names.Some? ==> |names.value| > 0
  }

  ghost predicate RootsOk(roots: Option<seq<RootOperationTypeDefinition>>) {
    roots.Some? ==> |roots.value| > 0
  }

  ghost predicate TypeSystemDefinitionOk(d: Definition) {
    match d
    case SchemaDefinition(_, ds, roots) => DirectivesOk(ds) && |roots| > 0
    case ScalarTypeDefinition(_, _, ds) => DirectivesOk(ds)
    case ObjectTypeDefinition(_, _, interfaces, ds, fields) =>
      NamesOk(interfaces) && DirectivesOk(ds) && FieldsDefinitionOk(fields)
    case InterfaceTypeDefinition(_, _, interfaces, ds, fields) =>
      NamesOk(interfaces) && DirectivesOk(ds) && FieldsDefinitionOk(fields)
    case UnionTypeDefinition(_, _, ds, members) => DirectivesOk(ds) && NamesOk(members)
    case EnumTypeDefinition(_, _, ds, values) => DirectivesOk(ds) && EnumValuesOk(values)
    case InputObjectTypeDefinition(_, _, ds, fields) => DirectivesOk(ds) && InputValuesOk(fields)
    case DirectiveDefinition(_, _, args, _, locations) => InputValuesOk(args) && |locations| > 0
    case _ => false
  }

  ghost predicate TypeSystemExtensionOk(d: Definition) {
    match d
    case SchemaExtension(ds, roots) => DirectivesOk(ds) && RootsOk(roots) && (ds.Some? || roots.Some?)
    case ScalarTypeExtension(_, ds) => ds.None?
    case ObjectTypeExtension(_, interfaces, ds, fields) =>
      NamesOk(interfaces) && DirectivesOk(ds) && FieldsDefinitionOk(fields)
      && (interfaces.Some? || ds.Some? || fields.Some?)
    case InterfaceTypeExtension(_, interfaces, ds, fields) =>
      NamesOk(interfaces) && DirectivesOk(ds) && FieldsDefinitionOk(fields)
      && (interfaces.Some? || ds.Some? || fields.Some?)
    case UnionTypeExtension(_, ds, members) => DirectivesOk(ds) && NamesOk(members) && (ds.Some? || members.Some?)
    case EnumTypeExtension(_, ds, values) => DirectivesOk(ds) && EnumValuesOk(values) && (ds.Some? || values.Some?)
    case InputObjectTypeExtension(_, ds, fields) =>
      DirectivesOk(ds) && InputValuesOk(fields) && (ds.Some? || fields.Some?)
    case _ => false
  }

  /** What may follow a whole definition: the end of the input, a
      description, or a name other than `implements` (the keyword of the next
      definition). No punctuator can follow, since every trailing clause of
      a definition opens with one or continues with one. */
  predicate Boundary(t: Option<Token>) {
    t.None? || t.value.StringLit? || (t.value.Name? && t.value.text != "implements")
  }

  lemma BoundaryClear(t: Option<Token>)
    requires Boundary(t)
    ensures Clear(t, DirectivesDanger)
  {
  }

  // ------------------------------------------------------------ first tokens

  lemma ImplementsFirst(interfaces: Option<seq<string>>, next: Option<Token>)
    ensures FirstOr(PrintImplementsInterfaces(interfaces), next)
      == if interfaces.Some? then Some(Name("implements")) else next
  {
  }

  lemma FieldsFirst(fields: Option<seq<FieldDefinition>>, next: Option<Token>)
    ensures FirstOr(PrintFieldsDefinition(fields), next) == if fields.Some? then Some(Punct(LBrace)) else next
  {
  }

  lemma EnumValuesFirst(values: Option<seq<EnumValueDefinition>>, next: Option<Token>)
    ensures FirstOr(PrintEnumValuesDefinition(values), next) == if values.Some? then Some(Punct(LBrace)) else next
  {
  }

  lemma InputFieldsFirst(fields: Option<seq<InputValueDefinition>>, next: Option<Token>)
    ensures FirstOr(PrintInputValues(fields, LBrace, RBrace), next)
      == if fields.Some? then Some(Punct(LBrace)) else next
  {
  }

  lemma RootsFirst(roots: Option<seq<RootOperationTypeDefinition>>, next: Option<Token>)
    ensures FirstOr(PrintRootOperationTypes(roots), next) == if roots.Some? then Some(Punct(LBrace)) else next
  {
  }

  lemma MembersFirst(members: Option<seq<string>>, next: Option<Token>)
    ensures FirstOr(PrintUnionMemberTypes(members), next) == if members.Some? then Some(Punct(Equals)) else next
  {
  }

  // ------------------------------------------------------------------ heads

  /** Where the head and the body of a printed definition lie after its
      description. */
  lemma DescribedSplit(ts: seq<Token>, i: nat, description: Option<string>, head: seq<Token>, body: seq<Token>)
    returns (j: nat)
    requires |head| > 0 && head[0].Name?
    requires Occurs(ts, i, PrintDescription(description) + (head + body))
    ensures Occurs(ts, i, PrintDescription(description)) && j == i + |PrintDescription(description)|
    ensures description.None? ==> !IsString(At(ts, i))
    ensures Occurs(ts, j, head) && Occurs(ts, j + |head|, body)
    ensures j + |head| + |body| == i + |PrintDescription(description) + (head + body)|
  {
    var d := PrintDescription(description);
    OccursSplit(ts, i, d, head + body);
    j := i + |d|;
    OccursSplit(ts, j, head, body);
    OccursHead(ts, j, head);
  }

  // ----------------------------------------------------------------- bodies

  /** `ImplementsInterfaces? Directives? FieldsDefinition?`, the body of an
      object or interface type and of their extensions. */
  lemma ObjectBodyRoundTrip(
    interfaces: Option<seq<string>>, ds: Option<seq<Directive>>, fields: Option<seq<FieldDefinition>>,
    ts: seq<Token>, k: nat)
    returns (l: nat, m: nat, n: nat)
    requires NamesOk(interfaces) && DirectivesOk(ds) && FieldsDefinitionOk(fields)
    requires Occurs(ts, k, PrintImplementsInterfaces(interfaces) + (PrintDirectives(ds) + PrintFieldsDefinition(fields)))
    requires Boundary(At(ts, k + |PrintImplementsInterfaces(interfaces) + (PrintDirectives(ds) + PrintFieldsDefinition(fields))|))
    ensures ParseOptionalImplementsInterfaces(ts, k) == Ok(interfaces, l) && l <= |ts|
    ensures ParseOptionalDirectives(ts, l) == Ok(ds, m) && m <= |ts|
    ensures ParseOptionalFieldsDefinition(ts, m) == Ok(fields, n)
    ensures n == k + |PrintImplementsInterfaces(interfaces) + (PrintDirectives(ds) + PrintFieldsDefinition(fields))|
  {
    var a := PrintImplementsInterfaces(interfaces);
    var b := PrintDirectives(ds);
    var c := PrintFieldsDefinition(fields);
    hide PrintImplementsInterfaces, PrintDirectives, PrintFieldsDefinition;
    hide ParseOptionalImplementsInterfaces, ParseOptionalDirectives, ParseOptionalFieldsDefinition;
    OccursSplit(ts, k, a, b + c);
    l := k + |a|;
    OccursSplit(ts, l, b, c);
    m := l + |b|;
    n := m + |c|;
    OccursFirst(ts, m, c);
    FieldsFirst(fields, At(ts, n));
    OccursFirst(ts, l, b);
    DirectivesFirst(ds, At(ts, m));
    OccursFirst(ts, k, a);
    ImplementsFirst(interfaces, At(ts, l));
    ImplementsInterfacesRoundTrip(interfaces, ts, k);
    DirectivesRoundTrip(ds, ts, l);
    FieldDefinitionsRoundTrip(fields, ts, m);
  }

  /** `Directives? UnionMemberTypes?`. */
  lemma UnionBodyRoundTrip(ds: Option<seq<Directive>>, members: Option<seq<string>>, ts: seq<Token>, k: nat)
    returns (l: nat, m: nat)
    requires DirectivesOk(ds) && NamesOk(members)
    requires Occurs(ts, k, PrintDirectives(ds) + PrintUnionMemberTypes(members))
    requires Boundary(At(ts, k + |PrintDirectives(ds) + PrintUnionMemberTypes(members)|))
    ensures ParseOptionalDirectives(ts, k) == Ok(ds, l) && l <= |ts|
    ensures ParseOptionalUnionMemberTypes(ts, l) == Ok(members, m)
    ensures m == k + |PrintDirectives(ds) + PrintUnionMemberTypes(members)|
  {
    var b := PrintDirectives(ds);
    var c := PrintUnionMemberTypes(members);
    hide PrintDirectives, PrintUnionMemberTypes, ParseOptionalDirectives, ParseOptionalUnionMemberTypes;
    OccursSplit(ts, k, b, c);
    l := k + |b|;
    m := l + |c|;
    OccursFirst(ts, l, c);
    MembersFirst(members, At(ts, m));
    DirectivesRoundTrip(ds, ts, k);
    UnionMemberTypesRoundTrip(members, ts, l);
  }

  /** `Directives? EnumValuesDefinition?`. */
  lemma EnumBodyRoundTrip(ds: Option<seq<Directive>>, values: Option<seq<EnumValueDefinition>>, ts: seq<Token>, k: nat)
    returns (l: nat, m: nat)
    requires DirectivesOk(ds) && EnumValuesOk(values)
    requires Occurs(ts, k, PrintDirectives(ds) + PrintEnumValuesDefinition(values))
    requires Boundary(At(ts, k + |PrintDirectives(ds) + PrintEnumValuesDefinition(values)|))
    ensures ParseOptionalDirectives(ts, k) == Ok(ds, l) && l <= |ts|
    ensures ParseOptionalEnumValuesDefinition(ts, l) == Ok(values, m)
    ensures m == k + |PrintDirectives(ds) + PrintEnumValuesDefinition(values)|
  {
    var b := PrintDirectives(ds);
    var c := PrintEnumValuesDefinition(values);
    hide PrintDirectives, PrintEnumValuesDefinition, ParseOptionalDirectives, ParseOptionalEnumValuesDefinition;
    OccursSplit(ts, k, b, c);
    l := k + |b|;
    m := l + |c|;
    OccursFirst(ts, l, c);
    EnumValuesFirst(values, At(ts, m));
    DirectivesRoundTrip(ds, ts, k);
    EnumValuesRoundTrip(values, ts, l);
  }

  /** `Directives? InputFieldsDefinition?`. */
  lemma InputBodyRoundTrip(ds: Option<seq<Directive>>, fields: Option<seq<InputValueDefinition>>, ts: seq<Token>, k: nat)
    returns (l: nat, m: nat)
    requires DirectivesOk(ds) && InputValuesOk(fields)
    requires Occurs(ts, k, PrintDirectives(ds) + PrintInputValues(fields, LBrace, RBrace))
    requires Boundary(At(ts, k + |PrintDirectives(ds) + PrintInputValues(fields, LBrace, RBrace)|))
    ensures ParseOptionalDirectives(ts, k) == Ok(ds, l) && l <= |ts|
    ensures ParseOptionalInputFieldsDefinition(ts, l) == Ok(fields, m)
    ensures m == k + |PrintDirectives(ds) + PrintInputValues(fields, LBrace, RBrace)|
  {
    var b := PrintDirectives(ds);
    var c := PrintInputValues(fields, LBrace, RBrace);
    hide PrintDirectives, PrintInputValues, ParseOptionalDirectives, ParseOptionalInputFieldsDefinition;
    OccursSplit(ts, k, b, c);
    l := k + |b|;
    m := l + |c|;
    OccursFirst(ts, l, c);
    InputFieldsFirst(fields, At(ts, m));
    DirectivesRoundTrip(ds, ts, k);
    InputFieldsDefinitionRoundTrip(fields, ts, l);
  }

  /** `Directives? { RootOperationTypeDefinition+ }?`. */
  lemma SchemaBodyRoundTrip(ds: Option<seq<Directive>>, roots: Option<seq<RootOperationTypeDefinition>>, ts: seq<Token>, k: nat)
    returns (l: nat, m: nat)
    requires DirectivesOk(ds) && RootsOk(roots)
    requires Occurs(ts, k, PrintDirectives(ds) + PrintRootOperationTypes(roots))
    requires Boundary(At(ts, k + |PrintDirectives(ds) + PrintRootOperationTypes(roots)|))
    ensures ParseOptionalDirectives(ts, k) == Ok(ds, l) && l <= |ts|
    ensures ParseOptionalRootOperationTypesDefinition(ts, l) == Ok(roots, m)
    ensures m == k + |PrintDirectives(ds) + PrintRootOperationTypes(roots)|
  {
    var b := PrintDirectives(ds);
    var c := PrintRootOperationTypes(roots);
    hide PrintDirectives, PrintRootOperationTypes, ParseOptionalDirectives, ParseOptionalRootOperationTypesDefinition;
    OccursSplit(ts, k, b, c);
    l := k + |b|;
    m := l + |c|;
    OccursFirst(ts, l, c);
    RootsFirst(roots, At(ts, m));
    DirectivesRoundTrip(ds, ts, k);
    RootOperationTypesRoundTrip(roots, ts, l);
  }

  // ------------------------------------------------------- type definitions

  lemma ScalarTypeDefinitionParts(d: Definition)
    requires d.ScalarTypeDefinition? && TypeSystemDefinitionOk(d)
    ensures PrintTypeSystemDefinition(d) == PrintDescription(d.description) + ([Name("scalar"), Name(d.name)] + (PrintDirectives(d.directives)))
    ensures DirectivesOk(d.directives)
  {
  }

  /** A scalar type definition is read back from its printed form. */
  lemma ScalarTypeDefinitionRoundTrip(d: Definition, ts: seq<Token>, i: nat)
    requires d.ScalarTypeDefinition? && TypeSystemDefinitionOk(d)
    requires Occurs(ts, i, PrintTypeSystemDefinition(d))
    requires Boundary(At(ts, i + |PrintTypeSystemDefinition(d)|))
    ensures ParseScalarTypeDefinition(ts, i) == Ok(d, i + |PrintTypeSystemDefinition(d)|)
  {
    hide *;
    ScalarTypeDefinitionParts(d);
    var head := [Name("scalar"), Name(d.name)];
    var body := PrintDirectives(d.directives);
    var j := DescribedSplit(ts, i, d.description, head, body);
    OccursPair(ts, j, head[0], head[1]);
    DescriptionRoundTrip(d.description, ts, i);
    BoundaryClear(At(ts, j + 2 + |body|));
    DirectivesRoundTrip(d.directives, ts, j + 2);
    ScalarTypeDefinitionStep(ts, i, d, j, j + 2 + |body|);
  }

  lemma ScalarTypeDefinitionStep(ts: seq<Token>, i: nat, d: Definition, j: nat, n: nat)
    requires d.ScalarTypeDefinition?
    requires ParseOptionalDescription(ts, i) == (d.description, j)
    requires j + 2 <= |ts| && ts[j] == Name("scalar") && ts[j + 1] == Name(d.name)
    requires ParseOptionalDirectives(ts, j + 2) == Ok(d.directives, n)
    ensures ParseScalarTypeDefinition(ts, i) == Ok(d, n)
  {
    hide ParseOptionalDescription, ParseOptionalDirectives;
    hide ExpectName;
  }

  lemma ObjectTypeDefinitionParts(d: Definition)
    requires d.ObjectTypeDefinition? && TypeSystemDefinitionOk(d)
    ensures PrintTypeSystemDefinition(d) == PrintDescription(d.description) + ([Name("type"), Name(d.name)] + (PrintImplementsInterfaces(d.implementsInterfaces) + (PrintDirectives(d.directives) + PrintFieldsDefinition(d.fieldsDefinition))))
    ensures NamesOk(d.implementsInterfaces) && DirectivesOk(d.directives) && FieldsDefinitionOk(d.fieldsDefinition)
  {
  }

  /** An object type definition is read back from its printed form. */
  lemma ObjectTypeDefinitionRoundTrip(d: Definition, ts: seq<Token>, i: nat)
    requires d.ObjectTypeDefinition? && TypeSystemDefinitionOk(d)
    requires Occurs(ts, i, PrintTypeSystemDefinition(d))
    requires Boundary(At(ts, i + |PrintTypeSystemDefinition(d)|))
    ensures ParseObjectTypeDefinition(ts, i) == Ok(d, i + |PrintTypeSystemDefinition(d)|)
  {
    hide *;
    ObjectTypeDefinitionParts(d);
    var head := [Name("type"), Name(d.name)];
    var body := PrintImplementsInterfaces(d.implementsInterfaces) + (PrintDirectives(d.directives) + PrintFieldsDefinition(d.fieldsDefinition));
    var j := DescribedSplit(ts, i, d.description, head, body);
    OccursPair(ts, j, head[0], head[1]);
    DescriptionRoundTrip(d.description, ts, i);
    var l, m, n := ObjectBodyRoundTrip(d.implementsInterfaces, d.directives, d.fieldsDefinition, ts, j + 2);
    ObjectTypeDefinitionStep(ts, i, d, j, l, m, n);
  }

  lemma ObjectTypeDefinitionStep(ts: seq<Token>, i: nat, d: Definition, j: nat, l: nat, m: nat, n: nat)
    requires d.ObjectTypeDefinition?
    requires ParseOptionalDescription(ts, i) == (d.description, j)
    requires j + 2 <= |ts| && ts[j] == Name("type") && ts[j + 1] == Name(d.name)
    requires ParseOptionalImplementsInterfaces(ts, j + 2) == Ok(d.implementsInterfaces, l) && l <= |ts|
    requires ParseOptionalDirectives(ts, l) == Ok(d.directives, m) && m <= |ts|
    requires ParseOptionalFieldsDefinition(ts, m) == Ok(d.fieldsDefinition, n)
    ensures ParseObjectTypeDefinition(ts, i) == Ok(d, n)
  {
    hide ParseOptionalDescription, ParseOptionalImplementsInterfaces, ParseOptionalDirectives, ParseOptionalFieldsDefinition;
    hide ExpectName;
  }

  lemma InterfaceTypeDefinitionParts(d: Definition)
    requires d.InterfaceTypeDefinition? && TypeSystemDefinitionOk(d)
    ensures PrintTypeSystemDefinition(d) == PrintDescription(d.description) + ([Name("interface"), Name(d.name)] + (PrintImplementsInterfaces(d.implementsInterfaces) + (PrintDirectives(d.directives) + PrintFieldsDefinition(d.fieldsDefinition))))
    ensures NamesOk(d.implementsInterfaces) && DirectivesOk(d.directives) && FieldsDefinitionOk(d.fieldsDefinition)
  {
  }

  /** An interface type definition is read back from its printed form. */
  lemma InterfaceTypeDefinitionRoundTrip(d: Definition, ts: seq<Token>, i: nat)
    requires d.InterfaceTypeDefinition? && TypeSystemDefinitionOk(d)
    requires Occurs(ts, i, PrintTypeSystemDefinition(d))
    requires Boundary(At(ts, i + |PrintTypeSystemDefinition(d)|))
    ensures ParseInterfaceTypeDefinition(ts, i) == Ok(d, i + |PrintTypeSystemDefinition(d)|)
  {
    hide *;
    InterfaceTypeDefinitionParts(d);
    var head := [Name("interface"), Name(d.name)];
    var body := PrintImplementsInterfaces(d.implementsInterfaces) + (PrintDirectives(d.directives) + PrintFieldsDefinition(d.fieldsDefinition));
    var j := DescribedSplit(ts, i, d.description, head, body);
    OccursPair(ts, j, head[0], head[1]);
    DescriptionRoundTrip(d.description, ts, i);
    var l, m, n := ObjectBodyRoundTrip(d.implementsInterfaces, d.directives, d.fieldsDefinition, ts, j + 2);
    InterfaceTypeDefinitionStep(ts, i, d, j, l, m, n);
  }

  lemma InterfaceTypeDefinitionStep(ts: seq<Token>, i: nat, d: Definition, j: nat, l: nat, m: nat, n: nat)
    requires d.InterfaceTypeDefinition?
    requires ParseOptionalDescription(ts, i) == (d.description, j)
    requires j + 2 <= |ts| && ts[j] == Name("interface") && ts[j + 1] == Name(d.name)
    requires ParseOptionalImplementsInterfaces(ts, j + 2) == Ok(d.implementsInterfaces, l) && l <= |ts|
    requires ParseOptionalDirectives(ts, l) == Ok(d.directives, m) && m <= |ts|
    requires ParseOptionalFieldsDefinition(ts, m) == Ok(d.fieldsDefinition, n)
    ensures ParseInterfaceTypeDefinition(ts, i) == Ok(d, n)
  {
    hide ParseOptionalDescription, ParseOptionalImplementsInterfaces, ParseOptionalDirectives, ParseOptionalFieldsDefinition;
    hide ExpectName;
  }

  lemma UnionTypeDefinitionParts(d: Definition)
    requires d.UnionTypeDefinition? && TypeSystemDefinitionOk(d)
    ensures PrintTypeSystemDefinition(d) == PrintDescription(d.description) + ([Name("union"), Name(d.name)] + (PrintDirectives(d.directives) + PrintUnionMemberTypes(d.unionMemberTypes)))
    ensures DirectivesOk(d.directives) && NamesOk(d.unionMemberTypes)
  {
  }

  /** An union type definition is read back from its printed form. */
  lemma UnionTypeDefinitionRoundTrip(d: Definition, ts: seq<Token>, i: nat)
    requires d.UnionTypeDefinition? && TypeSystemDefinitionOk(d)
    requires Occurs(ts, i, PrintTypeSystemDefinition(d))
    requires Boundary(At(ts, i + |PrintTypeSystemDefinition(d)|))
    ensures ParseUnionTypeDefinition(ts, i) == Ok(d, i + |PrintTypeSystemDefinition(d)|)
  {
    hide *;
    UnionTypeDefinitionParts(d);
    var head := [Name("union"), Name(d.name)];
    var body := PrintDirectives(d.directives) + PrintUnionMemberTypes(d.unionMemberTypes);
    var j := DescribedSplit(ts, i, d.description, head, body);
    OccursPair(ts, j, head[0], head[1]);
    DescriptionRoundTrip(d.description, ts, i);
    var l, m := UnionBodyRoundTrip(d.directives, d.unionMemberTypes, ts, j + 2);
    UnionTypeDefinitionStep(ts, i, d, j, l, m);
  }

  lemma UnionTypeDefinitionStep(ts: seq<Token>, i: nat, d: Definition, j: nat, l: nat, m: nat)
    requires d.UnionTypeDefinition?
    requires ParseOptionalDescription(ts, i) == (d.description, j)
    requires j + 2 <= |ts| && ts[j] == Name("union") && ts[j + 1] == Name(d.name)
    requires ParseOptionalDirectives(ts, j + 2) == Ok(d.directives, l) && l <= |ts|
    requires ParseOptionalUnionMemberTypes(ts, l) == Ok(d.unionMemberTypes, m)
    ensures ParseUnionTypeDefinition(ts, i) == Ok(d, m)
  {
    hide ParseOptionalDescription, ParseOptionalDirectives, ParseOptionalUnionMemberTypes;
    hide ExpectName;
  }

  lemma EnumTypeDefinitionParts(d: Definition)
    requires d.EnumTypeDefinition? && TypeSystemDefinitionOk(d)
    ensures PrintTypeSystemDefinition(d) == PrintDescription(d.description) + ([Name("enum"), Name(d.name)] + (PrintDirectives(d.directives) + PrintEnumValuesDefinition(d.enumValuesDefinition)))
    ensures DirectivesOk(d.directives) && EnumValuesOk(d.enumValuesDefinition)
  {
  }

  /** An enum type definition is read back from its printed form. */
  lemma EnumTypeDefinitionRoundTrip(d: Definition, ts: seq<Token>, i: nat)
    requires d.EnumTypeDefinition? && TypeSystemDefinitionOk(d)
    requires Occurs(ts, i, PrintTypeSystemDefinition(d))
    requires Boundary(At(ts, i + |PrintTypeSystemDefinition(d)|))
    ensures ParseEnumTypeDefinition(ts, i) == Ok(d, i + |PrintTypeSystemDefinition(d)|)
  {
    hide *;
    EnumTypeDefinitionParts(d);
    var head := [Name("enum"), Name(d.name)];
    var body := PrintDirectives(d.directives) + PrintEnumValuesDefinition(d.enumValuesDefinition);
    var j := DescribedSplit(ts, i, d.description, head, body);
    OccursPair(ts, j, head[0], head[1]);
    DescriptionRoundTrip(d.description, ts, i);
    var l, m := EnumBodyRoundTrip(d.directives, d.enumValuesDefinition, ts, j + 2);
    EnumTypeDefinitionStep(ts, i, d, j, l, m);
  }

  lemma EnumTypeDefinitionStep(ts: seq<Token>, i: nat, d: Definition, j: nat, l: nat, m: nat)
    requires d.EnumTypeDefinition?
    requires ParseOptionalDescription(ts, i) == (d.description, j)
    requires j + 2 <= |ts| && ts[j] == Name("enum") && ts[j + 1] == Name(d.name)
    requires ParseOptionalDirectives(ts, j + 2) == Ok(d.directives, l) && l <= |ts|
    requires ParseOptionalEnumValuesDefinition(ts, l) == Ok(d.enumValuesDefinition, m)
    ensures ParseEnumTypeDefinition(ts, i) == Ok(d, m)
  {
    hide ParseOptionalDescription, ParseOptionalDirectives, ParseOptionalEnumValuesDefinition;
    hide ExpectName;
  }

  lemma InputObjectTypeDefinitionParts(d: Definition)
    requires d.InputObjectTypeDefinition? && TypeSystemDefinitionOk(d)
    ensures PrintTypeSystemDefinition(d) == PrintDescription(d.description) + ([Name("input"), Name(d.name)] + (PrintDirectives(d.directives) + PrintInputValues(d.inputFieldsDefinition, LBrace, RBrace)))
    ensures DirectivesOk(d.directives) && InputValuesOk(d.inputFieldsDefinition)
  {
  }

  /** An input-object type definition is read back from its printed form. */
  lemma InputObjectTypeDefinitionRoundTrip(d: Definition, ts: seq<Token>, i: nat)
    requires d.InputObjectTypeDefinition? && TypeSystemDefinitionOk(d)
    requires Occurs(ts, i, PrintTypeSystemDefinition(d))
    requires Boundary(At(ts, i + |PrintTypeSystemDefinition(d)|))
    ensures ParseInputObjectTypeDefinition(ts, i) == Ok(d, i + |PrintTypeSystemDefinition(d)|)
  {
    hide *;
    InputObjectTypeDefinitionParts(d);
    var head := [Name("input"), Name(d.name)];
    var body := PrintDirectives(d.directives) + PrintInputValues(d.inputFieldsDefinition, LBrace, RBrace);
    var j := DescribedSplit(ts, i, d.description, head, body);
    OccursPair(ts, j, head[0], head[1]);
    DescriptionRoundTrip(d.description, ts, i);
    var l, m := InputBodyRoundTrip(d.directives, d.inputFieldsDefinition, ts, j + 2);
    InputObjectTypeDefinitionStep(ts, i, d, j, l, m);
  }

  lemma InputObjectTypeDefinitionStep(ts: seq<Token>, i: nat, d: Definition, j: nat, l: nat, m: nat)
    requires d.InputObjectTypeDefinition?
    requires ParseOptionalDescription(ts, i) == (d.description, j)
    requires j + 2 <= |ts| && ts[j] == Name("input") && ts[j + 1] == Name(d.name)
    requires ParseOptionalDirectives(ts, j + 2) == Ok(d.directives, l) && l <= |ts|
    requires ParseOptionalInputFieldsDefinition(ts, l) == Ok(d.inputFieldsDefinition, m)
    ensures ParseInputObjectTypeDefinition(ts, i) == Ok(d, m)
  {
    hide ParseOptionalDescription, ParseOptionalDirectives, ParseOptionalInputFieldsDefinition;
    hide ExpectName;
  }

  // --------------------------------------------------- schema definitions

  lemma SchemaDefinitionParts(d: Definition)
    requires d.SchemaDefinition? && TypeSystemDefinitionOk(d)
    ensures PrintTypeSystemDefinition(d) == PrintDescription(d.description)
      + ([Name("schema")] + (PrintDirectives(d.directives) + PrintRootOperationTypes(Some(d.rootOperationTypes))))
    ensures DirectivesOk(d.directives) && RootsOk(Some(d.rootOperationTypes))
  {
  }

  /** A schema definition is read back from its printed form. */
  lemma SchemaDefinitionRoundTrip(d: Definition, ts: seq<Token>, i: nat)
    requires d.SchemaDefinition? && TypeSystemDefinitionOk(d)
    requires Occurs(ts, i, PrintTypeSystemDefinition(d))
    requires Boundary(At(ts, i + |PrintTypeSystemDefinition(d)|))
    ensures ParseSchemaDefinition(ts, i) == Ok(d, i + |PrintTypeSystemDefinition(d)|)
  {
    hide *;
    SchemaDefinitionParts(d);
    var head := [Name("schema")];
    var body := PrintDirectives(d.directives) + PrintRootOperationTypes(Some(d.rootOperationTypes));
    var j := DescribedSplit(ts, i, d.description, head, body);
    OccursHead(ts, j, head);
    DescriptionRoundTrip(d.description, ts, i);
    var k, l := SchemaBodyRoundTrip(d.directives, Some(d.rootOperationTypes), ts, j + 1);
    SchemaDefinitionStep(ts, i, d, j, k, l);
  }

  lemma SchemaDefinitionStep(ts: seq<Token>, i: nat, d: Definition, j: nat, k: nat, l: nat)
    requires d.SchemaDefinition?
    requires ParseOptionalDescription(ts, i) == (d.description, j)
    requires At(ts, j) == Some(Name("schema"))
    requires ParseOptionalDirectives(ts, j + 1) == Ok(d.directives, k) && k <= |ts|
    requires ParseOptionalRootOperationTypesDefinition(ts, k) == Ok(Some(d.rootOperationTypes), l)
    ensures ParseSchemaDefinition(ts, i) == Ok(d, l)
  {
    hide ParseOptionalDescription, ParseOptionalDirectives, ParseOptionalRootOperationTypesDefinition;
    hide ExpectName;
  }

  // ------------------------------------------------ directive definitions

  lemma DirectiveDefinitionParts(d: Definition)
    requires d.DirectiveDefinition? && TypeSystemDefinitionOk(d)
    ensures PrintTypeSystemDefinition(d) == PrintDescription(d.description)
      + ([Name("directive"), Punct(AtSign), Name(d.name)]
        + (PrintInputValues(d.argumentsDefinition, LParen, RParen)
          + (PrintRepeatable(d.repeatable) + ([Name("on")] + PrintDirectiveLocations(d.directiveLocations)))))
    ensures InputValuesOk(d.argumentsDefinition) && |d.directiveLocations| > 0
  {
  }

  /** `ArgumentsDefinition? "repeatable"? on DirectiveLocations`: the string
      token `"repeatable"` is present exactly when the definition is
      repeatable, and `on` follows. */
  lemma DirectiveBodyRoundTrip(
    args: Option<seq<InputValueDefinition>>, repeatable: bool, locations: seq<DirectiveLocation>,
    ts: seq<Token>, l: nat)
    returns (m: nat, n: nat, p: nat)
    requires InputValuesOk(args) && |locations| > 0
    requires Occurs(ts, l, PrintInputValues(args, LParen, RParen)
      + (PrintRepeatable(repeatable) + ([Name("on")] + PrintDirectiveLocations(locations))))
    requires Boundary(At(ts, l + |PrintInputValues(args, LParen, RParen)
      + (PrintRepeatable(repeatable) + ([Name("on")] + PrintDirectiveLocations(locations)))|))
    ensures ParseOptionalArgumentsDefinition(ts, l) == Ok(args, m) && m <= |ts|
    ensures (At(ts, m) == Some(StringLit("repeatable"))) == repeatable
    ensures n == (if repeatable then m + 1 else m) && n < |ts| && ts[n] == Name("on")
    ensures ParseDirectiveLocations(ts, n + 1) == Ok(locations, p)
    ensures p == l + |PrintInputValues(args, LParen, RParen)
      + (PrintRepeatable(repeatable) + ([Name("on")] + PrintDirectiveLocations(locations)))|
  {
    hide *;
    var a := PrintInputValues(args, LParen, RParen);
    var r := PrintRepeatable(repeatable);
    var c := PrintDirectiveLocations(locations);
    OccursSplit(ts, l, a, r + ([Name("on")] + c));
    m := l + |a|;
    OccursSplit(ts, m, r, [Name("on")] + c);
    n := m + |r|;
    OccursSplit(ts, n, [Name("on")], c);
    OccursHead(ts, n, [Name("on")]);
    RepeatableFollows(ts, m, n, repeatable);
    ArgumentsAbsent(args, ts, l, m);
    p := n + 1 + |c|;
    BoundaryNotPunct(At(ts, p), Pipe);
    ArgumentsDefinitionRoundTrip(args, ts, l);
    DirectiveLocationsRoundTrip(locations, ts, n + 1);
  }

  /** The optional `"repeatable"` string, followed by `on`. */
  lemma RepeatableFollows(ts: seq<Token>, m: nat, n: nat, repeatable: bool)
    requires Occurs(ts, m, PrintRepeatable(repeatable)) && n == m + |PrintRepeatable(repeatable)|
    requires At(ts, n) == Some([Name("on")][0])
    ensures (At(ts, m) == Some(StringLit("repeatable"))) == repeatable
    ensures n == (if repeatable then m + 1 else m) && n < |ts| && ts[n] == Name("on")
    ensures !IsPunct(At(ts, m), LParen)
  {
    if repeatable {
      OccursHead(ts, m, PrintRepeatable(repeatable));
    }
  }

  lemma ArgumentsAbsent(args: Option<seq<InputValueDefinition>>, ts: seq<Token>, l: nat, m: nat)
    requires m == l + |PrintInputValues(args, LParen, RParen)|
    requires !IsPunct(At(ts, m), LParen)
    ensures args.None? ==> !IsPunct(At(ts, l), LParen)
  {
  }

  lemma BoundaryNotPunct(t: Option<Token>, p: Punctuator)
    requires Boundary(t)
    ensures !IsPunct(t, p)
  {
  }

  /** A directive definition is read back from its printed form; whether it
      is repeatable survives the trip. */
  lemma DirectiveDefinitionRoundTrip(d: Definition, ts: seq<Token>, i: nat)
    requires d.DirectiveDefinition? && TypeSystemDefinitionOk(d)
    requires Occurs(ts, i, PrintTypeSystemDefinition(d))
    requires Boundary(At(ts, i + |PrintTypeSystemDefinition(d)|))
    ensures ParseDirectiveDefinition(ts, i) == Ok(d, i + |PrintTypeSystemDefinition(d)|)
  {
    hide *;
    DirectiveDefinitionParts(d);
    var head := [Name("directive"), Punct(AtSign), Name(d.name)];
    var body := PrintInputValues(d.argumentsDefinition, LParen, RParen)
      + (PrintRepeatable(d.repeatable) + ([Name("on")] + PrintDirectiveLocations(d.directiveLocations)));
    var j := DescribedSplit(ts, i, d.description, head, body);
    OccursTriple(ts, j, head[0], head[1], head[2]);
    DescriptionRoundTrip(d.description, ts, i);
    var m, n, p := DirectiveBodyRoundTrip(d.argumentsDefinition, d.repeatable, d.directiveLocations, ts, j + 3);
    DirectiveDefinitionStep(ts, i, d, j, m, n, p);
  }

  lemma DirectiveDefinitionStep(ts: seq<Token>, i: nat, d: Definition, j: nat, m: nat, n: nat, p: nat)
    requires d.DirectiveDefinition?
    requires ParseOptionalDescription(ts, i) == (d.description, j)
    requires j + 3 <= |ts| && ts[j] == Name("directive") && ts[j + 1] == Punct(AtSign) && ts[j + 2] == Name(d.name)
    requires ParseOptionalArgumentsDefinition(ts, j + 3) == Ok(d.argumentsDefinition, m) && m <= |ts|
    requires (At(ts, m) == Some(StringLit("repeatable"))) == d.repeatable
    requires n == (if d.repeatable then m + 1 else m) && n < |ts| && ts[n] == Name("on")
    requires ParseDirectiveLocations(ts, n + 1) == Ok(d.directiveLocations, p)
    ensures ParseDirectiveDefinition(ts, i) == Ok(d, p)
  {
    hide ParseOptionalDescription, ParseOptionalArgumentsDefinition, ParseDirectiveLocations;
    hide ExpectName, ExpectPunct, Unwrap;
  }

  // ------------------------------------------------------------- extensions

  lemma SchemaExtensionParts(d: Definition)
    requires d.SchemaExtension? && TypeSystemExtensionOk(d)
    ensures PrintTypeSystemExtension(d) == [Name("extend"), Name("schema")]
      + (PrintDirectives(d.directives) + PrintRootOperationTypes(d.rootOperationTypeDefinitions))
    ensures DirectivesOk(d.directives) && RootsOk(d.rootOperationTypeDefinitions)
    ensures d.directives.Some? || d.rootOperationTypeDefinitions.Some?
  {
  }

  /** A schema extension is read back from its printed form. */
  lemma SchemaExtensionRoundTrip(d: Definition, ts: seq<Token>, i: nat)
    requires d.SchemaExtension? && TypeSystemExtensionOk(d)
    requires Occurs(ts, i, PrintTypeSystemExtension(d))
    requires Boundary(At(ts, i + |PrintTypeSystemExtension(d)|))
    ensures ParseSchemaExtension(ts, i) == Ok(d, i + |PrintTypeSystemExtension(d)|)
  {
    hide *;
    SchemaExtensionParts(d);
    var head := [Name("extend"), Name("schema")];
    var body := PrintDirectives(d.directives) + PrintRootOperationTypes(d.rootOperationTypeDefinitions);
    OccursSplit(ts, i, head, body);
    OccursPair(ts, i, head[0], head[1]);
    var l, m := SchemaBodyRoundTrip(d.directives, d.rootOperationTypeDefinitions, ts, i + 2);
    SchemaExtensionStep(ts, i, d, l, m);
  }

  lemma SchemaExtensionStep(ts: seq<Token>, i: nat, d: Definition, l: nat, m: nat)
    requires d.SchemaExtension? && (d.directives.Some? || d.rootOperationTypeDefinitions.Some?)
    requires i + 2 <= |ts| && ts[i] == Name("extend") && ts[i + 1] == Name("schema")
    requires ParseOptionalDirectives(ts, i + 2) == Ok(d.directives, l) && l <= |ts|
    requires ParseOptionalRootOperationTypesDefinition(ts, l) == Ok(d.rootOperationTypeDefinitions, m)
    ensures ParseSchemaExtension(ts, i) == Ok(d, m)
  {
    hide ParseOptionalDirectives, ParseOptionalRootOperationTypesDefinition;
    hide ExpectName;
  }

  lemma ScalarTypeExtensionParts(d: Definition)
    requires d.ScalarTypeExtension? && TypeSystemExtensionOk(d)
    ensures PrintTypeSystemExtension(d) == [Name("extend"), Name("scalar"), Name(d.name)] + PrintDirectives(d.directives)
    ensures d.directives.None? && DirectivesOk(d.directives)
  {
  }

  /** A scalar extension without directives is read back from its printed
      form. */
  lemma ScalarTypeExtensionRoundTrip(d: Definition, ts: seq<Token>, i: nat)
    requires d.ScalarTypeExtension? && TypeSystemExtensionOk(d)
    requires Occurs(ts, i, PrintTypeSystemExtension(d))
    requires Boundary(At(ts, i + |PrintTypeSystemExtension(d)|))
    ensures ParseScalarTypeExtension(ts, i) == Ok(d, i + |PrintTypeSystemExtension(d)|)
  {
    hide *;
    ScalarTypeExtensionParts(d);
    var head := [Name("extend"), Name("scalar"), Name(d.name)];
    var body := PrintDirectives(d.directives);
    OccursSplit(ts, i, head, body);
    OccursTriple(ts, i, head[0], head[1], head[2]);
    BoundaryClear(At(ts, i + 3 + |body|));
    DirectivesRoundTrip(d.directives, ts, i + 3);
    ScalarTypeExtensionStep(ts, i, d, i + 3 + |body|);
  }

  lemma ScalarTypeExtensionStep(ts: seq<Token>, i: nat, d: Definition, n: nat)
    requires d.ScalarTypeExtension? && d.directives.None?
    requires i + 3 <= |ts| && ts[i] == Name("extend") && ts[i + 1] == Name("scalar") && ts[i + 2] == Name(d.name)
    requires ParseOptionalDirectives(ts, i + 3) == Ok(d.directives, n)
    ensures ParseScalarTypeExtension(ts, i) == Ok(d, n)
  {
    hide ParseOptionalDirectives;
    hide ExpectName;
  }

  lemma ObjectTypeExtensionParts(d: Definition)
    requires d.ObjectTypeExtension? && TypeSystemExtensionOk(d)
    ensures PrintTypeSystemExtension(d) == [Name("extend"), Name("type"), Name(d.name)]
      + (PrintImplementsInterfaces(d.implementsInterfaces) + (PrintDirectives(d.directives) + PrintFieldsDefinition(d.fieldsDefinition)))
    ensures NamesOk(d.implementsInterfaces) && DirectivesOk(d.directives) && FieldsDefinitionOk(d.fieldsDefinition)
    ensures d.implementsInterfaces.Some? || d.directives.Some? || d.fieldsDefinition.Some?
  {
  }

  /** An object type extension is read back from its printed form. */
  lemma ObjectTypeExtensionRoundTrip(d: Definition, ts: seq<Token>, i: nat)
    requires d.ObjectTypeExtension? && TypeSystemExtensionOk(d)
    requires Occurs(ts, i, PrintTypeSystemExtension(d))
    requires Boundary(At(ts, i + |PrintTypeSystemExtension(d)|))
    ensures ParseObjectTypeExtension(ts, i) == Ok(d, i + |PrintTypeSystemExtension(d)|)
  {
    hide *;
    ObjectTypeExtensionParts(d);
    var head := [Name("extend"), Name("type"), Name(d.name)];
    var body := PrintImplementsInterfaces(d.implementsInterfaces) + (PrintDirectives(d.directives) + PrintFieldsDefinition(d.fieldsDefinition));
    OccursSplit(ts, i, head, body);
    OccursTriple(ts, i, head[0], head[1], head[2]);
    var l, m, n := ObjectBodyRoundTrip(d.implementsInterfaces, d.directives, d.fieldsDefinition, ts, i + 3);
    ObjectTypeExtensionStep(ts, i, d, l, m, n);
  }

  lemma ObjectTypeExtensionStep(ts: seq<Token>, i: nat, d: Definition, l: nat, m: nat, n: nat)
    requires d.ObjectTypeExtension? && (d.implementsInterfaces.Some? || d.directives.Some? || d.fieldsDefinition.Some?)
    requires i + 3 <= |ts| && ts[i] == Name("extend") && ts[i + 1] == Name("type") && ts[i + 2] == Name(d.name)
    requires ParseOptionalImplementsInterfaces(ts, i + 3) == Ok(d.implementsInterfaces, l) && l <= |ts|
    requires ParseOptionalDirectives(ts, l) == Ok(d.directives, m) && m <= |ts|
    requires ParseOptionalFieldsDefinition(ts, m) == Ok(d.fieldsDefinition, n)
    ensures ParseObjectTypeExtension(ts, i) == Ok(d, n)
  {
    hide ParseOptionalImplementsInterfaces, ParseOptionalDirectives, ParseOptionalFieldsDefinition;
    hide ExpectName;
  }

  lemma InterfaceTypeExtensionParts(d: Definition)
    requires d.InterfaceTypeExtension? && TypeSystemExtensionOk(d)
    ensures PrintTypeSystemExtension(d) == [Name("extend"), Name("interface"), Name(d.name)]
      + (PrintImplementsInterfaces(d.implementsInterfaces) + (PrintDirectives(d.directives) + PrintFieldsDefinition(d.fieldsDefinition)))
    ensures NamesOk(d.implementsInterfaces) && DirectivesOk(d.directives) && FieldsDefinitionOk(d.fieldsDefinition)
    ensures d.implementsInterfaces.Some? || d.directives.Some? || d.fieldsDefinition.Some?
  {
  }

  /** An interface type extension is read back from its printed form. */
  lemma InterfaceTypeExtensionRoundTrip(d: Definition, ts: seq<Token>, i: nat)
    requires d.InterfaceTypeExtension? && TypeSystemExtensionOk(d)
    requires Occurs(ts, i, PrintTypeSystemExtension(d))
    requires Boundary(At(ts, i + |PrintTypeSystemExtension(d)|))
    ensures ParseInterfaceTypeExtension(ts, i) == Ok(d, i + |PrintTypeSystemExtension(d)|)
  {
    hide *;
    InterfaceTypeExtensionParts(d);
    var head := [Name("extend"), Name("interface"), Name(d.name)];
    var body := PrintImplementsInterfaces(d.implementsInterfaces) + (PrintDirectives(d.directives) + PrintFieldsDefinition(d.fieldsDefinition));
    OccursSplit(ts, i, head, body);
    OccursTriple(ts, i, head[0], head[1], head[2]);
    var l, m, n := ObjectBodyRoundTrip(d.implementsInterfaces, d.directives, d.fieldsDefinition, ts, i + 3);
    InterfaceTypeExtensionStep(ts, i, d, l, m, n);
  }

  lemma InterfaceTypeExtensionStep(ts: seq<Token>, i: nat, d: Definition, l: nat, m: nat, n: nat)
    requires d.InterfaceTypeExtension? && (d.implementsInterfaces.Some? || d.directives.Some? || d.fieldsDefinition.Some?)
    requires i + 3 <= |ts| && ts[i] == Name("extend") && ts[i + 1] == Name("interface") && ts[i + 2] == Name(d.name)
    requires ParseOptionalImplementsInterfaces(ts, i + 3) == Ok(d.implementsInterfaces, l) && l <= |ts|
    requires ParseOptionalDirectives(ts, l) == Ok(d.directives, m) && m <= |ts|
    requires ParseOptionalFieldsDefinition(ts, m) == Ok(d.fieldsDefinition, n)
    ensures ParseInterfaceTypeExtension(ts, i) == Ok(d, n)
  {
    hide ParseOptionalImplementsInterfaces, ParseOptionalDirectives, ParseOptionalFieldsDefinition;
    hide ExpectName;
  }

  lemma UnionTypeExtensionParts(d: Definition)
    requires d.UnionTypeExtension? && TypeSystemExtensionOk(d)
    ensures PrintTypeSystemExtension(d) == [Name("extend"), Name("union"), Name(d.name)]
      + (PrintDirectives(d.directives) + PrintUnionMemberTypes(d.unionMemberTypes))
    ensures DirectivesOk(d.directives) && NamesOk(d.unionMemberTypes)
    ensures d.directives.Some? || d.unionMemberTypes.Some?
  {
  }

  /** An union type extension is read back from its printed form. */
  lemma UnionTypeExtensionRoundTrip(d: Definition, ts: seq<Token>, i: nat)
    requires d.UnionTypeExtension? && TypeSystemExtensionOk(d)
    requires Occurs(ts, i, PrintTypeSystemExtension(d))
    requires Boundary(At(ts, i + |PrintTypeSystemExtension(d)|))
    ensures ParseUnionTypeExtension(ts, i) == Ok(d, i + |PrintTypeSystemExtension(d)|)
  {
    hide *;
    UnionTypeExtensionParts(d);
    var head := [Name("extend"), Name("union"), Name(d.name)];
    var body := PrintDirectives(d.directives) + PrintUnionMemberTypes(d.unionMemberTypes);
    OccursSplit(ts, i, head, body);
    OccursTriple(ts, i, head[0], head[1], head[2]);
    var l, m := UnionBodyRoundTrip(d.directives, d.unionMemberTypes, ts, i + 3);
    UnionTypeExtensionStep(ts, i, d, l, m);
  }

  lemma UnionTypeExtensionStep(ts: seq<Token>, i: nat, d: Definition, l: nat, m: nat)
    requires d.UnionTypeExtension? && (d.directives.Some? || d.unionMemberTypes.Some?)
    requires i + 3 <= |ts| && ts[i] == Name("extend") && ts[i + 1] == Name("union") && ts[i + 2] == Name(d.name)
    requires ParseOptionalDirectives(ts, i + 3) == Ok(d.directives, l) && l <= |ts|
    requires ParseOptionalUnionMemberTypes(ts, l) == Ok(d.unionMemberTypes, m)
    ensures ParseUnionTypeExtension(ts, i) == Ok(d, m)
  {
    hide ParseOptionalDirectives, ParseOptionalUnionMemberTypes;
    hide ExpectName;
  }

  lemma EnumTypeExtensionParts(d: Definition)
    requires d.EnumTypeExtension? && TypeSystemExtensionOk(d)
    ensures PrintTypeSystemExtension(d) == [Name("extend"), Name("enum"), Name(d.name)]
      + (PrintDirectives(d.directives) + PrintEnumValuesDefinition(d.enumValuesDefinition))
    ensures DirectivesOk(d.directives) && EnumValuesOk(d.enumValuesDefinition)
    ensures d.directives.Some? || d.enumValuesDefinition.Some?
  {
  }

  /** An enum type extension is read back from its printed form. */
  lemma EnumTypeExtensionRoundTrip(d: Definition, ts: seq<Token>, i: nat)
    requires d.EnumTypeExtension? && TypeSystemExtensionOk(d)
    requires Occurs(ts, i, PrintTypeSystemExtension(d))
    requires Boundary(At(ts, i + |PrintTypeSystemExtension(d)|))
    ensures ParseEnumTypeExtension(ts, i) == Ok(d, i + |PrintTypeSystemExtension(d)|)
  {
    hide *;
    EnumTypeExtensionParts(d);
    var head := [Name("extend"), Name("enum"), Name(d.name)];
    var body := PrintDirectives(d.directives) + PrintEnumValuesDefinition(d.enumValuesDefinition);
    OccursSplit(ts, i, head, body);
    OccursTriple(ts, i, head[0], head[1], head[2]);
    var l, m := EnumBodyRoundTrip(d.directives, d.enumValuesDefinition, ts, i + 3);
    EnumTypeExtensionStep(ts, i, d, l, m);
  }

  lemma EnumTypeExtensionStep(ts: seq<Token>, i: nat, d: Definition, l: nat, m: nat)
    requires d.EnumTypeExtension? && (d.directives.Some? || d.enumValuesDefinition.Some?)
    requires i + 3 <= |ts| && ts[i] == Name("extend") && ts[i + 1] == Name("enum") && ts[i + 2] == Name(d.name)
    requires ParseOptionalDirectives(ts, i + 3) == Ok(d.directives, l) && l <= |ts|
    requires ParseOptionalEnumValuesDefinition(ts, l) == Ok(d.enumValuesDefinition, m)
    ensures ParseEnumTypeExtension(ts, i) == Ok(d, m)
  {
    hide ParseOptionalDirectives, ParseOptionalEnumValuesDefinition;
    hide ExpectName;
  }

  lemma InputObjectTypeExtensionParts(d: Definition)
    requires d.InputObjectTypeExtension? && TypeSystemExtensionOk(d)
    ensures PrintTypeSystemExtension(d) == [Name("extend"), Name("input"), Name(d.name)]
      + (PrintDirectives(d.directives) + PrintInputValues(d.inputFieldsDefinition, LBrace, RBrace))
    ensures DirectivesOk(d.directives) && InputValuesOk(d.inputFieldsDefinition)
    ensures d.directives.Some? || d.inputFieldsDefinition.Some?
  {
  }

  /** An input-object type extension is read back from its printed form. */
  lemma InputObjectTypeExtensionRoundTrip(d: Definition, ts: seq<Token>, i: nat)
    requires d.InputObjectTypeExtension? && TypeSystemExtensionOk(d)
    requires Occurs(ts, i, PrintTypeSystemExtension(d))
    requires Boundary(At(ts, i + |PrintTypeSystemExtension(d)|))
    ensures ParseInputObjectTypeExtension(ts, i) == Ok(d, i + |PrintTypeSystemExtension(d)|)
  {
    hide *;
    InputObjectTypeExtensionParts(d);
    var head := [Name("extend"), Name("input"), Name(d.name)];
    var body := PrintDirectives(d.directives) + PrintInputValues(d.inputFieldsDefinition, LBrace, RBrace);
    OccursSplit(ts, i, head, body);
    OccursTriple(ts, i, head[0], head[1], head[2]);
    var l, m := InputBodyRoundTrip(d.directives, d.inputFieldsDefinition, ts, i + 3);
    InputObjectTypeExtensionStep(ts, i, d, l, m);
  }

  lemma InputObjectTypeExtensionStep(ts: seq<Token>, i: nat, d: Definition, l: nat, m: nat)
    requires d.InputObjectTypeExtension? && (d.directives.Some? || d.inputFieldsDefinition.Some?)
    requires i + 3 <= |ts| && ts[i] == Name("extend") && ts[i + 1] == Name("input") && ts[i + 2] == Name(d.name)
    requires ParseOptionalDirectives(ts, i + 3) == Ok(d.directives, l) && l <= |ts|
    requires ParseOptionalInputFieldsDefinition(ts, l) == Ok(d.inputFieldsDefinition, m)
    ensures ParseInputObjectTypeExtension(ts, i) == Ok(d, m)
  {
    hide ParseOptionalDirectives, ParseOptionalInputFieldsDefinition;
    hide ExpectName;
  }

  // --------------------------------------------------------------- dispatch

  /** The keyword that introduces a type-system definition or extension
      (after `extend` for an extension). */
  function DefinitionKeyword(d: Definition): string
    requires d.IsTypeSystemDefinition() || d.IsTypeSystemExtension()
  {
    match d
    case SchemaDefinition(_, _, _) => "schema"
    case ScalarTypeDefinition(_, _, _) => "scalar"
    case ObjectTypeDefinition(_, _, _, _, _) => "type"
    case InterfaceTypeDefinition(_, _, _, _, _) => "interface"
    case UnionTypeDefinition(_, _, _, _) => "union"
    case EnumTypeDefinition(_, _, _, _) => "enum"
    case InputObjectTypeDefinition(_, _, _, _) => "input"
    case DirectiveDefinition(_, _, _, _, _) => "directive"
    case SchemaExtension(_, _) => "schema"
    case ScalarTypeExtension(_, _) => "scalar"
    case ObjectTypeExtension(_, _, _, _) => "type"
    case InterfaceTypeExtension(_, _, _, _) => "interface"
    case UnionTypeExtension(_, _, _) => "union"
    case EnumTypeExtension(_, _, _) => "enum"
    case InputObjectTypeExtension(_, _, _) => "input"
  }

  /** The first token of a printed definition is its keyword, unless a
      description precedes it. */
  lemma DescribedHead(ts: seq<Token>, i: nat, description: Option<string>, head: seq<Token>, body: seq<Token>)
    requires |head| > 0 && head[0].Name?
    requires Occurs(ts, i, PrintDescription(description) + (head + body))
    ensures At(ts, AfterDescription(ts, i)) == Some(head[0])
    ensures At(ts, i) == Some(head[0]) || IsString(At(ts, i))
  {
    var j := DescribedSplit(ts, i, description, head, body);
    OccursHead(ts, j, head);
    if description.Some? {
      OccursHead(ts, i, PrintDescription(description));
    }
  }

  /** Where the keyword of a printed type-system definition lies. */
  lemma DefinitionKeywordAt(d: Definition, ts: seq<Token>, i: nat)
    requires TypeSystemDefinitionOk(d)
    requires Occurs(ts, i, PrintTypeSystemDefinition(d))
    ensures d.IsTypeSystemDefinition() && DefinitionKeyword(d) in TypeKeywords + {"schema", "directive"}
    ensures At(ts, AfterDescription(ts, i)) == Some(Name(DefinitionKeyword(d)))
    ensures At(ts, i) == Some(Name(DefinitionKeyword(d))) || IsString(At(ts, i))
  {
    assert d.IsTypeSystemDefinition();
    hide PrintTypeSystemDefinition, PrintDescription, PrintDirectives, PrintRootOperationTypes, PrintImplementsInterfaces;
    hide PrintFieldsDefinition, PrintUnionMemberTypes, PrintEnumValuesDefinition, PrintInputValues, PrintRepeatable;
    hide PrintDirectiveLocations, TypeSystemDefinitionOk;
    if d.SchemaDefinition? {
      SchemaDefinitionParts(d);
      DescribedHead(ts, i, d.description, [Name("schema")],
        PrintDirectives(d.directives) + PrintRootOperationTypes(Some(d.rootOperationTypes)));
    } else if d.ScalarTypeDefinition? {
      ScalarTypeDefinitionParts(d);
      DescribedHead(ts, i, d.description, [Name("scalar"), Name(d.name)],
        PrintDirectives(d.directives));
    } else if d.ObjectTypeDefinition? {
      ObjectTypeDefinitionParts(d);
      DescribedHead(ts, i, d.description, [Name("type"), Name(d.name)],
        PrintImplementsInterfaces(d.implementsInterfaces) + (PrintDirectives(d.directives) + PrintFieldsDefinition(d.fieldsDefinition)));
    } else if d.InterfaceTypeDefinition? {
      InterfaceTypeDefinitionParts(d);
      DescribedHead(ts, i, d.description, [Name("interface"), Name(d.name)],
        PrintImplementsInterfaces(d.implementsInterfaces) + (PrintDirectives(d.directives) + PrintFieldsDefinition(d.fieldsDefinition)));
    } else if d.UnionTypeDefinition? {
      UnionTypeDefinitionParts(d);
      DescribedHead(ts, i, d.description, [Name("union"), Name(d.name)],
        PrintDirectives(d.directives) + PrintUnionMemberTypes(d.unionMemberTypes));
    } else if d.EnumTypeDefinition? {
      EnumTypeDefinitionParts(d);
      DescribedHead(ts, i, d.description, [Name("enum"), Name(d.name)],
        PrintDirectives(d.directives) + PrintEnumValuesDefinition(d.enumValuesDefinition));
    } else if d.InputObjectTypeDefinition? {
      InputObjectTypeDefinitionParts(d);
      DescribedHead(ts, i, d.description, [Name("input"), Name(d.name)],
        PrintDirectives(d.directives) + PrintInputValues(d.inputFieldsDefinition, LBrace, RBrace));
    } else {
      DirectiveDefinitionParts(d);
      DescribedHead(ts, i, d.description, [Name("directive"), Punct(AtSign), Name(d.name)],
        PrintInputValues(d.argumentsDefinition, LParen, RParen)
          + (PrintRepeatable(d.repeatable) + ([Name("on")] + PrintDirectiveLocations(d.directiveLocations))));
    }
  }

  lemma ExtendHead(ts: seq<Token>, i: nat, head: seq<Token>, body: seq<Token>)
    requires |head| >= 2
    requires Occurs(ts, i, head + body)
    ensures At(ts, i) == Some(head[0]) && At(ts, i + 1) == Some(head[1])
  {
    OccursSplit(ts, i, head, body);
    OccursSplit(ts, i, head[..2], head[2..]);
    assert head[..2] == [head[0], head[1]];
    OccursPair(ts, i, head[0], head[1]);
  }

  /** Where `extend` and the keyword of a printed extension lie. */
  lemma ExtensionKeywordAt(d: Definition, ts: seq<Token>, i: nat)
    requires TypeSystemExtensionOk(d)
    requires Occurs(ts, i, PrintTypeSystemExtension(d))
    ensures d.IsTypeSystemExtension()
    ensures At(ts, i) == Some(Name("extend")) && At(ts, i + 1) == Some(Name(DefinitionKeyword(d)))
  {
    assert d.IsTypeSystemExtension();
    hide PrintTypeSystemExtension, PrintDirectives, PrintRootOperationTypes, PrintImplementsInterfaces;
    hide PrintFieldsDefinition, PrintUnionMemberTypes, PrintEnumValuesDefinition, PrintInputValues, TypeSystemExtensionOk;
    if d.SchemaExtension? {
      SchemaExtensionParts(d);
      ExtendHead(ts, i, [Name("extend"), Name("schema")],
        PrintDirectives(d.directives) + PrintRootOperationTypes(d.rootOperationTypeDefinitions));
    } else if d.ScalarTypeExtension? {
      ScalarTypeExtensionParts(d);
      ExtendHead(ts, i, [Name("extend"), Name("scalar"), Name(d.name)],
        PrintDirectives(d.directives));
    } else if d.ObjectTypeExtension? {
      ObjectTypeExtensionParts(d);
      ExtendHead(ts, i, [Name("extend"), Name("type"), Name(d.name)],
        PrintImplementsInterfaces(d.implementsInterfaces) + (PrintDirectives(d.directives) + PrintFieldsDefinition(d.fieldsDefinition)));
    } else if d.InterfaceTypeExtension? {
      InterfaceTypeExtensionParts(d);
      ExtendHead(ts, i, [Name("extend"), Name("interface"), Name(d.name)],
        PrintImplementsInterfaces(d.implementsInterfaces) + (PrintDirectives(d.directives) + PrintFieldsDefinition(d.fieldsDefinition)));
    } else if d.UnionTypeExtension? {
      UnionTypeExtensionParts(d);
      ExtendHead(ts, i, [Name("extend"), Name("union"), Name(d.name)],
        PrintDirectives(d.directives) + PrintUnionMemberTypes(d.unionMemberTypes));
    } else if d.EnumTypeExtension? {
      EnumTypeExtensionParts(d);
      ExtendHead(ts, i, [Name("extend"), Name("enum"), Name(d.name)],
        PrintDirectives(d.directives) + PrintEnumValuesDefinition(d.enumValuesDefinition));
    } else {
      InputObjectTypeExtensionParts(d);
      ExtendHead(ts, i, [Name("extend"), Name("input"), Name(d.name)],
        PrintDirectives(d.directives) + PrintInputValues(d.inputFieldsDefinition, LBrace, RBrace));
    }
  }

  /** The rule for type definitions hands a definition to the rule for its
      keyword: the rules tried before that one do not match. */
  lemma TypeDefinitionDispatch(ts: seq<Token>, i: nat, kw: string)
    requires i <= |ts| && At(ts, AfterDescription(ts, i)) == Some(Name(kw)) && kw in TypeKeywords
    ensures ParseTypeDefinition(ts, i) ==
      if kw == "scalar" then ParseScalarTypeDefinition(ts, i)
      else if kw == "type" then ParseObjectTypeDefinition(ts, i)
      else if kw == "interface" then ParseInterfaceTypeDefinition(ts, i)
      else if kw == "union" then ParseUnionTypeDefinition(ts, i)
      else if kw == "enum" then ParseEnumTypeDefinition(ts, i)
      else ParseInputObjectTypeDefinition(ts, i)
  {
    hide ParseScalarTypeDefinition, ParseObjectTypeDefinition, ParseInterfaceTypeDefinition;
    hide ParseUnionTypeDefinition, ParseEnumTypeDefinition, ParseInputObjectTypeDefinition;
  }

  /** A type definition is read back by the rule that tries the six kinds in
      turn. */
  lemma TypeDefinitionRoundTrip(d: Definition, ts: seq<Token>, i: nat)
    requires d.IsTypeDefinition() && TypeSystemDefinitionOk(d)
    requires Occurs(ts, i, PrintTypeSystemDefinition(d))
    requires Boundary(At(ts, i + |PrintTypeSystemDefinition(d)|))
    ensures ParseTypeDefinition(ts, i) == Ok(d, i + |PrintTypeSystemDefinition(d)|)
  {
    DefinitionKeywordAt(d, ts, i);
    TypeDefinitionDispatch(ts, i, DefinitionKeyword(d));
    hide ParseScalarTypeDefinition, ParseObjectTypeDefinition, ParseInterfaceTypeDefinition;
    hide ParseUnionTypeDefinition, ParseEnumTypeDefinition, ParseInputObjectTypeDefinition;
    hide PrintTypeSystemDefinition, TypeSystemDefinitionOk, ParseTypeDefinition;
    if d.ScalarTypeDefinition? {
      ScalarTypeDefinitionRoundTrip(d, ts, i);
    } else if d.ObjectTypeDefinition? {
      ObjectTypeDefinitionRoundTrip(d, ts, i);
    } else if d.InterfaceTypeDefinition? {
      InterfaceTypeDefinitionRoundTrip(d, ts, i);
    } else if d.UnionTypeDefinition? {
      UnionTypeDefinitionRoundTrip(d, ts, i);
    } else if d.EnumTypeDefinition? {
      EnumTypeDefinitionRoundTrip(d, ts, i);
    } else {
      InputObjectTypeDefinitionRoundTrip(d, ts, i);
    }
  }

  /** A type-system definition is read back: schema first, then the type
      definitions, then directive definitions. */
  lemma TypeSystemDefinitionRoundTrip(d: Definition, ts: seq<Token>, i: nat)
    requires TypeSystemDefinitionOk(d)
    requires Occurs(ts, i, PrintTypeSystemDefinition(d))
    requires Boundary(At(ts, i + |PrintTypeSystemDefinition(d)|))
    ensures ParseTypeSystemDefinition(ts, i) == Ok(d, i + |PrintTypeSystemDefinition(d)|)
  {
    DefinitionKeywordAt(d, ts, i);
    hide ParseSchemaDefinition, ParseTypeDefinition, ParseDirectiveDefinition;
    hide PrintTypeSystemDefinition, TypeSystemDefinitionOk;
    if d.SchemaDefinition? {
      SchemaDefinitionRoundTrip(d, ts, i);
    } else if d.DirectiveDefinition? {
      DirectiveDefinitionRoundTrip(d, ts, i);
    } else {
      TypeDefinitionRoundTrip(d, ts, i);
    }
  }

  /** The rule for type extensions hands an extension to the rule for its
      keyword. */
  lemma TypeExtensionDispatch(ts: seq<Token>, i: nat, kw: string)
    requires i <= |ts| && At(ts, i) == Some(Name("extend")) && At(ts, i + 1) == Some(Name(kw)) && kw in TypeKeywords
    ensures ParseTypeExtension(ts, i) ==
      if kw == "scalar" then ParseScalarTypeExtension(ts, i)
      else if kw == "type" then ParseObjectTypeExtension(ts, i)
      else if kw == "interface" then ParseInterfaceTypeExtension(ts, i)
      else if kw == "union" then ParseUnionTypeExtension(ts, i)
      else if kw == "enum" then ParseEnumTypeExtension(ts, i)
      else ParseInputObjectTypeExtension(ts, i)
  {
    hide ParseScalarTypeExtension, ParseObjectTypeExtension, ParseInterfaceTypeExtension;
    hide ParseUnionTypeExtension, ParseEnumTypeExtension, ParseInputObjectTypeExtension;
  }

  /** A type extension is read back by the rule that tries the six kinds in
      turn. */
  lemma TypeExtensionRoundTrip(d: Definition, ts: seq<Token>, i: nat)
    requires d.IsTypeExtension() && TypeSystemExtensionOk(d)
    requires Occurs(ts, i, PrintTypeSystemExtension(d))
    requires Boundary(At(ts, i + |PrintTypeSystemExtension(d)|))
    ensures ParseTypeExtension(ts, i) == Ok(d, i + |PrintTypeSystemExtension(d)|)
  {
    ExtensionKeywordAt(d, ts, i);
    TypeExtensionDispatch(ts, i, DefinitionKeyword(d));
    hide ParseScalarTypeExtension, ParseObjectTypeExtension, ParseInterfaceTypeExtension;
    hide ParseUnionTypeExtension, ParseEnumTypeExtension, ParseInputObjectTypeExtension;
    hide PrintTypeSystemExtension, TypeSystemExtensionOk, ParseTypeExtension;
    if d.ScalarTypeExtension? {
      ScalarTypeExtensionRoundTrip(d, ts, i);
    } else if d.ObjectTypeExtension? {
      ObjectTypeExtensionRoundTrip(d, ts, i);
    } else if d.InterfaceTypeExtension? {
      InterfaceTypeExtensionRoundTrip(d, ts, i);
    } else if d.UnionTypeExtension? {
      UnionTypeExtensionRoundTrip(d, ts, i);
    } else if d.EnumTypeExtension? {
      EnumTypeExtensionRoundTrip(d, ts, i);
    } else {
      InputObjectTypeExtensionRoundTrip(d, ts, i);
    }
  }

  /** A type-system extension is read back: schema extension first, then
      the type extensions. */
  lemma TypeSystemExtensionRoundTrip(d: Definition, ts: seq<Token>, i: nat)
    requires TypeSystemExtensionOk(d)
    requires Occurs(ts, i, PrintTypeSystemExtension(d))
    requires Boundary(At(ts, i + |PrintTypeSystemExtension(d)|))
    ensures ParseTypeSystemExtension(ts, i) == Ok(d, i + |PrintTypeSystemExtension(d)|)
  {
    ExtensionKeywordAt(d, ts, i);
    hide ParseSchemaExtension, ParseTypeExtension;
    hide PrintTypeSystemExtension, TypeSystemExtensionOk;
    if d.SchemaExtension? {
      SchemaExtensionRoundTrip(d, ts, i);
    } else {
      TypeExtensionRoundTrip(d, ts, i);
    }
  }

  /** A type-system definition or extension is read back from its printed
      form. Its first token is a description or a keyword, so the
      executable rules do not match it, and it can follow another
      definition. */
  lemma TypeSystemRoundTrip(d: Definition, ts: seq<Token>, i: nat)
    requires TypeSystemDefinitionOk(d) || TypeSystemExtensionOk(d)
    requires Occurs(ts, i, PrintDefinition(d))
    requires Boundary(At(ts, i + |PrintDefinition(d)|))
    ensures ParseTypeSystemDefinitionOrExtension(ts, i) == Ok(d, i + |PrintDefinition(d)|)
    ensures Boundary(At(ts, i))
    ensures !IsKeywordIn(At(ts, i), OperationTypeNames) && !IsKeyword(At(ts, i), "fragment")
  {
    if TypeSystemDefinitionOk(d) {
      DefinedRoundTrip(d, ts, i);
    } else {
      ExtendedRoundTrip(d, ts, i);
    }
  }

  lemma DefinedRoundTrip(d: Definition, ts: seq<Token>, i: nat)
    requires TypeSystemDefinitionOk(d)
    requires Occurs(ts, i, PrintDefinition(d))
    requires Boundary(At(ts, i + |PrintDefinition(d)|))
    ensures ParseTypeSystemDefinitionOrExtension(ts, i) == Ok(d, i + |PrintDefinition(d)|)
    ensures Boundary(At(ts, i))
    ensures !IsKeywordIn(At(ts, i), OperationTypeNames) && !IsKeyword(At(ts, i), "fragment")
  {
    hide *;
    DefinitionPrint(d);
    DefinitionKeywordAt(d, ts, i);
    TypeSystemDefinitionRoundTrip(d, ts, i);
    KeywordFirst(At(ts, i), DefinitionKeyword(d));
    DefinedStep(ts, i, d, i + |PrintDefinition(d)|);
  }

  lemma DefinitionPrint(d: Definition)
    requires TypeSystemDefinitionOk(d)
    ensures d.IsTypeSystemDefinition() && PrintDefinition(d) == PrintTypeSystemDefinition(d)
  {
  }

  lemma ExtensionPrint(d: Definition)
    requires TypeSystemExtensionOk(d)
    ensures d.IsTypeSystemExtension() && PrintDefinition(d) == PrintTypeSystemExtension(d)
  {
  }

  lemma DefinedStep(ts: seq<Token>, i: nat, d: Definition, n: nat)
    requires i <= |ts| && ParseTypeSystemDefinition(ts, i) == Ok(d, n)
    ensures ParseTypeSystemDefinitionOrExtension(ts, i) == Ok(d, n)
  {
    hide ParseTypeSystemDefinition, ParseTypeSystemExtension;
  }

  lemma ExtendedRoundTrip(d: Definition, ts: seq<Token>, i: nat)
    requires TypeSystemExtensionOk(d)
    requires Occurs(ts, i, PrintDefinition(d))
    requires Boundary(At(ts, i + |PrintDefinition(d)|))
    ensures ParseTypeSystemDefinitionOrExtension(ts, i) == Ok(d, i + |PrintDefinition(d)|)
    ensures Boundary(At(ts, i))
    ensures !IsKeywordIn(At(ts, i), OperationTypeNames) && !IsKeyword(At(ts, i), "fragment")
  {
    hide *;
    ExtensionPrint(d);
    ExtensionKeywordAt(d, ts, i);
    TypeSystemExtensionRoundTrip(d, ts, i);
    KeywordFirst(At(ts, i), "extend");
    ExtendedStep(ts, i, d, i + |PrintDefinition(d)|);
  }

  lemma ExtendedStep(ts: seq<Token>, i: nat, d: Definition, n: nat)
    requires i <= |ts| && At(ts, i) == Some(Name("extend"))
    requires ParseTypeSystemExtension(ts, i) == Ok(d, n)
    ensures ParseTypeSystemDefinitionOrExtension(ts, i) == Ok(d, n)
  {
    hide ParseTypeSystemDefinition, ParseTypeSystemExtension;
  }

  /** A description or a type-system keyword is neither an operation type
      nor `fragment`, and may follow a definition. */
  lemma KeywordFirst(t: Option<Token>, kw: string)
    requires t == Some(Name(kw)) || IsString(t)
    requires kw in TypeKeywords + {"schema", "directive"} || kw == "extend"
    ensures Boundary(t)
    ensures !IsKeywordIn(t, OperationTypeNames) && !IsKeyword(t, "fragment")
  {
  }
}
