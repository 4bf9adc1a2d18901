/**
 Round trips for the parts of type-system definitions: descriptions, name
 lists separated by `&` or `|`, directive locations, root operation types,
 input-value, field and enum-value definitions and the bracketed lists of
 them. Each printed part in the image of its rule parses back to itself.

 The image: every list the grammar requires to be non-empty is non-empty,
 types are well formed, default values hold no reserved enum value, enum
 values are not reserved words, and directive lists are in the image of the
 directive rule.
 */
module TypeListRoundTrips {
  import opened Wrappers
  import opened Tokens
  import opened Ast
  import opened Results
  import opened ValueGrammar
  import opened ExecutableGrammar
  import opened TypeSystemGrammar
  import opened Spans
  import opened Printer
  import opened ValueRoundTrips
  import opened ExecutableRoundTrips

  // ------------------------------------------------------------ the image

  ghost predicate InputValueOk(iv: InputValueDefinition) {
    && WellFormedType(iv.valueType)
    && (iv.defaultValue.Some? ==> NoReservedEnum(iv.defaultValue.value))
    && DirectivesOk(iv.directives)
  }

  ghost predicate InputValueListOk(list: seq<InputValueDefinition>) {
    forall k :: 0 <= k < |list| ==> InputValueOk(list[k])
  }

  ghost predicate InputValuesOk(ivs: Option<seq<InputValueDefinition>>) {
    ivs.Some? ==> |ivs.value| > 0 && InputValueListOk(ivs.value)
  }

  ghost predicate FieldDefinitionOk(f: FieldDefinition) {
    InputValuesOk(f.argumentsDefinition) && WellFormedType(f.fieldType) && DirectivesOk(f.directives)
  }

  ghost predicate FieldDefinitionListOk(list: seq<FieldDefinition>) {
    forall k :: 0 <= k < |list| ==> FieldDefinitionOk(list[k])
  }

  ghost predicate FieldsDefinitionOk(fields: Option<seq<FieldDefinition>>) {
    fields.Some? ==> |fields.value| > 0 && FieldDefinitionListOk(fields.value)
  }

  ghost predicate EnumValueOk(e: EnumValueDefinition) {
    e.enumValue !in Reserved && DirectivesOk(e.directives)
  }

  ghost predicate EnumValueListOk(list: seq<EnumValueDefinition>) {
    forall k :: 0 <= k < |list| ==> EnumValueOk(list[k])
  }

  ghost predicate EnumValuesOk(values: Option<seq<EnumValueDefinition>>) {
    values.Some? ==> |values.value| > 0 && EnumValueListOk(values.value)
  }

  /** A name or a string: how every input-value, field and enum-value
      definition begins. */
  predicate ItemStart(t: Option<Token>) {
    t.Some? && (t.value.Name? || t.value.StringLit?)
  }

  /** What an item of a bracketed list must not be followed by: `!`, `=`,
      `@` and `(` would be read as part of its type, default value or
      directives. Inside the brackets an item is followed by the next item or
      by the closing bracket. */
  const TrailDanger: set<Token> := {Punct(Bang), Punct(Equals), Punct(AtSign), Punct(LParen)}

  lemma ItemFollow(t: Option<Token>, closer: Punctuator)
    requires closer == RParen || closer == RBrace
    requires ItemStart(t) || IsPunct(t, closer)
    ensures Clear(t, TrailDanger)
  {
  }

  lemma PunctAt(ts: seq<Token>, i: nat, p: Punctuator)
    requires i < |ts| && ts[i] == Punct(p)
    ensures IsPunct(At(ts, i), p)
  {
  }

  // ---------------------------------------------------------- descriptions

  /** A printed description is read back; an absent one needs a next token
      that is not a string. */
  lemma DescriptionRoundTrip(description: Option<string>, ts: seq<Token>, i: nat)
    requires Occurs(ts, i, PrintDescription(description))
    requires description.None? ==> !IsString(At(ts, i))
    ensures ParseOptionalDescription(ts, i) == (description, i + |PrintDescription(description)|)
  {
    if description.Some? {
      OccursHead(ts, i, PrintDescription(description));
    }
  }

  // --------------------------------------------------------- name lists

  /** The names `names[k..]`, each after `sep`, are read back by the loop
      that stops at the first token other than `sep`. */
  lemma {:induction false} MoreNamesRoundTrip(names: seq<string>, k: nat, sep: Punctuator, ts: seq<Token>, i: nat)
    requires k <= |names|
    requires Occurs(ts, i, PrintMoreNames(names, k, sep))
    requires !IsPunct(At(ts, i + |PrintMoreNames(names, k, sep)|), sep)
    ensures ParseMoreNames(ts, i, sep) == Ok(names[k..], i + |PrintMoreNames(names, k, sep)|)
    decreases |names| - k
  {
    if k == |names| {
      assert names[k..] == [];
    } else {
      var head := [Punct(sep), Name(names[k])];
      var rest := PrintMoreNames(names, k + 1, sep);
      OccursSplit(ts, i, head, rest);
      OccursPair(ts, i, head[0], head[1]);
      MoreNamesRoundTrip(names, k + 1, sep, ts, i + 2);
      SuffixCons(names, k);
    }
  }

  lemma SeparatedNamesRoundTrip(names: seq<string>, sep: Punctuator, ts: seq<Token>, i: nat)
    requires |names| > 0
    requires Occurs(ts, i, PrintSeparatedNames(names, sep))
    requires !IsPunct(At(ts, i + |PrintSeparatedNames(names, sep)|), sep)
    ensures ParseSeparatedNames(ts, i, sep) == Ok(names, i + |PrintSeparatedNames(names, sep)|)
  {
    var rest := PrintMoreNames(names, 1, sep);
    OccursSplit(ts, i, [Name(names[0])], rest);
    OccursHead(ts, i, [Name(names[0])]);
    MoreNamesRoundTrip(names, 1, sep, ts, i + 1);
    SuffixCons(names, 0);
    assert names[0..] == names;
  }

  /** One separator before the first name is skipped: `implements & A` and
      `union U = | A | B` read the same names as without it. */
  lemma LeadingSeparatorNames(names: seq<string>, sep: Punctuator, ts: seq<Token>, i: nat)
    requires |names| > 0 && i < |ts| && ts[i] == Punct(sep)
    requires Occurs(ts, i + 1, PrintSeparatedNames(names, sep))
    requires !IsPunct(At(ts, i + 1 + |PrintSeparatedNames(names, sep)|), sep)
    ensures ParseSeparatedNames(ts, i, sep) == Ok(names, i + 1 + |PrintSeparatedNames(names, sep)|)
  {
    SeparatedNamesRoundTrip(names, sep, ts, i + 1);
    OccursHead(ts, i + 1, PrintSeparatedNames(names, sep));
  }

  /** Printed interfaces are read back, provided no `&` follows them; absent
      ones need a next token other than `implements`. */
  lemma ImplementsInterfacesRoundTrip(interfaces: Option<seq<string>>, ts: seq<Token>, i: nat)
    requires interfaces.Some? ==> |interfaces.value| > 0
    requires Occurs(ts, i, PrintImplementsInterfaces(interfaces))
    requires interfaces.None? ==> !IsKeyword(At(ts, i), "implements")
    requires !IsPunct(At(ts, i + |PrintImplementsInterfaces(interfaces)|), Amp)
    ensures ParseOptionalImplementsInterfaces(ts, i) ==
      Ok(interfaces, i + |PrintImplementsInterfaces(interfaces)|)
  {
    if interfaces.Some? {
      var names := PrintSeparatedNames(interfaces.value, Amp);
      OccursSplit(ts, i, [Name("implements")], names);
      OccursHead(ts, i, [Name("implements")]);
      SeparatedNamesRoundTrip(interfaces.value, Amp, ts, i + 1);
    }
  }

  /** Printed union members are read back, provided no `|` follows them;
      absent ones need a next token other than `=`. */
  lemma UnionMemberTypesRoundTrip(members: Option<seq<string>>, ts: seq<Token>, i: nat)
    requires members.Some? ==> |members.value| > 0
    requires Occurs(ts, i, PrintUnionMemberTypes(members))
    requires members.None? ==> !IsPunct(At(ts, i), Equals)
    requires !IsPunct(At(ts, i + |PrintUnionMemberTypes(members)|), Pipe)
    ensures ParseOptionalUnionMemberTypes(ts, i) == Ok(members, i + |PrintUnionMemberTypes(members)|)
  {
    if members.Some? {
      var names := PrintSeparatedNames(members.value, Pipe);
      OccursSplit(ts, i, [Punct(Equals)], names);
      OccursHead(ts, i, [Punct(Equals)]);
      SeparatedNamesRoundTrip(members.value, Pipe, ts, i + 1);
    }
  }

  // -------------------------------------------------- directive locations

  lemma DirectiveLocationRoundTrip(l: DirectiveLocation, ts: seq<Token>, i: nat)
    requires i < |ts| && ts[i] == StringLit(LocationName(l))
    ensures ParseDirectiveLocation(ts, i) == Ok(l, i + 1)
  {
    LocationRoundTrip(l);
  }

  lemma {:induction false} MoreLocationsRoundTrip(locations: seq<DirectiveLocation>, k: nat, ts: seq<Token>, i: nat)
    requires k <= |locations|
    requires Occurs(ts, i, PrintMoreLocations(locations, k))
    requires !IsPunct(At(ts, i + |PrintMoreLocations(locations, k)|), Pipe)
    ensures ParseMoreDirectiveLocations(ts, i) == Ok(locations[k..], i + |PrintMoreLocations(locations, k)|)
    decreases |locations| - k
  {
    if k == |locations| {
      assert locations[k..] == [];
    } else {
      var head := [Punct(Pipe), StringLit(LocationName(locations[k]))];
      var rest := PrintMoreLocations(locations, k + 1);
      OccursSplit(ts, i, head, rest);
      OccursPair(ts, i, head[0], head[1]);
      DirectiveLocationRoundTrip(locations[k], ts, i + 1);
      MoreLocationsRoundTrip(locations, k + 1, ts, i + 2);
      SuffixCons(locations, k);
    }
  }

  /** Printed directive locations are read back, provided no `|` follows. */
  lemma DirectiveLocationsRoundTrip(locations: seq<DirectiveLocation>, ts: seq<Token>, i: nat)
    requires |locations| > 0
    requires Occurs(ts, i, PrintDirectiveLocations(locations))
    requires !IsPunct(At(ts, i + |PrintDirectiveLocations(locations)|), Pipe)
    ensures ParseDirectiveLocations(ts, i) == Ok(locations, i + |PrintDirectiveLocations(locations)|)
  {
    var first := [StringLit(LocationName(locations[0]))];
    var rest := PrintMoreLocations(locations, 1);
    OccursSplit(ts, i, first, rest);
    OccursHead(ts, i, first);
    DirectiveLocationRoundTrip(locations[0], ts, i);
    MoreLocationsRoundTrip(locations, 1, ts, i + 1);
    SuffixCons(locations, 0);
    assert locations[0..] == locations;
  }

  /** One pipe before the first location is skipped: `on | FIELD` reads the
      same locations as `on FIELD`. */
  lemma LeadingPipeLocations(locations: seq<DirectiveLocation>, ts: seq<Token>, i: nat)
    requires |locations| > 0 && i < |ts| && ts[i] == Punct(Pipe)
    requires Occurs(ts, i + 1, PrintDirectiveLocations(locations))
    requires !IsPunct(At(ts, i + 1 + |PrintDirectiveLocations(locations)|), Pipe)
    ensures ParseDirectiveLocations(ts, i) == Ok(locations, i + 1 + |PrintDirectiveLocations(locations)|)
  {
    DirectiveLocationsRoundTrip(locations, ts, i + 1);
    OccursHead(ts, i + 1, PrintDirectiveLocations(locations));
  }

  // ---------------------------------------------------- root operation types

  lemma RootOperationTypeRoundTrip(r: RootOperationTypeDefinition, ts: seq<Token>, i: nat)
    requires Occurs(ts, i, PrintRootOperationTypeDefinition(r))
    ensures i < |ts| && ts[i].Name?
    ensures ParseRootOperationTypeDefinition(ts, i) == Ok(r, i + |PrintRootOperationTypeDefinition(r)|)
  {
    OccursTriple(ts, i, Name(OperationTypeName(r.operationType)), Punct(Colon), Name(r.typeName));
    OperationTypeRoundTrip(r.operationType);
  }

  /** The root operation types `list[k..]` are read back by the loop that
      stops at `}`. */
  lemma {:induction false} RootOperationTypeItemsRoundTrip(
    list: seq<RootOperationTypeDefinition>, k: nat, ts: seq<Token>, i: nat, end: nat)
    requires k <= |list|
    requires Occurs(ts, i, PrintRootOperationTypesFrom(list, k))
    requires end == i + |PrintRootOperationTypesFrom(list, k)| && IsPunct(At(ts, end), RBrace)
    ensures ParseRootOperationTypeItems(ts, i) == Ok(list[k..], end)
    decreases |list| - k
  {
    if k == |list| {
      assert list[k..] == [];
    } else {
      var first := PrintRootOperationTypeDefinition(list[k]);
      var rest := PrintRootOperationTypesFrom(list, k + 1);
      OccursSplit(ts, i, first, rest);
      RootOperationTypeRoundTrip(list[k], ts, i);
      RootOperationTypeItemsRoundTrip(list, k + 1, ts, i + |first|, end);
      SuffixCons(list, k);
    }
  }

  /** Printed root operation types are read back; absent ones need a next
      token other than `{`. */
  lemma RootOperationTypesRoundTrip(roots: Option<seq<RootOperationTypeDefinition>>, ts: seq<Token>, i: nat)
    requires roots.Some? ==> |roots.value| > 0
    requires Occurs(ts, i, PrintRootOperationTypes(roots))
    requires roots.None? ==> !IsPunct(At(ts, i), LBrace)
    ensures ParseOptionalRootOperationTypesDefinition(ts, i) == Ok(roots, i + |PrintRootOperationTypes(roots)|)
  {
    if roots.Some? {
      var list := roots.value;
      var end := OccursBracketed(ts, i, Punct(LBrace), PrintRootOperationTypesFrom(list, 0), Punct(RBrace));
      var first := PrintRootOperationTypeDefinition(list[0]);
      assert PrintRootOperationTypesFrom(list, 0) == first + PrintRootOperationTypesFrom(list, 1);
      OccursSplit(ts, i + 1, first, PrintRootOperationTypesFrom(list, 1));
      RootOperationTypeRoundTrip(list[0], ts, i + 1);
      RootOperationTypeItemsRoundTrip(list, 1, ts, i + 1 + |first|, end);
      SuffixCons(list, 0);
      assert list[0..] == list;
      RootOperationTypesStep(ts, i, list[0], list[1..], i + 1 + |first|, end);
    }
  }

  lemma RootOperationTypesStep(
    ts: seq<Token>, i: nat, first: RootOperationTypeDefinition, rest: seq<RootOperationTypeDefinition>, j: nat, k: nat)
    requires i < |ts| && ts[i] == Punct(LBrace)
    requires ParseRootOperationTypeDefinition(ts, i + 1) == Ok(first, j) && j <= |ts|
    requires ParseRootOperationTypeItems(ts, j) == Ok(rest, k)
    ensures ParseOptionalRootOperationTypesDefinition(ts, i) == Ok(Some([first] + rest), k + 1)
  {
    hide ParseRootOperationTypeDefinition, ParseRootOperationTypeItems;
  }

  // ------------------------------------------------------- default values

  /** A printed default value is read back; an absent one needs a next token
      other than `=`. */
  lemma OptionalDefaultValueRoundTrip(dv: Option<Value>, ts: seq<Token>, i: nat)
    requires dv.Some? ==> NoReservedEnum(dv.value)
    requires Occurs(ts, i, PrintDefaultValue(dv))
    requires dv.None? ==> !IsPunct(At(ts, i), Equals)
    ensures ParseOptionalDefaultValue(ts, i) == Ok(dv, i + |PrintDefaultValue(dv)|)
  {
    if dv.Some? {
      OccursSplit(ts, i, [Punct(Equals)], PrintValue(dv.value));
      OccursHead(ts, i, [Punct(Equals)]);
      ValueRoundTrip(dv.value, ts, i + 1);
    }
  }

  // -------------------------------------------------- input-value definitions

  /** Where the parts of a printed input-value definition lie: the name at
      `j`, the type up to `l`, the default value up to `m` and the directives
      up to `n`. */
  lemma InputValueSplit(iv: InputValueDefinition, ts: seq<Token>, i: nat) returns (j: nat, l: nat, m: nat, n: nat)
    requires Occurs(ts, i, PrintInputValueDefinition(iv))
    ensures Occurs(ts, i, PrintDescription(iv.description)) && j == i + |PrintDescription(iv.description)|
    ensures j + 2 <= |ts| && ts[j] == Name(iv.name) && ts[j + 1] == Punct(Colon)
    ensures Occurs(ts, j + 2, PrintType(iv.valueType)) && l == j + 2 + |PrintType(iv.valueType)|
    ensures Occurs(ts, l, PrintDefaultValue(iv.defaultValue)) && m == l + |PrintDefaultValue(iv.defaultValue)|
    ensures Occurs(ts, m, PrintDirectives(iv.directives)) && n == m + |PrintDirectives(iv.directives)|
    ensures n == i + |PrintInputValueDefinition(iv)|
  {
    hide PrintType, PrintDefaultValue, PrintDirectives, PrintDescription;
    var d := PrintDescription(iv.description);
    var head := [Name(iv.name), Punct(Colon)];
    var t := PrintType(iv.valueType);
    var dv := PrintDefaultValue(iv.defaultValue);
    var ds := PrintDirectives(iv.directives);
    OccursSplit(ts, i, d, head + (t + (dv + ds)));
    j := i + |d|;
    OccursSplit(ts, j, head, t + (dv + ds));
    OccursPair(ts, j, head[0], head[1]);
    OccursSplit(ts, j + 2, t, dv + ds);
    l := j + 2 + |t|;
    OccursSplit(ts, l, dv, ds);
    m := l + |dv|;
    n := m + |ds|;
  }

  /** What the parser sees between the parts of a printed input-value
      definition: a name where a description could be, no `!` after a
      nullable type, no `=` where no default value is, and nothing that
      extends the directives. */
  lemma InputValueFollows(iv: InputValueDefinition, ts: seq<Token>, i: nat, j: nat, l: nat, m: nat, n: nat)
    requires DirectivesOk(iv.directives)
    requires Occurs(ts, i, PrintDescription(iv.description)) && j == i + |PrintDescription(iv.description)|
    requires j < |ts| && ts[j] == Name(iv.name)
    requires Occurs(ts, l, PrintDefaultValue(iv.defaultValue)) && m == l + |PrintDefaultValue(iv.defaultValue)|
    requires Occurs(ts, m, PrintDirectives(iv.directives)) && n == m + |PrintDirectives(iv.directives)|
    requires Clear(At(ts, n), TrailDanger)
    ensures iv.description.None? ==> !IsString(At(ts, i))
    ensures Clear(At(ts, l), TypeDanger(iv.valueType))
    ensures iv.defaultValue.None? ==> !IsPunct(At(ts, l), Equals)
    ensures Clear(At(ts, n), DirectivesDanger)
  {
    OccursFirst(ts, m, PrintDirectives(iv.directives));
    DirectivesFirst(iv.directives, At(ts, n));
    if iv.defaultValue.Some? {
      OccursHead(ts, l, PrintDefaultValue(iv.defaultValue));
    }
  }

  lemma InputValueOkParts(iv: InputValueDefinition)
    requires InputValueOk(iv)
    ensures WellFormedType(iv.valueType) && DirectivesOk(iv.directives)
    ensures iv.defaultValue.Some? ==> NoReservedEnum(iv.defaultValue.value)
  {
  }

  /** An input-value definition is read back from its printed form,
      provided what follows cannot continue it. */
  lemma InputValueRoundTrip(iv: InputValueDefinition, ts: seq<Token>, i: nat)
    requires InputValueOk(iv)
    requires Occurs(ts, i, PrintInputValueDefinition(iv))
    requires Clear(At(ts, i + |PrintInputValueDefinition(iv)|), TrailDanger)
    ensures ParseInputValueDefinition(ts, i) == Ok(iv, i + |PrintInputValueDefinition(iv)|)
  {
    hide *;
    var j, l, m, n := InputValueSplit(iv, ts, i);
    InputValueOkParts(iv);
    InputValueFollows(iv, ts, i, j, l, m, n);
    DescriptionRoundTrip(iv.description, ts, i);
    TypeRoundTrip(iv.valueType, ts, j + 2);
    OptionalDefaultValueRoundTrip(iv.defaultValue, ts, l);
    DirectivesRoundTrip(iv.directives, ts, m);
    InputValueStep(ts, i, iv, j, l, m, n);
  }

  lemma InputValueStep(ts: seq<Token>, i: nat, iv: InputValueDefinition, j: nat, l: nat, m: nat, n: nat)
    requires ParseOptionalDescription(ts, i) == (iv.description, j) && i <= j
    requires j + 2 <= |ts| && ts[j] == Name(iv.name) && ts[j + 1] == Punct(Colon)
    requires ParseType(ts, j + 2) == Ok(iv.valueType, l) && l <= |ts|
    requires ParseOptionalDefaultValue(ts, l) == Ok(iv.defaultValue, m) && m <= |ts|
    requires ParseOptionalDirectives(ts, m) == Ok(iv.directives, n)
    ensures ParseInputValueDefinition(ts, i) == Ok(iv, n)
  {
    hide ParseOptionalDescription, ParseType, ParseOptionalDefaultValue, ParseOptionalDirectives;
  }

  lemma InputValueFirst(iv: InputValueDefinition)
    ensures ItemStart(FirstOr(PrintInputValueDefinition(iv), None))
  {
    var rest := [Name(iv.name), Punct(Colon)]
      + (PrintType(iv.valueType) + (PrintDefaultValue(iv.defaultValue) + PrintDirectives(iv.directives)));
    assert (PrintDescription(iv.description) + rest)[0]
      == if iv.description.Some? then StringLit(iv.description.value) else Name(iv.name);
  }

  lemma InputValuesFromFirst(list: seq<InputValueDefinition>, k: nat, next: Option<Token>)
    requires k <= |list|
    ensures k < |list| ==> ItemStart(FirstOr(PrintInputValuesFrom(list, k), next))
    ensures k == |list| ==> FirstOr(PrintInputValuesFrom(list, k), next) == next
  {
    if k < |list| {
      var first := PrintInputValueDefinition(list[k]);
      InputValueFirst(list[k]);
      assert PrintInputValuesFrom(list, k) == first + PrintInputValuesFrom(list, k + 1);
      assert (first + PrintInputValuesFrom(list, k + 1))[0] == first[0];
    }
  }

  /** The input-value definitions `list[k..]` are read back by the loop that
      stops at `closer`. */
  lemma {:induction false} InputValueItemsRoundTrip(
    list: seq<InputValueDefinition>, k: nat, closer: Punctuator, ts: seq<Token>, i: nat, end: nat)
    requires closer == RParen || closer == RBrace
    requires k <= |list| && InputValueListOk(list)
    requires Occurs(ts, i, PrintInputValuesFrom(list, k))
    requires end == i + |PrintInputValuesFrom(list, k)| && IsPunct(At(ts, end), closer)
    ensures ParseInputValueItems(ts, i, closer) == Ok(list[k..], end)
    decreases |list| - k
  {
    hide *;
    if k == |list| {
      InputValueItemsEnd(list, k, closer, ts, i, end);
    } else {
      var n := InputValueItemRoundTrip(list, k, closer, ts, i, end);
      InputValueItemsRoundTrip(list, k + 1, closer, ts, n, end);
      SuffixCons(list, k);
      InputValueItemStep(ts, i, list[k], list[k + 1..], closer, n, end);
    }
  }

  lemma InputValueItemsEnd(
    list: seq<InputValueDefinition>, k: nat, closer: Punctuator, ts: seq<Token>, i: nat, end: nat)
    requires k == |list|
    requires Occurs(ts, i, PrintInputValuesFrom(list, k))
    requires end == i + |PrintInputValuesFrom(list, k)| && IsPunct(At(ts, end), closer)
    ensures ParseInputValueItems(ts, i, closer) == Ok(list[k..], end)
  {
    hide ParseInputValueDefinition, PrintInputValueDefinition;
    assert list[k..] == [];
  }

  /** The definition `list[k]` is read back, and the remaining ones follow. */
  lemma InputValueItemRoundTrip(
    list: seq<InputValueDefinition>, k: nat, closer: Punctuator, ts: seq<Token>, i: nat, end: nat) returns (n: nat)
    requires closer == RParen || closer == RBrace
    requires k < |list| && InputValueListOk(list)
    requires Occurs(ts, i, PrintInputValuesFrom(list, k))
    requires end == i + |PrintInputValuesFrom(list, k)| && IsPunct(At(ts, end), closer)
    ensures i < n <= |ts| && !IsPunct(At(ts, i), closer)
    ensures ParseInputValueDefinition(ts, i) == Ok(list[k], n)
    ensures Occurs(ts, n, PrintInputValuesFrom(list, k + 1)) && end == n + |PrintInputValuesFrom(list, k + 1)|
  {
    hide PrintInputValueDefinition, ParseInputValueDefinition;
    var first := PrintInputValueDefinition(list[k]);
    var rest := PrintInputValuesFrom(list, k + 1);
    assert PrintInputValuesFrom(list, k) == first + rest;
    OccursSplit(ts, i, first, rest);
    n := i + |first|;
    InputValueFirst(list[k]);
    OccursFirst(ts, i, first);
    OccursFirst(ts, n, rest);
    InputValuesFromFirst(list, k + 1, At(ts, end));
    ItemFollow(At(ts, n), closer);
    InputValueRoundTrip(list[k], ts, i);
  }

  lemma InputValueItemStep(
    ts: seq<Token>, i: nat, iv: InputValueDefinition, rest: seq<InputValueDefinition>, closer: Punctuator, j: nat, end: nat)
    requires i <= |ts| && !IsPunct(At(ts, i), closer)
    requires ParseInputValueDefinition(ts, i) == Ok(iv, j) && j <= |ts|
    requires ParseInputValueItems(ts, j, closer) == Ok(rest, end)
    ensures ParseInputValueItems(ts, i, closer) == Ok([iv] + rest, end)
  {
    hide ParseInputValueDefinition;
  }

  /** A bracketed, non-empty list of input-value definitions: the first one
      is read back after the opener, and the rest up to the closer. */
  lemma InputValueListRoundTrip(
    list: seq<InputValueDefinition>, opener: Punctuator, closer: Punctuator, ts: seq<Token>, i: nat)
    returns (n: nat, end: nat)
    requires closer == RParen || closer == RBrace
    requires |list| > 0 && InputValueListOk(list)
    requires Occurs(ts, i, PrintInputValues(Some(list), opener, closer))
    ensures i < |ts| && ts[i] == Punct(opener)
    ensures ParseInputValueDefinition(ts, i + 1) == Ok(list[0], n) && n <= |ts|
    ensures ParseInputValueItems(ts, n, closer) == Ok(list[1..], end)
    ensures end + 1 == i + |PrintInputValues(Some(list), opener, closer)|
  {
    hide *;
    InputValuesPrint(list, opener, closer);
    end := OccursBracketed(ts, i, Punct(opener), PrintInputValuesFrom(list, 0), Punct(closer));
    PunctAt(ts, end, closer);
    n := InputValueItemRoundTrip(list, 0, closer, ts, i + 1, end);
    InputValueItemsRoundTrip(list, 1, closer, ts, n, end);
  }

  lemma InputValuesPrint(list: seq<InputValueDefinition>, opener: Punctuator, closer: Punctuator)
    ensures PrintInputValues(Some(list), opener, closer)
      == [Punct(opener)] + (PrintInputValuesFrom(list, 0) + [Punct(closer)])
  {
    hide PrintInputValuesFrom;
  }

  /** Printed arguments definitions are read back; absent ones need a next
      token other than `(`. */
  lemma ArgumentsDefinitionRoundTrip(args: Option<seq<InputValueDefinition>>, ts: seq<Token>, i: nat)
    requires InputValuesOk(args)
    requires Occurs(ts, i, PrintInputValues(args, LParen, RParen))
    requires args.None? ==> !IsPunct(At(ts, i), LParen)
    ensures ParseOptionalArgumentsDefinition(ts, i) == Ok(args, i + |PrintInputValues(args, LParen, RParen)|)
  {
    if args.Some? {
      var list := args.value;
      var n, end := InputValueListRoundTrip(list, LParen, RParen, ts, i);
      SuffixCons(list, 0);
      assert list[0..] == list;
      ArgumentsDefinitionStep(ts, i, list[0], list[1..], n, end);
    }
  }

  lemma ArgumentsDefinitionStep(
    ts: seq<Token>, i: nat, first: InputValueDefinition, rest: seq<InputValueDefinition>, j: nat, k: nat)
    requires i < |ts| && ts[i] == Punct(LParen)
    requires ParseInputValueDefinition(ts, i + 1) == Ok(first, j) && j <= |ts|
    requires ParseInputValueItems(ts, j, RParen) == Ok(rest, k)
    ensures ParseOptionalArgumentsDefinition(ts, i) == Ok(Some([first] + rest), k + 1)
  {
    hide ParseInputValueDefinition, ParseInputValueItems;
    assert ParseInputValuesBlock(ts, i, RParen) == Ok([first] + rest, k + 1);
  }

  /** Printed input fields are read back; absent ones need a next token
      other than `{`. */
  lemma InputFieldsDefinitionRoundTrip(fields: Option<seq<InputValueDefinition>>, ts: seq<Token>, i: nat)
    requires InputValuesOk(fields)
    requires Occurs(ts, i, PrintInputValues(fields, LBrace, RBrace))
    requires fields.None? ==> !IsPunct(At(ts, i), LBrace)
    ensures ParseOptionalInputFieldsDefinition(ts, i) == Ok(fields, i + |PrintInputValues(fields, LBrace, RBrace)|)
  {
    if fields.Some? {
      var list := fields.value;
      var n, end := InputValueListRoundTrip(list, LBrace, RBrace, ts, i);
      SuffixCons(list, 0);
      assert list[0..] == list;
      InputFieldsDefinitionStep(ts, i, list[0], list[1..], n, end);
    }
  }

  lemma InputFieldsDefinitionStep(
    ts: seq<Token>, i: nat, first: InputValueDefinition, rest: seq<InputValueDefinition>, j: nat, k: nat)
    requires i < |ts| && ts[i] == Punct(LBrace)
    requires ParseInputValueDefinition(ts, i + 1) == Ok(first, j) && j <= |ts|
    requires ParseInputValueItems(ts, j, RBrace) == Ok(rest, k)
    ensures ParseOptionalInputFieldsDefinition(ts, i) == Ok(Some([first] + rest), k + 1)
  {
    hide ParseInputValueDefinition, ParseInputValueItems;
    assert ParseInputValuesBlock(ts, i, RBrace) == Ok([first] + rest, k + 1);
  }

  // ------------------------------------------------------- field definitions

  /** Where the parts of a printed field definition lie: the name at `j`,
      the arguments definition up to the `:` at `k`, the type up to `m` and
      the directives up to `n`. */
  lemma FieldDefinitionSplit(f: FieldDefinition, ts: seq<Token>, i: nat) returns (j: nat, k: nat, m: nat, n: nat)
    requires Occurs(ts, i, PrintFieldDefinition(f))
    ensures Occurs(ts, i, PrintDescription(f.description)) && j == i + |PrintDescription(f.description)|
    ensures j < |ts| && ts[j] == Name(f.name)
    ensures Occurs(ts, j + 1, PrintInputValues(f.argumentsDefinition, LParen, RParen))
    ensures k == j + 1 + |PrintInputValues(f.argumentsDefinition, LParen, RParen)|
    ensures k < |ts| && ts[k] == Punct(Colon)
    ensures Occurs(ts, k + 1, PrintType(f.fieldType)) && m == k + 1 + |PrintType(f.fieldType)|
    ensures Occurs(ts, m, PrintDirectives(f.directives)) && n == m + |PrintDirectives(f.directives)|
    ensures n == i + |PrintFieldDefinition(f)|
  {
    hide PrintType, PrintInputValues, PrintDirectives, PrintDescription;
    var d := PrintDescription(f.description);
    var args := PrintInputValues(f.argumentsDefinition, LParen, RParen);
    var t := PrintType(f.fieldType);
    var ds := PrintDirectives(f.directives);
    OccursSplit(ts, i, d, [Name(f.name)] + (args + ([Punct(Colon)] + (t + ds))));
    j := i + |d|;
    OccursSplit(ts, j, [Name(f.name)], args + ([Punct(Colon)] + (t + ds)));
    OccursHead(ts, j, [Name(f.name)]);
    OccursSplit(ts, j + 1, args, [Punct(Colon)] + (t + ds));
    k := j + 1 + |args|;
    OccursSplit(ts, k, [Punct(Colon)], t + ds);
    OccursHead(ts, k, [Punct(Colon)]);
    OccursSplit(ts, k + 1, t, ds);
    m := k + 1 + |t|;
    n := m + |ds|;
  }

  /** What the parser sees between the parts of a printed field definition:
      a name where a description could be, `:` where no arguments definition
      is, no `!` after a nullable type, and nothing that extends the
      directives. */
  lemma FieldDefinitionFollows(f: FieldDefinition, ts: seq<Token>, i: nat, j: nat, k: nat, m: nat, n: nat)
    requires DirectivesOk(f.directives)
    requires Occurs(ts, i, PrintDescription(f.description)) && j == i + |PrintDescription(f.description)|
    requires j < |ts| && ts[j] == Name(f.name)
    requires k == j + 1 + |PrintInputValues(f.argumentsDefinition, LParen, RParen)|
    requires k < |ts| && ts[k] == Punct(Colon)
    requires Occurs(ts, m, PrintDirectives(f.directives)) && n == m + |PrintDirectives(f.directives)|
    requires Clear(At(ts, n), TrailDanger)
    ensures f.description.None? ==> !IsString(At(ts, i))
    ensures f.argumentsDefinition.None? ==> !IsPunct(At(ts, j + 1), LParen)
    ensures Clear(At(ts, m), TypeDanger(f.fieldType))
    ensures Clear(At(ts, n), DirectivesDanger)
  {
    assert f.argumentsDefinition.None? ==> PrintInputValues(f.argumentsDefinition, LParen, RParen) == [];
    assert f.description.None? ==> PrintDescription(f.description) == [];
    hide PrintInputValues, PrintDescription, PrintType;
    OccursFirst(ts, m, PrintDirectives(f.directives));
    DirectivesFirst(f.directives, At(ts, n));
  }

  lemma FieldDefinitionOkParts(f: FieldDefinition)
    requires FieldDefinitionOk(f)
    ensures InputValuesOk(f.argumentsDefinition) && WellFormedType(f.fieldType) && DirectivesOk(f.directives)
  {
  }

  /** A field definition is read back from its printed form, provided what
      follows cannot continue it. */
  lemma FieldDefinitionRoundTrip(f: FieldDefinition, ts: seq<Token>, i: nat)
    requires FieldDefinitionOk(f)
    requires Occurs(ts, i, PrintFieldDefinition(f))
    requires Clear(At(ts, i + |PrintFieldDefinition(f)|), TrailDanger)
    ensures ParseFieldDefinition(ts, i) == Ok(f, i + |PrintFieldDefinition(f)|)
  {
    hide *;
    var j, k, m, n := FieldDefinitionSplit(f, ts, i);
    FieldDefinitionOkParts(f);
    FieldDefinitionFollows(f, ts, i, j, k, m, n);
    DescriptionRoundTrip(f.description, ts, i);
    ArgumentsDefinitionRoundTrip(f.argumentsDefinition, ts, j + 1);
    TypeRoundTrip(f.fieldType, ts, k + 1);
    DirectivesRoundTrip(f.directives, ts, m);
    FieldDefinitionStep(ts, i, f, j, k, m, n);
  }

  lemma FieldDefinitionStep(ts: seq<Token>, i: nat, f: FieldDefinition, j: nat, k: nat, m: nat, n: nat)
    requires ParseOptionalDescription(ts, i) == (f.description, j) && i <= j
    requires j < |ts| && ts[j] == Name(f.name)
    requires ParseOptionalArgumentsDefinition(ts, j + 1) == Ok(f.argumentsDefinition, k)
    requires k < |ts| && ts[k] == Punct(Colon)
    requires ParseType(ts, k + 1) == Ok(f.fieldType, m) && m <= |ts|
    requires ParseOptionalDirectives(ts, m) == Ok(f.directives, n)
    ensures ParseFieldDefinition(ts, i) == Ok(f, n)
  {
    hide ParseOptionalDescription, ParseOptionalArgumentsDefinition, ParseType, ParseOptionalDirectives;
    hide ExpectName, ExpectPunct, Unwrap;
  }

  lemma FieldDefinitionFirst(x: FieldDefinition)
    ensures ItemStart(FirstOr(PrintFieldDefinition(x), None))
  {
    var rest := [Name(x.name)]
      + (PrintInputValues(x.argumentsDefinition, LParen, RParen)
        + ([Punct(Colon)] + (PrintType(x.fieldType) + PrintDirectives(x.directives))));
    assert (PrintDescription(x.description) + rest)[0]
      == if x.description.Some? then StringLit(x.description.value) else Name(x.name);
  }

  lemma FieldDefinitionsFromFirst(list: seq<FieldDefinition>, k: nat, next: Option<Token>)
    requires k <= |list|
    ensures k < |list| ==> ItemStart(FirstOr(PrintFieldDefinitionsFrom(list, k), next))
    ensures k == |list| ==> FirstOr(PrintFieldDefinitionsFrom(list, k), next) == next
  {
    if k < |list| {
      var first := PrintFieldDefinition(list[k]);
      FieldDefinitionFirst(list[k]);
      assert PrintFieldDefinitionsFrom(list, k) == first + PrintFieldDefinitionsFrom(list, k + 1);
      assert (first + PrintFieldDefinitionsFrom(list, k + 1))[0] == first[0];
    }
  }

  /** The field definitions `list[k..]` are read back by the loop that stops at `}`. */
  lemma {:induction false} FieldDefinitionItemsRoundTrip(list: seq<FieldDefinition>, k: nat, ts: seq<Token>, i: nat, end: nat)
    requires k <= |list| && FieldDefinitionListOk(list)
    requires Occurs(ts, i, PrintFieldDefinitionsFrom(list, k))
    requires end == i + |PrintFieldDefinitionsFrom(list, k)| && IsPunct(At(ts, end), RBrace)
    ensures ParseFieldDefinitionItems(ts, i) == Ok(list[k..], end)
    decreases |list| - k
  {
    hide *;
    if k == |list| {
      FieldDefinitionItemsEnd(list, k, ts, i, end);
    } else {
      var n := FieldDefinitionItemRoundTrip(list, k, ts, i, end);
      FieldDefinitionItemsRoundTrip(list, k + 1, ts, n, end);
      SuffixCons(list, k);
      FieldDefinitionItemStep(ts, i, list[k], list[k + 1..], n, end);
    }
  }

  lemma FieldDefinitionItemsEnd(list: seq<FieldDefinition>, k: nat, ts: seq<Token>, i: nat, end: nat)
    requires k == |list|
    requires Occurs(ts, i, PrintFieldDefinitionsFrom(list, k))
    requires end == i + |PrintFieldDefinitionsFrom(list, k)| && IsPunct(At(ts, end), RBrace)
    ensures ParseFieldDefinitionItems(ts, i) == Ok(list[k..], end)
  {
    hide ParseFieldDefinition, PrintFieldDefinition;
    assert list[k..] == [];
  }

  /** The definition `list[k]` is read back, and the remaining ones follow. */
  lemma FieldDefinitionItemRoundTrip(list: seq<FieldDefinition>, k: nat, ts: seq<Token>, i: nat, end: nat) returns (n: nat)
    requires k < |list| && FieldDefinitionListOk(list)
    requires Occurs(ts, i, PrintFieldDefinitionsFrom(list, k))
    requires end == i + |PrintFieldDefinitionsFrom(list, k)| && IsPunct(At(ts, end), RBrace)
    ensures i < n <= |ts| && !IsPunct(At(ts, i), RBrace)
    ensures ParseFieldDefinition(ts, i) == Ok(list[k], n)
    ensures Occurs(ts, n, PrintFieldDefinitionsFrom(list, k + 1)) && end == n + |PrintFieldDefinitionsFrom(list, k + 1)|
  {
    hide PrintFieldDefinition, ParseFieldDefinition;
    var first := PrintFieldDefinition(list[k]);
    var rest := PrintFieldDefinitionsFrom(list, k + 1);
    assert PrintFieldDefinitionsFrom(list, k) == first + rest;
    OccursSplit(ts, i, first, rest);
    n := i + |first|;
    FieldDefinitionFirst(list[k]);
    OccursFirst(ts, i, first);
    OccursFirst(ts, n, rest);
    FieldDefinitionsFromFirst(list, k + 1, At(ts, end));
    ItemFollow(At(ts, n), RBrace);
    FieldDefinitionRoundTrip(list[k], ts, i);
  }

  lemma FieldDefinitionItemStep(ts: seq<Token>, i: nat, x: FieldDefinition, rest: seq<FieldDefinition>, j: nat, end: nat)
    requires i <= |ts| && !IsPunct(At(ts, i), RBrace)
    requires ParseFieldDefinition(ts, i) == Ok(x, j) && j <= |ts|
    requires ParseFieldDefinitionItems(ts, j) == Ok(rest, end)
    ensures ParseFieldDefinitionItems(ts, i) == Ok([x] + rest, end)
  {
    hide ParseFieldDefinition;
  }

  lemma FieldDefinitionsPrint(list: seq<FieldDefinition>)
    ensures PrintFieldsDefinition(Some(list)) == [Punct(LBrace)] + (PrintFieldDefinitionsFrom(list, 0) + [Punct(RBrace)])
  {
    hide PrintFieldDefinitionsFrom;
  }

  /** Printed field definitions are read back; absent ones need a next token other
      than `{`. */
  lemma FieldDefinitionsRoundTrip(opt: Option<seq<FieldDefinition>>, ts: seq<Token>, i: nat)
    requires FieldsDefinitionOk(opt)
    requires Occurs(ts, i, PrintFieldsDefinition(opt))
    requires opt.None? ==> !IsPunct(At(ts, i), LBrace)
    ensures ParseOptionalFieldsDefinition(ts, i) == Ok(opt, i + |PrintFieldsDefinition(opt)|)
  {
    if opt.Some? {
      FieldDefinitionsListRoundTrip(opt.value, ts, i);
    }
  }

  lemma FieldDefinitionsListRoundTrip(list: seq<FieldDefinition>, ts: seq<Token>, i: nat)
    requires |list| > 0 && FieldDefinitionListOk(list)
    requires Occurs(ts, i, PrintFieldsDefinition(Some(list)))
    ensures ParseOptionalFieldsDefinition(ts, i) == Ok(Some(list), i + |PrintFieldsDefinition(Some(list))|)
  {
    hide *;
    FieldDefinitionsPrint(list);
    var end := OccursBracketed(ts, i, Punct(LBrace), PrintFieldDefinitionsFrom(list, 0), Punct(RBrace));
    PunctAt(ts, end, RBrace);
    var n := FieldDefinitionItemRoundTrip(list, 0, ts, i + 1, end);
    FieldDefinitionItemsRoundTrip(list, 1, ts, n, end);
    SuffixCons(list, 0);
    assert list[0..] == list;
    FieldDefinitionsStep(ts, i, list[0], list[1..], n, end);
  }

  lemma FieldDefinitionsStep(ts: seq<Token>, i: nat, first: FieldDefinition, rest: seq<FieldDefinition>, j: nat, k: nat)
    requires i < |ts| && ts[i] == Punct(LBrace)
    requires ParseFieldDefinition(ts, i + 1) == Ok(first, j) && j <= |ts|
    requires ParseFieldDefinitionItems(ts, j) == Ok(rest, k)
    ensures ParseOptionalFieldsDefinition(ts, i) == Ok(Some([first] + rest), k + 1)
  {
    hide ParseFieldDefinition, ParseFieldDefinitionItems;
    assert ParseFieldsBlock(ts, i) == Ok([first] + rest, k + 1);
  }

  // -------------------------------------------------- enum-value definitions

  /** Where the parts of a printed enum-value definition lie: the value at
      `j` and the directives up to `n`. */
  lemma EnumValueSplit(e: EnumValueDefinition, ts: seq<Token>, i: nat) returns (j: nat, n: nat)
    requires Occurs(ts, i, PrintEnumValueDefinition(e))
    ensures Occurs(ts, i, PrintDescription(e.description)) && j == i + |PrintDescription(e.description)|
    ensures j < |ts| && ts[j] == Name(e.enumValue)
    ensures Occurs(ts, j + 1, PrintDirectives(e.directives)) && n == j + 1 + |PrintDirectives(e.directives)|
    ensures n == i + |PrintEnumValueDefinition(e)|
  {
    hide PrintDirectives, PrintDescription;
    var d := PrintDescription(e.description);
    var ds := PrintDirectives(e.directives);
    OccursSplit(ts, i, d, [Name(e.enumValue)] + ds);
    j := i + |d|;
    OccursSplit(ts, j, [Name(e.enumValue)], ds);
    OccursHead(ts, j, [Name(e.enumValue)]);
    n := j + 1 + |ds|;
  }

  lemma EnumValueFollows(e: EnumValueDefinition, ts: seq<Token>, i: nat, j: nat, n: nat)
    requires Occurs(ts, i, PrintDescription(e.description)) && j == i + |PrintDescription(e.description)|
    requires j < |ts| && ts[j] == Name(e.enumValue)
    requires Clear(At(ts, n), TrailDanger)
    ensures e.description.None? ==> !IsString(At(ts, i))
    ensures Clear(At(ts, n), DirectivesDanger)
  {
  }

  lemma EnumValueOkParts(e: EnumValueDefinition)
    requires EnumValueOk(e)
    ensures e.enumValue !in Reserved && DirectivesOk(e.directives)
  {
  }

  /** An enum-value definition is read back from its printed form, provided
      what follows cannot continue it. */
  lemma EnumValueRoundTrip(e: EnumValueDefinition, ts: seq<Token>, i: nat)
    requires EnumValueOk(e)
    requires Occurs(ts, i, PrintEnumValueDefinition(e))
    requires Clear(At(ts, i + |PrintEnumValueDefinition(e)|), TrailDanger)
    ensures ParseEnumValueDefinition(ts, i) == Ok(e, i + |PrintEnumValueDefinition(e)|)
  {
    hide *;
    var j, n := EnumValueSplit(e, ts, i);
    EnumValueOkParts(e);
    EnumValueFollows(e, ts, i, j, n);
    DescriptionRoundTrip(e.description, ts, i);
    DirectivesRoundTrip(e.directives, ts, j + 1);
    EnumValueStep(ts, i, e, j, n);
  }

  lemma EnumValueStep(ts: seq<Token>, i: nat, e: EnumValueDefinition, j: nat, n: nat)
    requires ParseOptionalDescription(ts, i) == (e.description, j) && i <= j
    requires j < |ts| && ts[j] == Name(e.enumValue) && e.enumValue !in Reserved
    requires ParseOptionalDirectives(ts, j + 1) == Ok(e.directives, n)
    ensures ParseEnumValueDefinition(ts, i) == Ok(e, n)
  {
    hide ParseOptionalDescription, ParseOptionalDirectives;
  }

  lemma EnumValueFirst(x: EnumValueDefinition)
    ensures ItemStart(FirstOr(PrintEnumValueDefinition(x), None))
  {
    var rest := [Name(x.enumValue)] + PrintDirectives(x.directives);
    assert (PrintDescription(x.description) + rest)[0]
      == if x.description.Some? then StringLit(x.description.value) else Name(x.enumValue);
  }

  lemma EnumValuesFromFirst(list: seq<EnumValueDefinition>, k: nat, next: Option<Token>)
    requires k <= |list|
    ensures k < |list| ==> ItemStart(FirstOr(PrintEnumValuesFrom(list, k), next))
    ensures k == |list| ==> FirstOr(PrintEnumValuesFrom(list, k), next) == next
  {
    if k < |list| {
      var first := PrintEnumValueDefinition(list[k]);
      EnumValueFirst(list[k]);
      assert PrintEnumValuesFrom(list, k) == first + PrintEnumValuesFrom(list, k + 1);
      assert (first + PrintEnumValuesFrom(list, k + 1))[0] == first[0];
    }
  }

  /** The enum-value definitions `list[k..]` are read back by the loop that stops at `}`. */
  lemma {:induction false} EnumValueItemsRoundTrip(list: seq<EnumValueDefinition>, k: nat, ts: seq<Token>, i: nat, end: nat)
    requires k <= |list| && EnumValueListOk(list)
    requires Occurs(ts, i, PrintEnumValuesFrom(list, k))
    requires end == i + |PrintEnumValuesFrom(list, k)| && IsPunct(At(ts, end), RBrace)
    ensures ParseEnumValueItems(ts, i) == Ok(list[k..], end)
    decreases |list| - k
  {
    hide *;
    if k == |list| {
      EnumValueItemsEnd(list, k, ts, i, end);
    } else {
      var n := EnumValueItemRoundTrip(list, k, ts, i, end);
      EnumValueItemsRoundTrip(list, k + 1, ts, n, end);
      SuffixCons(list, k);
      EnumValueItemStep(ts, i, list[k], list[k + 1..], n, end);
    }
  }

  lemma EnumValueItemsEnd(list: seq<EnumValueDefinition>, k: nat, ts: seq<Token>, i: nat, end: nat)
    requires k == |list|
    requires Occurs(ts, i, PrintEnumValuesFrom(list, k))
    requires end == i + |PrintEnumValuesFrom(list, k)| && IsPunct(At(ts, end), RBrace)
    ensures ParseEnumValueItems(ts, i) == Ok(list[k..], end)
  {
    hide ParseEnumValueDefinition, PrintEnumValueDefinition;
    assert list[k..] == [];
  }

  /** The definition `list[k]` is read back, and the remaining ones follow. */
  lemma EnumValueItemRoundTrip(list: seq<EnumValueDefinition>, k: nat, ts: seq<Token>, i: nat, end: nat) returns (n: nat)
    requires k < |list| && EnumValueListOk(list)
    requires Occurs(ts, i, PrintEnumValuesFrom(list, k))
    requires end == i + |PrintEnumValuesFrom(list, k)| && IsPunct(At(ts, end), RBrace)
    ensures i < n <= |ts| && !IsPunct(At(ts, i), RBrace)
    ensures ParseEnumValueDefinition(ts, i) == Ok(list[k], n)
    ensures Occurs(ts, n, PrintEnumValuesFrom(list, k + 1)) && end == n + |PrintEnumValuesFrom(list, k + 1)|
  {
    hide PrintEnumValueDefinition, ParseEnumValueDefinition;
    var first := PrintEnumValueDefinition(list[k]);
    var rest := PrintEnumValuesFrom(list, k + 1);
    assert PrintEnumValuesFrom(list, k) == first + rest;
    OccursSplit(ts, i, first, rest);
    n := i + |first|;
    EnumValueFirst(list[k]);
    OccursFirst(ts, i, first);
    OccursFirst(ts, n, rest);
    EnumValuesFromFirst(list, k + 1, At(ts, end));
    ItemFollow(At(ts, n), RBrace);
    EnumValueRoundTrip(list[k], ts, i);
  }

  lemma EnumValueItemStep(ts: seq<Token>, i: nat, x: EnumValueDefinition, rest: seq<EnumValueDefinition>, j: nat, end: nat)
    requires i <= |ts| && !IsPunct(At(ts, i), RBrace)
    requires ParseEnumValueDefinition(ts, i) == Ok(x, j) && j <= |ts|
    requires ParseEnumValueItems(ts, j) == Ok(rest, end)
    ensures ParseEnumValueItems(ts, i) == Ok([x] + rest, end)
  {
    hide ParseEnumValueDefinition;
  }

  lemma EnumValuesPrint(list: seq<EnumValueDefinition>)
    ensures PrintEnumValuesDefinition(Some(list)) == [Punct(LBrace)] + (PrintEnumValuesFrom(list, 0) + [Punct(RBrace)])
  {
    hide PrintEnumValuesFrom;
  }

  /** Printed enum-value definitions are read back; absent ones need a next token other
      than `{`. */
  lemma EnumValuesRoundTrip(opt: Option<seq<EnumValueDefinition>>, ts: seq<Token>, i: nat)
    requires EnumValuesOk(opt)
    requires Occurs(ts, i, PrintEnumValuesDefinition(opt))
    requires opt.None? ==> !IsPunct(At(ts, i), LBrace)
    ensures ParseOptionalEnumValuesDefinition(ts, i) == Ok(opt, i + |PrintEnumValuesDefinition(opt)|)
  {
    if opt.Some? {
      EnumValuesListRoundTrip(opt.value, ts, i);
    }
  }

  lemma EnumValuesListRoundTrip(list: seq<EnumValueDefinition>, ts: seq<Token>, i: nat)
    requires |list| > 0 && EnumValueListOk(list)
    requires Occurs(ts, i, PrintEnumValuesDefinition(Some(list)))
    ensures ParseOptionalEnumValuesDefinition(ts, i) == Ok(Some(list), i + |PrintEnumValuesDefinition(Some(list))|)
  {
    hide *;
    EnumValuesPrint(list);
    var end := OccursBracketed(ts, i, Punct(LBrace), PrintEnumValuesFrom(list, 0), Punct(RBrace));
    PunctAt(ts, end, RBrace);
    var n := EnumValueItemRoundTrip(list, 0, ts, i + 1, end);
    EnumValueItemsRoundTrip(list, 1, ts, n, end);
    SuffixCons(list, 0);
    assert list[0..] == list;
    EnumValuesStep(ts, i, list[0], list[1..], n, end);
  }

  lemma EnumValuesStep(ts: seq<Token>, i: nat, first: EnumValueDefinition, rest: seq<EnumValueDefinition>, j: nat, k: nat)
    requires i < |ts| && ts[i] == Punct(LBrace)
    requires ParseEnumValueDefinition(ts, i + 1) == Ok(first, j) && j <= |ts|
    requires ParseEnumValueItems(ts, j) == Ok(rest, k)
    ensures ParseOptionalEnumValuesDefinition(ts, i) == Ok(Some([first] + rest), k + 1)
  {
    hide ParseEnumValueDefinition, ParseEnumValueItems;
  }
}
