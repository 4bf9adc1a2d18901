/**
 Round trips for the executable productions: the printed form of every
 syntax tree in the image of the executable rules parses back to the same
 tree and stops right after it.

 The image is narrower than the datatypes: optional lists are never present
 and empty, a fragment spread is never named `on`, an inline fragment's type
 condition is absent or the word `on`, and a variable definition carries
 directives only after a default value.
 */
module ExecutableRoundTrips {
  import opened Wrappers
  import opened Tokens
  import opened Ast
  import opened Results
  import opened ValueGrammar
  import opened ExecutableGrammar
  import opened Spans
  import opened Printer
  import opened ValueRoundTrips

  // ------------------------------------------------------------ the image

  ghost predicate ArgumentsOk(args: Option<seq<Argument>>) {
    args.Some? ==>
      |args.value| > 0 && forall k :: 0 <= k < |args.value| ==> NoReservedEnum(args.value[k].value)
  }

  ghost predicate DirectiveListOk(list: seq<Directive>) {
    forall k :: 0 <= k < |list| ==> ArgumentsOk(list[k].arguments)
  }

  ghost predicate DirectivesOk(ds: Option<seq<Directive>>) {
    ds.Some? ==> |ds.value| > 0 && DirectiveListOk(ds.value)
  }

  /** What a directive list must not be followed by: another `@` would
      extend it, and `(` would be read as arguments of its last directive. */
  const DirectivesDanger: set<Token> := {Punct(AtSign), Punct(LParen)}

  // ------------------------------------------------------------ arguments

  lemma ArgumentsFirst(args: Option<seq<Argument>>, next: Option<Token>)
    ensures FirstOr(PrintArguments(args), next) == if args.Some? then Some(Punct(LParen)) else next
  {
  }

  /** `name : value` is read back by the argument rule. */
  lemma ArgumentRoundTrip(a: Argument, ts: seq<Token>, i: nat)
    requires NoReservedEnum(a.value)
    requires Occurs(ts, i, PrintArgument(a))
    ensures ParseArgument(ts, i) == Ok(a, i + |PrintArgument(a)|)
  {
    var value := PrintValue(a.value);
    assert PrintArgument(a) == [Name(a.name), Punct(Colon)] + value;
    OccursSplit(ts, i, [Name(a.name), Punct(Colon)], value);
    assert [Name(a.name), Punct(Colon)] == [Name(a.name)] + [Punct(Colon)];
    OccursSplit(ts, i, [Name(a.name)], [Punct(Colon)]);
    OccursHead(ts, i, [Name(a.name)]);
    OccursHead(ts, i + 1, [Punct(Colon)]);
    ValueRoundTrip(a.value, ts, i + 2);
    ArgumentStep(ts, i, a, i + 2 + |value|);
  }

  lemma ArgumentStep(ts: seq<Token>, i: nat, a: Argument, n: nat)
    requires i + 2 <= |ts| && ts[i] == Name(a.name) && ts[i + 1] == Punct(Colon)
    requires ParseValue(ts, i + 2) == Ok(a.value, n)
    ensures ParseArgument(ts, i) == Ok(a, n)
  {
    assert ExpectPunct(ts, i + 1, Colon, "") == Ok((), i + 2);
  }

  /** The arguments `list[k..]` are read back by the loop that stops at `)`. */
  lemma {:induction false} ArgumentItemsRoundTrip(list: seq<Argument>, k: nat, ts: seq<Token>, i: nat, end: nat)
    requires k <= |list| && forall j :: 0 <= j < |list| ==> NoReservedEnum(list[j].value)
    requires Occurs(ts, i, PrintArgumentsFrom(list, k))
    requires end == i + |PrintArgumentsFrom(list, k)| && IsPunct(At(ts, end), RParen)
    ensures ParseArgumentItems(ts, i) == Ok(list[k..], end)
    decreases |list| - k
  {
    hide *;
    if k == |list| {
      ArgumentItemsEnd(list, k, ts, i, end);
    } else {
      var n := ArgumentItemRoundTrip(list, k, ts, i, end);
      ArgumentItemsRoundTrip(list, k + 1, ts, n, end);
      SuffixCons(list, k);
      ArgumentItemStep(ts, i, list[k], list[k + 1..], n, end);
    }
  }

  /** At the closing `)` the loop stops. */
  lemma ArgumentItemsEnd(list: seq<Argument>, k: nat, ts: seq<Token>, i: nat, end: nat)
    requires k == |list|
    requires Occurs(ts, i, PrintArgumentsFrom(list, k))
    requires end == i + |PrintArgumentsFrom(list, k)| && IsPunct(At(ts, end), RParen)
    ensures ParseArgumentItems(ts, i) == Ok(list[k..], end)
  {
    hide ParseArgument, PrintArgument;
    assert list[k..] == [];
  }

  /** The argument `list[k]` is read back, and the remaining ones follow it. */
  lemma ArgumentItemRoundTrip(list: seq<Argument>, k: nat, ts: seq<Token>, i: nat, end: nat) returns (n: nat)
    requires k < |list| && NoReservedEnum(list[k].value)
    requires Occurs(ts, i, PrintArgumentsFrom(list, k))
    requires end == i + |PrintArgumentsFrom(list, k)|
    ensures i < n <= |ts| && !IsPunct(At(ts, i), RParen)
    ensures ParseArgument(ts, i) == Ok(list[k], n)
    ensures Occurs(ts, n, PrintArgumentsFrom(list, k + 1)) && end == n + |PrintArgumentsFrom(list, k + 1)|
  {
    var first := PrintArgument(list[k]);
    var rest := PrintArgumentsFrom(list, k + 1);
    assert PrintArgumentsFrom(list, k) == first + rest;
    OccursSplit(ts, i, first, rest);
    assert first == [Name(list[k].name)] + ([Punct(Colon)] + PrintValue(list[k].value));
    OccursHead(ts, i, first);
    ArgumentRoundTrip(list[k], ts, i);
    n := i + |first|;
  }

  lemma ArgumentItemStep(ts: seq<Token>, i: nat, a: Argument, rest: seq<Argument>, j: nat, end: nat)
    requires i <= |ts| && !IsPunct(At(ts, i), RParen)
    requires ParseArgument(ts, i) == Ok(a, j) && j <= |ts|
    requires ParseArgumentItems(ts, j) == Ok(rest, end)
    ensures ParseArgumentItems(ts, i) == Ok([a] + rest, end)
  {
  }

  /** Printed arguments are read back; absent arguments need a next token
      other than `(`. */
  lemma ArgumentsRoundTrip(args: Option<seq<Argument>>, ts: seq<Token>, i: nat)
    requires ArgumentsOk(args)
    requires Occurs(ts, i, PrintArguments(args))
    requires args.None? ==> i <= |ts| && !IsPunct(At(ts, i), LParen)
    ensures ParseOptionalArguments(ts, i) == Ok(args, i + |PrintArguments(args)|)
  {
    if args.Some? {
      ArgumentListRoundTrip(args.value, ts, i);
    }
  }

  lemma ArgumentListRoundTrip(list: seq<Argument>, ts: seq<Token>, i: nat)
    requires |list| > 0 && forall k :: 0 <= k < |list| ==> NoReservedEnum(list[k].value)
    requires Occurs(ts, i, PrintArguments(Some(list)))
    ensures ParseOptionalArguments(ts, i) == Ok(Some(list), i + |PrintArguments(Some(list))|)
  {
    hide *;
    var first := PrintArgument(list[0]);
    var end := ArgumentsSplit(list, ts, i);
    ArgumentRoundTrip(list[0], ts, i + 1);
    ArgumentItemsRoundTrip(list, 1, ts, i + 1 + |first|, end);
    SuffixCons(list, 0);
    assert list[0..] == list;
    ArgumentsStep(ts, i, list[0], list[1..], i + 1 + |first|, end);
  }

  /** `( first rest )`: where the first argument and the remaining ones lie. */
  lemma ArgumentsSplit(list: seq<Argument>, ts: seq<Token>, i: nat) returns (end: nat)
    requires |list| > 0
    requires Occurs(ts, i, PrintArguments(Some(list)))
    ensures var first := PrintArgument(list[0]);
      && ts[i] == Punct(LParen)
      && Occurs(ts, i + 1, first) && Occurs(ts, i + 1 + |first|, PrintArgumentsFrom(list, 1))
      && end == i + 1 + |first| + |PrintArgumentsFrom(list, 1)|
      && end + 1 == i + |PrintArguments(Some(list))|
      && end < |ts| && ts[end] == Punct(RParen)
      && IsPunct(At(ts, end), RParen)
  {
    var items := PrintArgumentsFrom(list, 0);
    OccursSplit(ts, i, [Punct(LParen)], items + [Punct(RParen)]);
    OccursHead(ts, i, [Punct(LParen)]);
    OccursNext(ts, i + 1, items, Punct(RParen));
    var first := PrintArgument(list[0]);
    assert items == first + PrintArgumentsFrom(list, 1);
    OccursSplit(ts, i + 1, first, PrintArgumentsFrom(list, 1));
    end := i + 1 + |items|;
  }

  lemma ArgumentsStep(ts: seq<Token>, i: nat, first: Argument, rest: seq<Argument>, j: nat, k: nat)
    requires i <= |ts| && IsPunct(At(ts, i), LParen)
    requires ParseArgument(ts, i + 1) == Ok(first, j) && j <= |ts|
    requires ParseArgumentItems(ts, j) == Ok(rest, k)
    ensures ParseOptionalArguments(ts, i) == Ok(Some([first] + rest), k + 1)
  {
  }

  // ----------------------------------------------------------- directives

  lemma DirectivesFromFirst(list: seq<Directive>, k: nat, next: Option<Token>)
    requires k <= |list|
    ensures FirstOr(PrintDirectivesFrom(list, k), next) ==
      if k < |list| then Some(Punct(AtSign)) else next
  {
    if k < |list| {
      assert PrintDirectivesFrom(list, k) == PrintDirective(list[k]) + PrintDirectivesFrom(list, k + 1);
    }
  }

  lemma DirectivesFirst(ds: Option<seq<Directive>>, next: Option<Token>)
    requires DirectivesOk(ds)
    ensures FirstOr(PrintDirectives(ds), next) == if ds.Some? then Some(Punct(AtSign)) else next
  {
    if ds.Some? {
      DirectivesFromFirst(ds.value, 0, next);
    }
  }

  /** `@ name` and its arguments, followed by the directives after it. The
      token after the arguments is never `(`. */
  lemma DirectiveSplit(list: seq<Directive>, k: nat, ts: seq<Token>, i: nat, end: nat)
    requires k < |list| && DirectiveListOk(list)
    requires Occurs(ts, i, PrintDirectivesFrom(list, k))
    requires end == i + |PrintDirectivesFrom(list, k)| && Clear(At(ts, end), DirectivesDanger)
    ensures i + 2 <= |ts| && ts[i] == Punct(AtSign) && ts[i + 1] == Name(list[k].name) && IsPunct(At(ts, i), AtSign)
    ensures ArgumentsOk(list[k].arguments) && Occurs(ts, i + 2, PrintArguments(list[k].arguments))
    ensures i + 2 + |PrintArguments(list[k].arguments)| <= |ts|
    ensures list[k].arguments.None? ==> i + 2 <= |ts| && !IsPunct(At(ts, i + 2), LParen)
    ensures Occurs(ts, i + 2 + |PrintArguments(list[k].arguments)|, PrintDirectivesFrom(list, k + 1))
    ensures end == i + 2 + |PrintArguments(list[k].arguments)| + |PrintDirectivesFrom(list, k + 1)|
  {
    hide *;
    DirectivePrint(list, k);
    var d := list[k];
    var head := [Punct(AtSign), Name(d.name)];
    var args := PrintArguments(d.arguments);
    var rest := PrintDirectivesFrom(list, k + 1);
    OccursSplit(ts, i, head, args + rest);
    OccursPair(ts, i, head[0], head[1]);
    OccursSplit(ts, i + 2, args, rest);
    OccursFirst(ts, i + 2 + |args|, rest);
    DirectivesFromFirst(list, k + 1, At(ts, end));
    DirectiveFollows(ts, i, i + 2 + |args|, end, FirstOr(rest, At(ts, end)), d.arguments.None?);
  }

  lemma DirectivePrint(list: seq<Directive>, k: nat)
    requires k < |list| && DirectiveListOk(list)
    ensures PrintDirectivesFrom(list, k) ==
      [Punct(AtSign), Name(list[k].name)] + (PrintArguments(list[k].arguments) + PrintDirectivesFrom(list, k + 1))
    ensures ArgumentsOk(list[k].arguments)
    ensures list[k].arguments.None? ==> |PrintArguments(list[k].arguments)| == 0
  {
    hide PrintValue, PrintArgumentsFrom, PrintArgument;
    assert PrintDirectivesFrom(list, k) == PrintDirective(list[k]) + PrintDirectivesFrom(list, k + 1);
  }

  /** The `@` that opens a directive, and the token after its arguments: the
      `@` of the next directive or the token after all of them, never `(`. */
  lemma DirectiveFollows(ts: seq<Token>, i: nat, m: nat, end: nat, after: Option<Token>, bare: bool)
    requires i + 2 <= |ts| && ts[i] == Punct(AtSign)
    requires At(ts, m) == after
    requires after == Some(Punct(AtSign)) || after == At(ts, end)
    requires Clear(At(ts, end), DirectivesDanger)
    requires bare ==> m == i + 2
    ensures IsPunct(At(ts, i), AtSign)
    ensures bare ==> !IsPunct(At(ts, i + 2), LParen)
  {
  }

  /** The directives `list[k..]` are read back by the loop that stops at the
      first token other than `@`. */
  lemma {:induction false} DirectiveListRoundTrip(list: seq<Directive>, k: nat, ts: seq<Token>, i: nat, end: nat)
    requires k <= |list| && DirectiveListOk(list)
    requires Occurs(ts, i, PrintDirectivesFrom(list, k))
    requires end == i + |PrintDirectivesFrom(list, k)| && Clear(At(ts, end), DirectivesDanger)
    ensures ParseDirectiveList(ts, i) == Ok(list[k..], end)
    decreases |list| - k
  {
    hide *;
    if k == |list| {
      DirectiveListEnd(list, k, ts, i, end);
    } else {
      var n := DirectiveItemRoundTrip(list, k, ts, i, end);
      DirectiveListRoundTrip(list, k + 1, ts, n, end);
      SuffixCons(list, k);
      DirectiveListStep(ts, i, list[k], list[k + 1..], n, end);
    }
  }

  /** Past the last directive the loop stops, since no `@` follows. */
  lemma DirectiveListEnd(list: seq<Directive>, k: nat, ts: seq<Token>, i: nat, end: nat)
    requires k == |list|
    requires Occurs(ts, i, PrintDirectivesFrom(list, k))
    requires end == i + |PrintDirectivesFrom(list, k)| && Clear(At(ts, end), DirectivesDanger)
    ensures ParseDirectiveList(ts, i) == Ok(list[k..], end)
  {
    assert list[k..] == [];
  }

  /** The directive `list[k]` is read back, and the remaining ones follow it. */
  lemma DirectiveItemRoundTrip(list: seq<Directive>, k: nat, ts: seq<Token>, i: nat, end: nat) returns (n: nat)
    requires k < |list| && DirectiveListOk(list)
    requires Occurs(ts, i, PrintDirectivesFrom(list, k))
    requires end == i + |PrintDirectivesFrom(list, k)| && Clear(At(ts, end), DirectivesDanger)
    ensures i < n <= |ts| && IsPunct(At(ts, i), AtSign)
    ensures ParseDirective(ts, i) == Ok(list[k], n)
    ensures Occurs(ts, n, PrintDirectivesFrom(list, k + 1)) && end == n + |PrintDirectivesFrom(list, k + 1)|
  {
    hide *;
    DirectiveSplit(list, k, ts, i, end);
    var d := list[k];
    n := i + 2 + |PrintArguments(d.arguments)|;
    ArgumentsRoundTrip(d.arguments, ts, i + 2);
    DirectiveStep(ts, i, d.name, d.arguments, n);
  }

  lemma DirectiveStep(ts: seq<Token>, i: nat, name: string, args: Option<seq<Argument>>, n: nat)
    requires i + 2 <= |ts| && ts[i] == Punct(AtSign) && ts[i + 1] == Name(name)
    requires ParseOptionalArguments(ts, i + 2) == Ok(args, n)
    ensures ParseDirective(ts, i) == Ok(Directive(name, args), n)
  {
  }

  lemma DirectiveListStep(ts: seq<Token>, i: nat, d: Directive, rest: seq<Directive>, n: nat, end: nat)
    requires IsPunct(At(ts, i), AtSign)
    requires ParseDirective(ts, i) == Ok(d, n) && n <= |ts|
    requires ParseDirectiveList(ts, n) == Ok(rest, end)
    ensures ParseDirectiveList(ts, i) == Ok([d] + rest, end)
  {
  }

  /** Printed directives are read back, provided the next token neither
      starts another directive nor opens arguments. */
  lemma DirectivesRoundTrip(ds: Option<seq<Directive>>, ts: seq<Token>, i: nat)
    requires DirectivesOk(ds)
    requires Occurs(ts, i, PrintDirectives(ds))
    requires Clear(At(ts, i + |PrintDirectives(ds)|), DirectivesDanger)
    ensures ParseOptionalDirectives(ts, i) == Ok(ds, i + |PrintDirectives(ds)|)
  {
    if ds.Some? {
      var list := ds.value;
      DirectiveListRoundTrip(list, 0, ts, i, i + |PrintDirectives(ds)|);
      assert list[0..] == list;
      DirectivesFirst(ds, None);
      OccursHead(ts, i, PrintDirectives(ds));
    }
  }

  // ------------------------------------------------- variable definitions

  ghost predicate VariableDefinitionOk(vd: VariableDefinition) {
    && WellFormedType(vd.varType)
    && (vd.defaultValue.Some? ==> NoReservedEnum(vd.defaultValue.value))
    && (vd.directives.Some? ==> vd.defaultValue.Some?)
    && DirectivesOk(vd.directives)
  }

  ghost predicate VariableDefinitionListOk(list: seq<VariableDefinition>) {
    forall k :: 0 <= k < |list| ==> VariableDefinitionOk(list[k])
  }

  ghost predicate VariableDefinitionsOk(vds: Option<seq<VariableDefinition>>) {
    vds.Some? ==> |vds.value| > 0 && VariableDefinitionListOk(vds.value)
  }

  /** What a variable definition must not be followed by: without a default
      value, `=` would start one and `!` could extend the type; with one, the
      directives must end where the definition does. */
  function VariableDefinitionDanger(vd: VariableDefinition): set<Token> {
    if vd.defaultValue.None? then TypeDanger(vd.varType) + {Punct(Equals)} else DirectivesDanger
  }

  /** `$ name :`, the type, the default value and the directives. */
  lemma VariableDefinitionSplit(vd: VariableDefinition, ts: seq<Token>, i: nat)
    requires Occurs(ts, i, PrintVariableDefinition(vd))
    ensures i + 3 <= |ts| && ts[i] == Punct(Dollar) && ts[i + 1] == Name(vd.variable) && ts[i + 2] == Punct(Colon)
    ensures Occurs(ts, i + 3, PrintType(vd.varType))
    ensures Occurs(ts, i + 3 + |PrintType(vd.varType)|, PrintDefaultValue(vd.defaultValue))
    ensures Occurs(ts, i + 3 + |PrintType(vd.varType)| + |PrintDefaultValue(vd.defaultValue)|, PrintDirectives(vd.directives))
    ensures |PrintVariableDefinition(vd)|
      == 3 + |PrintType(vd.varType)| + |PrintDefaultValue(vd.defaultValue)| + |PrintDirectives(vd.directives)|
  {
    hide PrintType, PrintDefaultValue, PrintDirectives, PrintValue;
    var head := [Punct(Dollar), Name(vd.variable), Punct(Colon)];
    var t := PrintType(vd.varType);
    var dv := PrintDefaultValue(vd.defaultValue);
    var ds := PrintDirectives(vd.directives);
    OccursSplit(ts, i, head, t + (dv + ds));
    OccursTriple(ts, i, Punct(Dollar), Name(vd.variable), Punct(Colon));
    OccursSplit(ts, i + 3, t, dv + ds);
    OccursSplit(ts, i + 3 + |t|, dv, ds);
  }

  /** The variable-definition rule reads back every printed definition,
      provided what follows cannot continue it. */
  lemma VariableDefinitionRoundTrip(vd: VariableDefinition, ts: seq<Token>, i: nat)
    requires VariableDefinitionOk(vd)
    requires Occurs(ts, i, PrintVariableDefinition(vd))
    requires Clear(At(ts, i + |PrintVariableDefinition(vd)|), VariableDefinitionDanger(vd))
    ensures ParseVariableDefinition(ts, i) == Ok(vd, i + |PrintVariableDefinition(vd)|)
  {
    hide *;
    VariableDefinitionSplit(vd, ts, i);
    VariableDefinitionOkParts(vd);
    var l := i + 3 + |PrintType(vd.varType)|;
    TypeEndClear(vd, ts, l);
    VariableDefinitionParts(vd, ts, i, l);
  }

  /** A variable definition laid out as printed: the head, a type ending at
      `l`, and the tail after it. */
  lemma VariableDefinitionParts(vd: VariableDefinition, ts: seq<Token>, i: nat, l: nat)
    requires VariableDefinitionOk(vd) && WellFormedType(vd.varType)
    requires i + 3 <= |ts| && ts[i] == Punct(Dollar) && ts[i + 1] == Name(vd.variable) && ts[i + 2] == Punct(Colon)
    requires Occurs(ts, i + 3, PrintType(vd.varType)) && l == i + 3 + |PrintType(vd.varType)|
    requires Clear(At(ts, l), TypeDanger(vd.varType))
    requires Occurs(ts, l, PrintDefaultValue(vd.defaultValue))
    requires Occurs(ts, l + |PrintDefaultValue(vd.defaultValue)|, PrintDirectives(vd.directives))
    requires Clear(At(ts, l + |PrintDefaultValue(vd.defaultValue)| + |PrintDirectives(vd.directives)|),
      VariableDefinitionDanger(vd))
    ensures ParseVariableDefinition(ts, i)
      == Ok(vd, l + |PrintDefaultValue(vd.defaultValue)| + |PrintDirectives(vd.directives)|)
  {
    hide *;
    TypeRoundTrip(vd.varType, ts, i + 3);
    VariableDefinitionStep(ts, i, vd.variable, vd.varType, l);
    DefaultTailRoundTrip(vd, ts, l);
  }

  lemma VariableDefinitionOkParts(vd: VariableDefinition)
    requires VariableDefinitionOk(vd)
    ensures WellFormedType(vd.varType) && (vd.defaultValue.None? ==> vd.directives.None?)
  {
  }

  /** After the type of a printed variable definition the parser sees no `!`
      unless the type is non-null: either the `=` of a default value or
      whatever follows the definition. */
  lemma TypeEndClear(vd: VariableDefinition, ts: seq<Token>, l: nat)
    requires vd.defaultValue.None? ==> vd.directives.None?
    requires Occurs(ts, l, PrintDefaultValue(vd.defaultValue))
    requires Clear(At(ts, l + |PrintDefaultValue(vd.defaultValue)| + |PrintDirectives(vd.directives)|),
      VariableDefinitionDanger(vd))
    ensures Clear(At(ts, l), TypeDanger(vd.varType))
  {
    if vd.defaultValue.Some? {
      OccursHead(ts, l, PrintDefaultValue(vd.defaultValue));
    }
  }

  /** The optional default value and directives after the type. */
  lemma DefaultTailRoundTrip(vd: VariableDefinition, ts: seq<Token>, l: nat)
    requires VariableDefinitionOk(vd)
    requires Occurs(ts, l, PrintDefaultValue(vd.defaultValue))
    requires Occurs(ts, l + |PrintDefaultValue(vd.defaultValue)|, PrintDirectives(vd.directives))
    requires Clear(At(ts, l + |PrintDefaultValue(vd.defaultValue)| + |PrintDirectives(vd.directives)|),
      VariableDefinitionDanger(vd))
    ensures ParseVariableDefinitionTail(ts, l, vd.variable, vd.varType)
      == Ok(vd, l + |PrintDefaultValue(vd.defaultValue)| + |PrintDirectives(vd.directives)|)
  {
    if vd.defaultValue.None? {
      assert vd == VariableDefinition(vd.variable, vd.varType, None, None);
    } else {
      DefaultValueRoundTrip(vd.variable, vd.varType, vd.defaultValue.value, vd.directives, ts, l);
    }
  }

  lemma DefaultValueRoundTrip(name: string, t: Type, v: Value, ds: Option<seq<Directive>>, ts: seq<Token>, l: nat)
    requires NoReservedEnum(v) && DirectivesOk(ds)
    requires Occurs(ts, l, [Punct(Equals)] + PrintValue(v))
    requires Occurs(ts, l + 1 + |PrintValue(v)|, PrintDirectives(ds))
    requires Clear(At(ts, l + 1 + |PrintValue(v)| + |PrintDirectives(ds)|), DirectivesDanger)
    ensures ParseVariableDefinitionTail(ts, l, name, t)
      == Ok(VariableDefinition(name, t, Some(v), ds), l + 1 + |PrintValue(v)| + |PrintDirectives(ds)|)
  {
    hide PrintValue, PrintDirectives, ParseVariableDefinitionTail;
    OccursSplit(ts, l, [Punct(Equals)], PrintValue(v));
    OccursHead(ts, l, [Punct(Equals)]);
    DefaultValueParts(name, t, v, ds, ts, l, l + 1 + |PrintValue(v)|);
  }

  /** `=`, a value ending at `m`, and directives after it. */
  lemma DefaultValueParts(name: string, t: Type, v: Value, ds: Option<seq<Directive>>, ts: seq<Token>, l: nat, m: nat)
    requires NoReservedEnum(v) && DirectivesOk(ds)
    requires l < |ts| && ts[l] == Punct(Equals)
    requires Occurs(ts, l + 1, PrintValue(v)) && m == l + 1 + |PrintValue(v)|
    requires Occurs(ts, m, PrintDirectives(ds))
    requires Clear(At(ts, m + |PrintDirectives(ds)|), DirectivesDanger)
    ensures ParseVariableDefinitionTail(ts, l, name, t)
      == Ok(VariableDefinition(name, t, Some(v), ds), m + |PrintDirectives(ds)|)
  {
    hide *;
    ValueRoundTrip(v, ts, l + 1);
    DirectivesRoundTrip(ds, ts, m);
    DefaultValueStep(ts, l, name, t, v, m, ds, m + |PrintDirectives(ds)|);
  }

  lemma VariableDefinitionStep(ts: seq<Token>, i: nat, name: string, t: Type, l: nat)
    requires i + 3 <= |ts| && ts[i] == Punct(Dollar) && ts[i + 1] == Name(name) && ts[i + 2] == Punct(Colon)
    requires ParseType(ts, i + 3) == Ok(t, l) && l <= |ts|
    ensures ParseVariableDefinition(ts, i) == ParseVariableDefinitionTail(ts, l, name, t)
  {
    hide ParseType, ParseVariableDefinitionTail;
  }

  lemma DefaultValueStep(
    ts: seq<Token>, l: nat, name: string, t: Type,
    v: Value, m: nat, ds: Option<seq<Directive>>, n: nat)
    requires l < |ts| && ts[l] == Punct(Equals)
    requires ParseValue(ts, l + 1) == Ok(v, m) && m <= |ts|
    requires ParseOptionalDirectives(ts, m) == Ok(ds, n)
    ensures ParseVariableDefinitionTail(ts, l, name, t) == Ok(VariableDefinition(name, t, Some(v), ds), n)
  {
  }

  // ------------------------------------------- lists of variable definitions

  lemma VariableDefinitionsFromFirst(list: seq<VariableDefinition>, k: nat, next: Option<Token>)
    requires k <= |list|
    ensures FirstOr(PrintVariableDefinitionsFrom(list, k), next) ==
      if k < |list| then Some(Punct(Dollar)) else next
  {
    if k < |list| {
      assert PrintVariableDefinitionsFrom(list, k)
        == PrintVariableDefinition(list[k]) + PrintVariableDefinitionsFrom(list, k + 1);
    }
  }

  /** The definition `list[k]` and the ones after it, inside the parentheses
      that close at `end`. Whatever follows a definition there is `$` or `)`,
      neither of which can continue it. */
  lemma VariableDefinitionItemSplit(list: seq<VariableDefinition>, k: nat, ts: seq<Token>, i: nat, end: nat)
    requires k < |list| && VariableDefinitionListOk(list)
    requires Occurs(ts, i, PrintVariableDefinitionsFrom(list, k))
    requires end == i + |PrintVariableDefinitionsFrom(list, k)| && IsPunct(At(ts, end), RParen)
    ensures VariableDefinitionOk(list[k]) && IsPunct(At(ts, i), Dollar)
    ensures Occurs(ts, i, PrintVariableDefinition(list[k]))
    ensures Clear(At(ts, i + |PrintVariableDefinition(list[k])|), VariableDefinitionDanger(list[k]))
    ensures Occurs(ts, i + |PrintVariableDefinition(list[k])|, PrintVariableDefinitionsFrom(list, k + 1))
    ensures end == i + |PrintVariableDefinition(list[k])| + |PrintVariableDefinitionsFrom(list, k + 1)|
    ensures i < i + |PrintVariableDefinition(list[k])| <= |ts|
  {
    hide PrintType, PrintDefaultValue, PrintDirectives, PrintValue;
    var first := PrintVariableDefinition(list[k]);
    var rest := PrintVariableDefinitionsFrom(list, k + 1);
    assert PrintVariableDefinitionsFrom(list, k) == first + rest;
    OccursSplit(ts, i, first, rest);
    OccursHead(ts, i, first);
    OccursFirst(ts, i + |first|, rest);
    VariableDefinitionsFromFirst(list, k + 1, At(ts, end));
  }

  /** The definition `list[k]` is read back, and the remaining ones follow it. */
  lemma VariableDefinitionItemRoundTrip(list: seq<VariableDefinition>, k: nat, ts: seq<Token>, i: nat, end: nat)
    returns (n: nat)
    requires k < |list| && VariableDefinitionListOk(list)
    requires Occurs(ts, i, PrintVariableDefinitionsFrom(list, k))
    requires end == i + |PrintVariableDefinitionsFrom(list, k)| && IsPunct(At(ts, end), RParen)
    ensures i < n <= |ts| && IsPunct(At(ts, i), Dollar)
    ensures ParseVariableDefinition(ts, i) == Ok(list[k], n)
    ensures Occurs(ts, n, PrintVariableDefinitionsFrom(list, k + 1))
    ensures end == n + |PrintVariableDefinitionsFrom(list, k + 1)|
  {
    hide *;
    VariableDefinitionItemSplit(list, k, ts, i, end);
    VariableDefinitionRoundTrip(list[k], ts, i);
    n := i + |PrintVariableDefinition(list[k])|;
  }

  /** The definitions `list[k..]` are read back by the loop that stops at the
      first token that does not start one. */
  lemma {:induction false} VariableDefinitionItemsRoundTrip(
    list: seq<VariableDefinition>, k: nat, ts: seq<Token>, i: nat, end: nat)
    requires k <= |list| && VariableDefinitionListOk(list)
    requires Occurs(ts, i, PrintVariableDefinitionsFrom(list, k))
    requires end == i + |PrintVariableDefinitionsFrom(list, k)| && IsPunct(At(ts, end), RParen)
    ensures ParseVariableDefinitionItems(ts, i) == Ok(list[k..], end)
    decreases |list| - k
  {
    hide *;
    if k == |list| {
      VariableDefinitionItemsEnd(list, k, ts, i, end);
    } else {
      var n := VariableDefinitionItemRoundTrip(list, k, ts, i, end);
      VariableDefinitionItemsRoundTrip(list, k + 1, ts, n, end);
      SuffixCons(list, k);
      VariableDefinitionItemStep(ts, i, list[k], list[k + 1..], n, end);
    }
  }

  /** At the closing `)` no definition starts, so the loop stops. */
  lemma VariableDefinitionItemsEnd(list: seq<VariableDefinition>, k: nat, ts: seq<Token>, i: nat, end: nat)
    requires k == |list|
    requires Occurs(ts, i, PrintVariableDefinitionsFrom(list, k))
    requires end == i + |PrintVariableDefinitionsFrom(list, k)| && IsPunct(At(ts, end), RParen)
    ensures ParseVariableDefinitionItems(ts, i) == Ok(list[k..], end)
  {
    hide ParseVariableDefinition, PrintVariableDefinition;
    assert list[k..] == [];
  }

  lemma VariableDefinitionItemStep(
    ts: seq<Token>, i: nat, vd: VariableDefinition, rest: seq<VariableDefinition>, n: nat, end: nat)
    requires i <= |ts| && ParseVariableDefinition(ts, i) == Ok(vd, n) && n <= |ts|
    requires ParseVariableDefinitionItems(ts, n) == Ok(rest, end)
    ensures ParseVariableDefinitionItems(ts, i) == Ok([vd] + rest, end)
  {
    hide ParseVariableDefinition;
  }

  /** `(`, the definitions, and the `)` at `end`. */
  lemma VariableDefinitionsSplit(list: seq<VariableDefinition>, ts: seq<Token>, i: nat) returns (end: nat)
    requires Occurs(ts, i, PrintVariableDefinitions(Some(list)))
    ensures i <= |ts| && IsPunct(At(ts, i), LParen)
    ensures Occurs(ts, i + 1, PrintVariableDefinitionsFrom(list, 0))
    ensures end == i + 1 + |PrintVariableDefinitionsFrom(list, 0)| && IsPunct(At(ts, end), RParen)
    ensures end + 1 == i + |PrintVariableDefinitions(Some(list))|
  {
    hide PrintVariableDefinition;
    var items := PrintVariableDefinitionsFrom(list, 0);
    OccursSplit(ts, i, [Punct(LParen)], items + [Punct(RParen)]);
    OccursHead(ts, i, [Punct(LParen)]);
    OccursNext(ts, i + 1, items, Punct(RParen));
    end := i + 1 + |items|;
  }

  lemma VariableDefinitionListRoundTrip(list: seq<VariableDefinition>, ts: seq<Token>, i: nat)
    requires |list| > 0 && VariableDefinitionListOk(list)
    requires Occurs(ts, i, PrintVariableDefinitions(Some(list)))
    ensures ParseOptionalVariableDefinitions(ts, i) == Ok(Some(list), i + |PrintVariableDefinitions(Some(list))|)
  {
    hide *;
    var end := VariableDefinitionsSplit(list, ts, i);
    var n := VariableDefinitionItemRoundTrip(list, 0, ts, i + 1, end);
    VariableDefinitionItemsRoundTrip(list, 1, ts, n, end);
    SuffixCons(list, 0);
    assert list[0..] == list;
    VariableDefinitionsStep(ts, i, list[0], list[1..], n, end);
  }

  lemma VariableDefinitionsStep(
    ts: seq<Token>, i: nat, first: VariableDefinition, rest: seq<VariableDefinition>, j: nat, k: nat)
    requires i <= |ts| && IsPunct(At(ts, i), LParen)
    requires ParseVariableDefinition(ts, i + 1) == Ok(first, j) && j <= |ts|
    requires ParseVariableDefinitionItems(ts, j) == Ok(rest, k) && IsPunct(At(ts, k), RParen)
    ensures ParseOptionalVariableDefinitions(ts, i) == Ok(Some([first] + rest), k + 1)
  {
    hide ParseVariableDefinition, ParseVariableDefinitionItems;
  }

  /** Printed variable definitions are read back; absent ones need a next
      token other than `(`. */
  lemma VariableDefinitionsRoundTrip(vds: Option<seq<VariableDefinition>>, ts: seq<Token>, i: nat)
    requires VariableDefinitionsOk(vds)
    requires Occurs(ts, i, PrintVariableDefinitions(vds))
    requires vds.None? ==> i <= |ts| && !IsPunct(At(ts, i), LParen)
    ensures ParseOptionalVariableDefinitions(ts, i) == Ok(vds, i + |PrintVariableDefinitions(vds)|)
  {
    if vds.Some? {
      VariableDefinitionListRoundTrip(vds.value, ts, i);
    }
  }
}
