/**
 Round trips for the executable definitions: every printed operation or
 fragment definition in the image of the rules parses back to the same
 definition and stops right after its closing `}`.

 The image: an operation carries both its type and its name (the rule
 requires both), and the parts inside are in the image of their own rules.
 A fragment definition may be named `on`.
 */
module DefinitionRoundTrips {
  import opened Wrappers
  import opened Tokens
  import opened Ast
  import opened Results
  import opened ExecutableGrammar
  import opened Spans
  import opened Printer
  import opened ExecutableRoundTrips
  import opened SelectionRoundTrips

  // ------------------------------------------------------------ the image

  ghost predicate ExecutableOk(d: Definition) {
    match d
    case OperationDefinition(o, name, vds, ds, ss) =>
      o.Some? && name.Some? && VariableDefinitionsOk(vds) && DirectivesOk(ds) && SelectionListOk(ss)
    case FragmentDefinition(_, _, ds, ss) => DirectivesOk(ds) && SelectionListOk(ss)
    case _ => false
  }

  // --------------------------------------------------------------- operations

  /** Where the parts of a printed operation lie: its type and name at `i`
      and `i + 1`, the variable definitions up to `j`, the directives up to
      `k`, and the selection set from `k` to the end. */
  lemma OperationSplit(d: Definition, ts: seq<Token>, i: nat) returns (j: nat, k: nat)
    requires d.OperationDefinition? && ExecutableOk(d)
    requires Occurs(ts, i, PrintExecutableDefinition(d))
    ensures d.operationType.Some? && d.operationName.Some?
    ensures i + 2 <= |ts| && ts[i] == Name(OperationTypeName(d.operationType.value))
    ensures ts[i + 1] == Name(d.operationName.value)
    ensures VariableDefinitionsOk(d.variableDefinitions) && DirectivesOk(d.directives) && SelectionListOk(d.selectionSet)
    ensures Occurs(ts, i + 2, PrintVariableDefinitions(d.variableDefinitions))
    ensures d.variableDefinitions.None? ==> i + 2 <= |ts| && !IsPunct(At(ts, i + 2), LParen)
    ensures j == i + 2 + |PrintVariableDefinitions(d.variableDefinitions)|
    ensures Occurs(ts, j, PrintDirectives(d.directives)) && k == j + |PrintDirectives(d.directives)|
    ensures Clear(At(ts, k), DirectivesDanger)
    ensures Occurs(ts, k, PrintSelectionSet(d.selectionSet))
    ensures k + |PrintSelectionSet(d.selectionSet)| == i + |PrintExecutableDefinition(d)|
  {
    hide *;
    OperationOkParts(d);
    OperationPrint(d);
    var head := [Name(OperationTypeName(d.operationType.value)), Name(d.operationName.value)];
    var vd := PrintVariableDefinitions(d.variableDefinitions);
    var dsp := PrintDirectives(d.directives);
    var body := PrintSelectionSet(d.selectionSet);
    OccursSplit(ts, i, head, vd + (dsp + body));
    OccursPair(ts, i, head[0], head[1]);
    OccursSplit(ts, i + 2, vd, dsp + body);
    j := i + 2 + |vd|;
    OccursSplit(ts, j, dsp, body);
    k := j + |dsp|;
    OccursHead(ts, k, body);
    OccursFirst(ts, j, dsp);
    DirectivesFirst(d.directives, At(ts, k));
    BodyFollows(ts, j, k, d.directives);
  }

  /** The selection set that ends a definition opens with `{`, which neither
      extends the directives before it nor opens variable definitions. */
  lemma BodyFollows(ts: seq<Token>, j: nat, k: nat, ds: Option<seq<Directive>>)
    requires At(ts, k) == Some(Punct(LBrace))
    requires At(ts, j) == if ds.Some? then Some(Punct(AtSign)) else At(ts, k)
    ensures Clear(At(ts, k), DirectivesDanger) && !IsPunct(At(ts, j), LParen)
  {
  }

  lemma OperationPrint(d: Definition)
    requires d.OperationDefinition? && d.operationType.Some? && d.operationName.Some?
    ensures PrintExecutableDefinition(d) ==
      [Name(OperationTypeName(d.operationType.value)), Name(d.operationName.value)]
        + (PrintVariableDefinitions(d.variableDefinitions)
          + (PrintDirectives(d.directives) + PrintSelectionSet(d.selectionSet)))
    ensures d.variableDefinitions.None? ==> PrintVariableDefinitions(d.variableDefinitions) == []
    ensures PrintSelectionSet(d.selectionSet)[0] == Punct(LBrace)
  {
    assert d.variableDefinitions.None? ==> PrintVariableDefinitions(d.variableDefinitions) == [];
    hide PrintVariableDefinitions, PrintDirectives, PrintSelectionSet;
  }

  lemma OperationOkParts(d: Definition)
    requires d.OperationDefinition? && ExecutableOk(d)
    ensures d.operationType.Some? && d.operationName.Some?
    ensures VariableDefinitionsOk(d.variableDefinitions) && DirectivesOk(d.directives) && SelectionListOk(d.selectionSet)
  {
  }

  /** An operation definition is read back from its printed form. */
  lemma OperationRoundTrip(d: Definition, ts: seq<Token>, i: nat)
    requires d.OperationDefinition? && ExecutableOk(d)
    requires Occurs(ts, i, PrintExecutableDefinition(d))
    ensures ParseOperationDefinition(ts, i) == Ok(d, i + |PrintExecutableDefinition(d)|)
  {
    hide *;
    var j, k := OperationSplit(d, ts, i);
    VariableDefinitionsRoundTrip(d.variableDefinitions, ts, i + 2);
    DirectivesRoundTrip(d.directives, ts, j);
    SelectionSetRoundTrip(d.selectionSet, ts, k);
    OperationStep(ts, i, d, j, k, k + |PrintSelectionSet(d.selectionSet)|);
  }

  lemma OperationStep(ts: seq<Token>, i: nat, d: Definition, j: nat, k: nat, m: nat)
    requires d.OperationDefinition? && d.operationType.Some? && d.operationName.Some?
    requires i + 2 <= |ts| && ts[i] == Name(OperationTypeName(d.operationType.value))
    requires ts[i + 1] == Name(d.operationName.value)
    requires ParseOptionalVariableDefinitions(ts, i + 2) == Ok(d.variableDefinitions, j) && j <= |ts|
    requires ParseOptionalDirectives(ts, j) == Ok(d.directives, k) && k <= |ts|
    requires ParseSelectionSet(ts, k) == Ok(d.selectionSet, m)
    ensures ParseOperationDefinition(ts, i) == Ok(d, m)
  {
    hide ParseOptionalVariableDefinitions, ParseOptionalDirectives, ParseSelectionSet;
    OperationTypeRoundTrip(d.operationType.value);
  }

  // ---------------------------------------------------------------- fragments

  /** Where the parts of a printed fragment definition lie: four words, the
      directives up to `k`, and the selection set from `k` to the end. */
  lemma FragmentSplit(d: Definition, ts: seq<Token>, i: nat) returns (k: nat)
    requires d.FragmentDefinition? && ExecutableOk(d)
    requires Occurs(ts, i, PrintExecutableDefinition(d))
    ensures i + 4 <= |ts| && ts[i] == Name("fragment") && ts[i + 1] == Name(d.name)
    ensures ts[i + 2] == Name("on") && ts[i + 3] == Name(d.typeCondition)
    ensures DirectivesOk(d.directives) && SelectionListOk(d.selectionSet)
    ensures Occurs(ts, i + 4, PrintDirectives(d.directives)) && k == i + 4 + |PrintDirectives(d.directives)|
    ensures Clear(At(ts, k), DirectivesDanger)
    ensures Occurs(ts, k, PrintSelectionSet(d.selectionSet))
    ensures k + |PrintSelectionSet(d.selectionSet)| == i + |PrintExecutableDefinition(d)|
  {
    hide PrintDirectives, PrintSelectionSet;
    var dsp := PrintDirectives(d.directives);
    var body := PrintSelectionSet(d.selectionSet);
    var first := [Name("fragment"), Name(d.name)];
    var second := [Name("on"), Name(d.typeCondition)];
    assert PrintExecutableDefinition(d) == first + (second + (dsp + body));
    OccursSplit(ts, i, first, second + (dsp + body));
    OccursPair(ts, i, first[0], first[1]);
    OccursSplit(ts, i + 2, second, dsp + body);
    OccursPair(ts, i + 2, second[0], second[1]);
    OccursSplit(ts, i + 4, dsp, body);
    k := i + 4 + |dsp|;
    OccursHead(ts, k, body);
  }

  /** A fragment definition is read back from its printed form, whatever its
      name. */
  lemma FragmentRoundTrip(d: Definition, ts: seq<Token>, i: nat)
    requires d.FragmentDefinition? && ExecutableOk(d)
    requires Occurs(ts, i, PrintExecutableDefinition(d))
    ensures ParseFragmentDefinition(ts, i) == Ok(d, i + |PrintExecutableDefinition(d)|)
  {
    hide *;
    var k := FragmentSplit(d, ts, i);
    DirectivesRoundTrip(d.directives, ts, i + 4);
    SelectionSetRoundTrip(d.selectionSet, ts, k);
    FragmentStep(ts, i, d, k, k + |PrintSelectionSet(d.selectionSet)|);
  }

  lemma FragmentStep(ts: seq<Token>, i: nat, d: Definition, k: nat, m: nat)
    requires d.FragmentDefinition?
    requires i + 4 <= |ts| && ts[i] == Name("fragment") && ts[i + 1] == Name(d.name)
    requires ts[i + 2] == Name("on") && ts[i + 3] == Name(d.typeCondition)
    requires ParseOptionalDirectives(ts, i + 4) == Ok(d.directives, k) && k <= |ts|
    requires ParseSelectionSet(ts, k) == Ok(d.selectionSet, m)
    ensures ParseFragmentDefinition(ts, i) == Ok(d, m)
  {
    hide ParseOptionalDirectives, ParseSelectionSet;
  }

  // ---------------------------------------------------- executable definitions

  /** An executable definition is read back from its printed form. Its first
      token is an operation type or `fragment`. */
  lemma ExecutableDefinitionRoundTrip(d: Definition, ts: seq<Token>, i: nat)
    requires ExecutableOk(d)
    requires Occurs(ts, i, PrintExecutableDefinition(d))
    ensures IsKeywordIn(At(ts, i), OperationTypeNames + {"fragment"})
    ensures ParseExecutableDefinition(ts, i) == Ok(d, i + |PrintExecutableDefinition(d)|)
  {
    hide ParseOperationDefinition, ParseFragmentDefinition;
    if d.OperationDefinition? {
      var _, _ := OperationSplit(d, ts, i);
      OperationRoundTrip(d, ts, i);
    } else {
      var _ := FragmentSplit(d, ts, i);
      FragmentRoundTrip(d, ts, i);
      assert ParseOperationDefinition(ts, i).NoMatch?;
    }
  }
}
