/**
 The document round trip: a sequence of definitions in the image of the rules,
 printed one after another, is parsed back by the entry point to the same
 sequence.

 Definitions need no separator. An executable definition ends with `}`; a
 type-system definition ends in a way that the first token of the next
 definition (a description or a keyword) cannot continue.
 */
module DocumentRoundTrips {
  import opened Wrappers
  import opened Tokens
  import opened Ast
  import opened Results
  import opened ExecutableGrammar
  import opened TypeSystemGrammar
  import opened Document
  import opened Spans
  import opened Printer
  import opened DefinitionRoundTrips
  import opened TypeDefinitionRoundTrips

  ghost predicate DefinitionOk(d: Definition) {
    ExecutableOk(d) || TypeSystemDefinitionOk(d) || TypeSystemExtensionOk(d)
  }

  ghost predicate DocumentOk(defs: seq<Definition>) {
    forall k :: 0 <= k < |defs| ==> DefinitionOk(defs[k])
  }

  /** A definition is read back by the rule that tries the executable
      definitions first; its first token may end the definition before it. */
  lemma DefinitionRoundTrip(d: Definition, ts: seq<Token>, i: nat)
    requires DefinitionOk(d)
    requires Occurs(ts, i, PrintDefinition(d))
    requires Boundary(At(ts, i + |PrintDefinition(d)|))
    ensures ParseDefinition(ts, i) == Ok(d, i + |PrintDefinition(d)|)
    ensures Boundary(At(ts, i))
  {
    hide ParseExecutableDefinition, ParseTypeSystemDefinitionOrExtension;
    if ExecutableOk(d) {
      assert PrintDefinition(d) == PrintExecutableDefinition(d);
      hide PrintDefinition, PrintExecutableDefinition;
      ExecutableDefinitionRoundTrip(d, ts, i);
    } else {
      TypeSystemRoundTrip(d, ts, i);
    }
  }

  /** The definitions `defs[k..]`, printed from `i` to the end of the input,
      are read back by the loop of the entry point. */
  lemma {:induction false} DefinitionsRoundTrip(defs: seq<Definition>, k: nat, ts: seq<Token>, i: nat)
    requires k <= |defs| && DocumentOk(defs)
    requires Occurs(ts, i, PrintDefinitionsFrom(defs, k))
    requires i + |PrintDefinitionsFrom(defs, k)| == |ts|
    ensures ParseDefinitions(ts, i) == Ok(defs[k..], |ts|)
    ensures Boundary(At(ts, i))
    decreases |defs| - k
  {
    hide *;
    if k == |defs| {
      DefinitionsEnd(defs, k, ts, i);
    } else {
      DefinitionsFromCons(defs, k);
      var p := PrintDefinition(defs[k]);
      var rest := PrintDefinitionsFrom(defs, k + 1);
      OccursSplit(ts, i, p, rest);
      DefinitionsRoundTrip(defs, k + 1, ts, i + |p|);
      DefinitionRoundTrip(defs[k], ts, i);
      SuffixCons(defs, k);
      DefinitionsStep(ts, i, defs[k], defs[k + 1..], i + |p|, |ts|);
    }
  }

  lemma DefinitionsEnd(defs: seq<Definition>, k: nat, ts: seq<Token>, i: nat)
    requires k == |defs|
    requires i + |PrintDefinitionsFrom(defs, k)| == |ts|
    ensures ParseDefinitions(ts, i) == Ok(defs[k..], |ts|)
    ensures Boundary(At(ts, i))
  {
    assert i == |ts| && At(ts, i) == None;
    assert !DefinitionStart(ts, i);
    assert ParseDefinition(ts, i).NoMatch?;
    assert defs[k..] == [];
  }

  lemma DefinitionsFromCons(defs: seq<Definition>, k: nat)
    requires k < |defs| && DocumentOk(defs)
    ensures PrintDefinitionsFrom(defs, k) == PrintDefinition(defs[k]) + PrintDefinitionsFrom(defs, k + 1)
    ensures DefinitionOk(defs[k])
  {
  }

  lemma DefinitionsStep(ts: seq<Token>, i: nat, d: Definition, rest: seq<Definition>, j: nat, end: nat)
    requires i <= |ts| && ParseDefinition(ts, i) == Ok(d, j) && j <= |ts|
    requires ParseDefinitions(ts, j) == Ok(rest, end)
    ensures ParseDefinitions(ts, i) == Ok([d] + rest, end)
  {
    hide ParseDefinition;
  }

  /** The entry point reads back every printed document in the image. */
  lemma ParseRoundTrip(defs: seq<Definition>)
    requires DocumentOk(defs)
    ensures Parse(PrintDocument(defs)) == Parsed(defs)
  {
    var ts := PrintDocument(defs);
    assert Occurs(ts, 0, PrintDefinitionsFrom(defs, 0));
    DefinitionsRoundTrip(defs, 0, ts, 0);
  }
}
