/**
 The document level: a document is a sequence of definitions, each either
 executable (operation, fragment) or type-system (definition, extension). The
 entry point parses as many definitions as start at the front, and reports an
 error unless that consumed every token.
 */
module Document {
  import opened Wrappers
  import opened Tokens
  import opened Ast
  import opened Results
  import opened ExecutableGrammar
  import opened TypeSystemGrammar

  /** The tokens a definition can start with: an operation type or `fragment`,
      a (possibly described) type-system keyword, or `extend` followed by an
      extensible keyword. */
  predicate DefinitionStart(ts: seq<Token>, i: nat) {
    IsKeywordIn(At(ts, i), OperationTypeNames + {"fragment"})
    || IsKeywordIn(At(ts, AfterDescription(ts, i)), TypeKeywords + {"schema", "directive"})
    || (IsKeyword(At(ts, i), "extend") && IsKeywordIn(At(ts, i + 1), TypeKeywords + {"schema"}))
  }

  /** Executable definition, else type-system definition or extension. */
  function ParseDefinition(ts: seq<Token>, i: nat): (r: Res<Definition>)
    requires i <= |ts|
    ensures r.NoMatch? <==> !DefinitionStart(ts, i)
    ensures r.NoMatch? ==> r.error == Error("Unrecognized Definition", At(ts, i))
    ensures r.Ok? ==> i < r.next <= |ts|
    ensures IsKeywordIn(At(ts, i), OperationTypeNames + {"fragment"}) ==> r == ParseExecutableDefinition(ts, i)
  {
    var executable := ParseExecutableDefinition(ts, i);
    if !executable.NoMatch? then executable else
    var typeSystem := ParseTypeSystemDefinitionOrExtension(ts, i);
    if !typeSystem.NoMatch? then typeSystem else
    NoMatch(Error("Unrecognized Definition", At(ts, i)))
  }

  /** The loop of `parseDocument`: definitions for as long as one starts. A
      fatal failure inside a definition ends the whole parse. */
  function ParseDefinitions(ts: seq<Token>, i: nat): (r: Res<seq<Definition>>)
    requires i <= |ts|
    ensures !r.NoMatch?
    ensures r.Ok? ==> i <= r.next <= |ts| && !DefinitionStart(ts, r.next)
    ensures r.Ok? ==> (|r.value| == 0 <==> r.next == i)
    decreases |ts| - i
  {
    match ParseDefinition(ts, i)
    case NoMatch(_) => Ok([], i)
    case Fatal(e) => Fatal(e)
    case Ok(d, j) =>
      var (rest, k) :- ParseDefinitions(ts, j);
      Ok([d] + rest, k)
  }

  /** What the entry point returns: a document or an error. */
  datatype Outcome = Parsed(document: seq<Definition>) | Failed(error: Error)

  /** `parse`: a fatal failure is reported as it is; otherwise the definitions
      must cover the whole input, or the result is "Unterminated document" at
      the first token no definition starts with. */
  function Parse(ts: seq<Token>): (r: Outcome)
    ensures |ts| == 0 ==> r == Parsed([])
    ensures r.Parsed? ==> (|r.document| == 0 <==> |ts| == 0)
    ensures |ts| > 0 && !DefinitionStart(ts, 0) ==>
      r == Failed(Error("Unterminated document", Some(ts[0])))
    ensures r.Parsed? <==> ParseDefinitions(ts, 0).Ok? && ParseDefinitions(ts, 0).next == |ts|
    ensures r.Parsed? ==> r.document == ParseDefinitions(ts, 0).value
    ensures ParseDefinitions(ts, 0).Fatal? ==> r == Failed(ParseDefinitions(ts, 0).error)
    ensures r.Failed? && ParseDefinitions(ts, 0).Ok? ==>
      r.error == Error("Unterminated document", At(ts, ParseDefinitions(ts, 0).next))
  {
    match ParseDefinitions(ts, 0)
    case Fatal(e) => Failed(e)
    case NoMatch(e) => Failed(e)
    case Ok(definitions, next) =>
      if next != |ts| then Failed(Error("Unterminated document", At(ts, next)))
      else Parsed(definitions)
  }
}
