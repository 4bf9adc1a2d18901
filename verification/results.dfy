/**
 Rule results and the two failure modes of the parser.

 A rule either succeeds with a value and the index of the first unconsumed
 token, or fails. A failure is RECOVERABLE (`NoMatch`: the rule returned an
 error object, and an alternation point may try the next sibling rule) or
 FATAL (`Fatal`: the error was thrown as a parse error, skips every
 alternation point and is caught only by the entry point).
 */
module Results {
  import opened Wrappers
  import opened Tokens

  /** A syntax error: a message and the token nearest the failure, absent at
      the end of input. */
  datatype Error = Error(message: string, tokenNear: Option<Token>)

  datatype Res<+T> =
    | Ok(value: T, next: nat)
    | NoMatch(error: Error)
    | Fatal(error: Error)
  {
    predicate IsFailure() {
      !Ok?
    }

    /** A failure keeps its mode when it is propagated. */
    function PropagateFailure<U>(): (r: Res<U>)
      requires !Ok?
      ensures !r.Ok? && r.NoMatch? == NoMatch? && r.error == error
    {
      if NoMatch? then NoMatch(error) else Fatal(error)
    }

    function Extract(): (T, nat)
      requires Ok?
    {
      (value, next)
    }
  }

  /** `unwrap`: a recoverable failure becomes fatal. When `alternatives` is
      non-empty the message is replaced by "Expected <alternatives>"; the token
      is kept. Successes and fatal failures pass through unchanged. */
  function Unwrap<T>(r: Res<T>, alternatives: string): (u: Res<T>)
    ensures !u.NoMatch?
    ensures r.Ok? || r.Fatal? ==> u == r
    ensures r.NoMatch? ==> u.Fatal? && u.error.tokenNear == r.error.tokenNear
    ensures r.NoMatch? && alternatives != "" ==> u.error.message == "Expected " + alternatives
    ensures r.NoMatch? && alternatives == "" ==> u.error.message == r.error.message
  {
    match r
    case Ok(_, _) => r
    case Fatal(_) => r
    case NoMatch(e) =>
      Fatal(Error(if alternatives != "" then "Expected " + alternatives else e.message, e.tokenNear))
  }

  /** The message of `expect` for a missing token of kind `k`. */
  function ExpectMessage(k: TokenKind, alternatives: string): string {
    if alternatives != "" then "Expected " + alternatives + ", or " + KindText(k)
    else "Expected " + KindText(k)
  }

  /** `expect(tokens[i], k)`: the token at `i` if it has kind `k`, otherwise a
      fatal failure naming the kind and anchored at that token. */
  function Expect(ts: seq<Token>, i: nat, k: TokenKind, alternatives: string): (r: Res<Token>)
    ensures !r.NoMatch?
    ensures r.Ok? <==> i < |ts| && KindOf(ts[i]) == k
    ensures r.Ok? ==> r.value == ts[i] && r.next == i + 1
    ensures r.Fatal? ==> r.error == Error(ExpectMessage(k, alternatives), At(ts, i))
  {
    var t := At(ts, i);
    if t.Some? && KindOf(t.value) == k then Ok(t.value, i + 1)
    else Fatal(Error(ExpectMessage(k, alternatives), t))
  }

  /** `expect(tokens[i], "name")`, keeping only the spelling. */
  function ExpectName(ts: seq<Token>, i: nat): (r: Res<string>)
    ensures !r.NoMatch?
    ensures r.Ok? <==> IsName(At(ts, i))
    ensures r.Ok? ==> ts[i] == Name(r.value) && r.next == i + 1
    ensures r.Fatal? ==> r.error == Error("Expected name", At(ts, i))
  {
    var (t, j) :- Expect(ts, i, NameKind, "");
    Ok(t.text, j)
  }

  /** `expect(tokens[i], p)` for a punctuator `p`. */
  function ExpectPunct(ts: seq<Token>, i: nat, p: Punctuator, alternatives: string): (r: Res<()>)
    ensures !r.NoMatch?
    ensures r.Ok? <==> IsPunct(At(ts, i), p)
    ensures r.Ok? ==> r.next == i + 1
    ensures r.Fatal? ==> r.error == Error(ExpectMessage(PunctKind(p), alternatives), At(ts, i))
  {
    var (_, j) :- Expect(ts, i, PunctKind(p), alternatives);
    Ok((), j)
  }
}
