/**
 The leaf productions: values (variable, int, float, string, boolean, null,
 enum, list, object) and type references (named, list, non-null).

 Every rule takes the whole token sequence and a start index and returns a
 `Res`. The value rules are mutually recursive through lists and objects; each
 recursive call either happens after a token has been consumed or goes to a
 rule of lower rank at the same index, which is the termination measure.
 */
module ValueGrammar {
  import opened Wrappers
  import opened Tokens
  import opened Ast
  import opened Results

  /** The three spellings that are never enum values. */
  const Reserved: set<string> := {"true", "false", "null"}

  /** The tokens a value can start with. */
  predicate ValueStart(t: Option<Token>) {
    t.Some? &&
    match t.value
    case Name(_) => true
    case IntLit(_) => true
    case FloatLit(_) => true
    case StringLit(_) => true
    case Punct(p) => p == Dollar || p == LBracket || p == LBrace
  }

  /** The value a single-token literal denotes, independently of the order in
      which the value rules are tried: a name spells a boolean, null, or else
      an enum value. Punctuators denote no single-token value. */
  function LiteralValue(t: Token): Option<Value> {
    match t
    case IntLit(n) => Some(IntValue(n))
    case FloatLit(f) => Some(FloatValue(f))
    case StringLit(s) => Some(StringValue(s))
    case Name(s) =>
      if s == "true" then Some(BooleanValue(true))
      else if s == "false" then Some(BooleanValue(false))
      else if s == "null" then Some(NullValue)
      else Some(EnumValue(s))
    case Punct(_) => None
  }

  /** No enum value anywhere inside `v` is spelled `true`, `false` or `null`. */
  ghost predicate NoReservedEnum(v: Value) {
    match v
    case EnumValue(e) => e !in Reserved
    case ListValue(vs) => forall k :: 0 <= k < |vs| ==> NoReservedEnum(vs[k])
    case ObjectValue(m) => forall key :: key in m ==> NoReservedEnum(m[key])
    case _ => true
  }

  function ParseVariable(ts: seq<Token>, i: nat): (r: Res<Value>)
    requires i <= |ts|
    ensures r.NoMatch? <==> !IsPunct(At(ts, i), Dollar)
    ensures r.Ok? <==> IsPunct(At(ts, i), Dollar) && IsName(At(ts, i + 1))
    ensures r.Ok? ==> r.next == i + 2 && r.value == Variable(ts[i + 1].text)
  {
    if !IsPunct(At(ts, i), Dollar) then NoMatch(Error("Expected $", At(ts, i)))
    else
      var (name, j) :- ExpectName(ts, i + 1);
      Ok(Variable(name), j)
  }

  function ParseIntValue(ts: seq<Token>, i: nat): (r: Res<Value>)
    requires i <= |ts|
    ensures !r.Fatal?
    ensures r.Ok? <==> i < |ts| && ts[i].IntLit?
    ensures r.Ok? ==> r == Ok(IntValue(ts[i].intValue), i + 1)
  {
    var t := At(ts, i);
    if t.Some? && t.value.IntLit? then Ok(IntValue(t.value.intValue), i + 1)
    else NoMatch(Error("Expected int", t))
  }

  function ParseFloatValue(ts: seq<Token>, i: nat): (r: Res<Value>)
    requires i <= |ts|
    ensures !r.Fatal?
    ensures r.Ok? <==> i < |ts| && ts[i].FloatLit?
    ensures r.Ok? ==> r == Ok(FloatValue(ts[i].floatValue), i + 1)
  {
    var t := At(ts, i);
    if t.Some? && t.value.FloatLit? then Ok(FloatValue(t.value.floatValue), i + 1)
    else NoMatch(Error("Expected float", t))
  }

  /** The failure message here is the boolean rule's. */
  function ParseStringValue(ts: seq<Token>, i: nat): (r: Res<Value>)
    requires i <= |ts|
    ensures !r.Fatal?
    ensures r.Ok? <==> i < |ts| && ts[i].StringLit?
    ensures r.Ok? ==> r == Ok(StringValue(ts[i].stringValue), i + 1)
  {
    var t := At(ts, i);
    if t.Some? && t.value.StringLit? then Ok(StringValue(t.value.stringValue), i + 1)
    else NoMatch(Error("Expected one of true, false", t))
  }

  function ParseBooleanValue(ts: seq<Token>, i: nat): (r: Res<Value>)
    requires i <= |ts|
    ensures !r.Fatal?
    ensures r.Ok? <==> IsKeywordIn(At(ts, i), {"true", "false"})
    ensures r.Ok? ==> r == Ok(BooleanValue(ts[i].text == "true"), i + 1)
  {
    var t := At(ts, i);
    if !IsKeywordIn(t, {"true", "false"}) then NoMatch(Error("Expected one of true, false", t))
    else Ok(BooleanValue(t.value.text == "true"), i + 1)
  }

  function ParseNullValue(ts: seq<Token>, i: nat): (r: Res<Value>)
    requires i <= |ts|
    ensures !r.Fatal?
    ensures r.Ok? <==> IsKeyword(At(ts, i), "null")
    ensures r.Ok? ==> r == Ok(NullValue, i + 1)
  {
    var t := At(ts, i);
    if !IsKeyword(t, "null") then NoMatch(Error("Expected null", t))
    else Ok(NullValue, i + 1)
  }

  /** Rejects the three reserved spellings on its own, even though the value
      dispatch tries booleans and null first. */
  function ParseEnumValue(ts: seq<Token>, i: nat): (r: Res<Value>)
    requires i <= |ts|
    ensures !r.Fatal?
    ensures r.Ok? <==> IsName(At(ts, i)) && ts[i].text !in Reserved
    ensures r.Ok? ==> r == Ok(EnumValue(ts[i].text), i + 1)
    ensures IsName(At(ts, i)) && ts[i].text in Reserved ==>
      r == NoMatch(Error("EnumValue can't be one of true, false, or null", At(ts, i)))
  {
    var t := At(ts, i);
    if !IsName(t) then NoMatch(Error("Expected EnumValue", t))
    else if t.value.text in Reserved then
      NoMatch(Error("EnumValue can't be one of true, false, or null", t))
    else Ok(EnumValue(t.value.text), i + 1)
  }

  /** Tries the nine value rules in their fixed order; only a recoverable
      failure lets the next one run. */
  function ParseValue(ts: seq<Token>, i: nat): (r: Res<Value>)
    requires i <= |ts|
    ensures r.NoMatch? <==> !ValueStart(At(ts, i))
    ensures r.NoMatch? ==> r.error == Error("Unrecognized Value", At(ts, i))
    ensures r.Ok? ==> i < r.next <= |ts|
    ensures i < |ts| && LiteralValue(ts[i]).Some? ==> r == Ok(LiteralValue(ts[i]).value, i + 1)
    ensures IsPunct(At(ts, i), Dollar) ==> r == ParseVariable(ts, i)
    ensures IsPunct(At(ts, i), LBracket) ==> r == ParseListValue(ts, i)
    ensures IsPunct(At(ts, i), LBrace) ==> r == ParseObjectValue(ts, i)
    decreases |ts| - i, 2
  {
    var asVariable := ParseVariable(ts, i);
    if !asVariable.NoMatch? then asVariable else
    var asInt := ParseIntValue(ts, i);
    if !asInt.NoMatch? then asInt else
    var asFloat := ParseFloatValue(ts, i);
    if !asFloat.NoMatch? then asFloat else
    var asString := ParseStringValue(ts, i);
    if !asString.NoMatch? then asString else
    var asBoolean := ParseBooleanValue(ts, i);
    if !asBoolean.NoMatch? then asBoolean else
    var asNull := ParseNullValue(ts, i);
    if !asNull.NoMatch? then asNull else
    var asEnum := ParseEnumValue(ts, i);
    if !asEnum.NoMatch? then asEnum else
    var asList := ParseListValue(ts, i);
    if !asList.NoMatch? then asList else
    var asObject := ParseObjectValue(ts, i);
    if !asObject.NoMatch? then asObject else
    NoMatch(Error("Unrecognized Value", At(ts, i)))
  }

  /** `[ Value* ]`: a list value may be empty. */
  function ParseListValue(ts: seq<Token>, i: nat): (r: Res<Value>)
    requires i <= |ts|
    ensures r.NoMatch? <==> !IsPunct(At(ts, i), LBracket)
    ensures r.Ok? ==> i < r.next <= |ts| && r.value.ListValue?
    ensures r.Ok? ==> IsPunct(At(ts, r.next - 1), RBracket)
    decreases |ts| - i, 1
  {
    if !IsPunct(At(ts, i), LBracket) then NoMatch(Error("Expected [", At(ts, i)))
    else
      var (values, j) :- ParseListItems(ts, i + 1);
      // The item loop stops only at `]`, so the closing `expect` always succeeds.
      Ok(ListValue(values), j + 1)
  }

  /** The values of a list, up to (not including) the closing bracket. Running
      out of tokens before the bracket is the fatal "Unrecognized Value". */
  function ParseListItems(ts: seq<Token>, i: nat): (r: Res<seq<Value>>)
    requires i <= |ts|
    ensures !r.NoMatch?
    ensures r.Ok? ==> i <= r.next < |ts| && IsPunct(At(ts, r.next), RBracket)
    decreases |ts| - i, 3
  {
    if IsPunct(At(ts, i), RBracket) then Ok([], i)
    else
      var (v, j) :- Unwrap(ParseValue(ts, i), "");
      var (rest, k) :- ParseListItems(ts, j);
      Ok([v] + rest, k)
  }

  /** `{ (name : Value)* }`: an object value may be empty. */
  function ParseObjectValue(ts: seq<Token>, i: nat): (r: Res<Value>)
    requires i <= |ts|
    ensures r.NoMatch? <==> !IsPunct(At(ts, i), LBrace)
    ensures r.Ok? ==> i < r.next <= |ts| && r.value.ObjectValue?
    ensures r.Ok? ==> IsPunct(At(ts, r.next - 1), RBrace)
    decreases |ts| - i, 1
  {
    if !IsPunct(At(ts, i), LBrace) then NoMatch(Error("Expected {", At(ts, i)))
    else
      var (fields, j) :- ParseObjectFields(ts, i + 1, map[]);
      var (_, k) :- ExpectPunct(ts, j, RBrace, "");
      Ok(ObjectValue(fields), k)
  }

  /** The fields of an object value, folded into `acc` in source order, so a
      later duplicate key overwrites an earlier one. Stops at the first token
      that is not a name. */
  function ParseObjectFields(ts: seq<Token>, i: nat, acc: map<string, Value>): (r: Res<map<string, Value>>)
    requires i <= |ts|
    ensures !r.NoMatch?
    ensures r.Ok? ==> i <= r.next <= |ts| && !IsName(At(ts, r.next))
    ensures r.Ok? ==> acc.Keys <= r.value.Keys
    decreases |ts| - i, 3
  {
    if !IsName(At(ts, i)) then Ok(acc, i)
    else
      var key := ts[i].text;
      var (_, j) :- ExpectPunct(ts, i + 1, Colon, "");
      var (v, k) :- Unwrap(ParseValue(ts, j), "");
      ParseObjectFields(ts, k, acc[key := v])
  }

  /** `Name !?`, `[ Type ] !?`. A single `!` after the name or the closing
      bracket makes the type non-null; a second `!` is left unconsumed. */
  function ParseType(ts: seq<Token>, i: nat): (r: Res<Type>)
    requires i <= |ts|
    ensures r.NoMatch? <==> !IsPunct(At(ts, i), LBracket) && !IsName(At(ts, i))
    ensures r.Ok? ==> i < r.next <= |ts| && WellFormedType(r.value)
    ensures r.Ok? ==> (r.value.NonNullType? <==> IsPunct(At(ts, r.next - 1), Bang))
    ensures r.Ok? && IsName(At(ts, i)) ==>
      r.value == NamedType(ts[i].text) || r.value == NonNullType(NamedType(ts[i].text))
    ensures r.Ok? && IsPunct(At(ts, i), LBracket) ==>
      r.value.ListType? || (r.value.NonNullType? && r.value.element.ListType?)
    decreases |ts| - i
  {
    if IsPunct(At(ts, i), LBracket) then
      var (inner, j) :- Unwrap(ParseType(ts, i + 1), "");
      var (_, k) :- ExpectPunct(ts, j, RBracket, "");
      if IsPunct(At(ts, k), Bang) then Ok(NonNullType(ListType(inner)), k + 1)
      else Ok(ListType(inner), k)
    else if IsName(At(ts, i)) then
      var name := ts[i].text;
      if IsPunct(At(ts, i + 1), Bang) then Ok(NonNullType(NamedType(name)), i + 2)
      else Ok(NamedType(name), i + 1)
    else NoMatch(Error("Unrecognized Type", At(ts, i)))
  }
}
