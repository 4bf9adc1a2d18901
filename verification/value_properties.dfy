/**
 Facts about the value rules that hold for every token sequence.
 */
module ValueProperties {
  import opened Wrappers
  import opened Tokens
  import opened Ast
  import opened Results
  import opened ValueGrammar

  /** A value the parser accepts never holds an enum value spelled `true`,
      `false` or `null`, however deeply it is nested: those names are taken by
      the boolean and null rules first, and the enum rule refuses them. */
  lemma {:induction false} ParsedValueHasNoReservedEnum(ts: seq<Token>, i: nat)
    requires i <= |ts|
    ensures ParseValue(ts, i).Ok? ==> NoReservedEnum(ParseValue(ts, i).value)
    decreases |ts| - i, 2
  {
    hide ParseValue;
    if IsPunct(At(ts, i), LBracket) {
      ParsedItemsHaveNoReservedEnum(ts, i + 1);
    } else if IsPunct(At(ts, i), LBrace) {
      ParsedFieldsHaveNoReservedEnum(ts, i + 1, map[]);
      assert ParseValue(ts, i) == ParseObjectValue(ts, i);
    } else if i < |ts| && LiteralValue(ts[i]).Some? {
      LiteralHasNoReservedEnum(ts[i]);
    }
  }

  /** The enum value a single name denotes is never a reserved word. */
  lemma LiteralHasNoReservedEnum(t: Token)
    requires LiteralValue(t).Some?
    ensures NoReservedEnum(LiteralValue(t).value)
  {
  }

  lemma {:induction false} ParsedItemsHaveNoReservedEnum(ts: seq<Token>, i: nat)
    requires i <= |ts|
    ensures var r := ParseListItems(ts, i);
      r.Ok? ==> forall k :: 0 <= k < |r.value| ==> NoReservedEnum(r.value[k])
    decreases |ts| - i, 3
  {
    if !IsPunct(At(ts, i), RBracket) && ParseValue(ts, i).Ok? {
      ParsedValueHasNoReservedEnum(ts, i);
      ParsedItemsHaveNoReservedEnum(ts, ParseValue(ts, i).next);
    }
  }

  lemma {:induction false} ParsedFieldsHaveNoReservedEnum(ts: seq<Token>, i: nat, acc: map<string, Value>)
    requires i <= |ts|
    requires forall key :: key in acc ==> NoReservedEnum(acc[key])
    ensures var r := ParseObjectFields(ts, i, acc);
      r.Ok? ==> forall key :: key in r.value ==> NoReservedEnum(r.value[key])
    decreases |ts| - i, 3
  {
    if IsName(At(ts, i)) && IsPunct(At(ts, i + 1), Colon) && ParseValue(ts, i + 2).Ok? {
      var v := ParseValue(ts, i + 2);
      ParsedValueHasNoReservedEnum(ts, i + 2);
      var acc' := acc[ts[i].text := v.value];
      assert forall key :: key in acc' ==> NoReservedEnum(acc'[key]);
      ParsedFieldsHaveNoReservedEnum(ts, v.next, acc');
    }
  }
}
