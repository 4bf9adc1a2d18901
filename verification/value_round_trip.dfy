/**
 Round trips for values and type references: parsing the printed form of a
 well-formed value or type at any index returns it and stops right after it.
 */
module ValueRoundTrips {
  import opened Wrappers
  import opened Tokens
  import opened Ast
  import opened Results
  import opened ValueGrammar
  import opened Spans
  import opened Printer

  /** The fields of `m` whose keys are in `keys`. */
  ghost function Restrict(m: map<string, Value>, keys: set<string>): map<string, Value> {
    map k | k in keys && k in m :: m[k]
  }

  lemma RestrictWhole(m: map<string, Value>)
    ensures map[] + Restrict(m, m.Keys) == m
  {
  }

  lemma RestrictNone(acc: map<string, Value>, m: map<string, Value>)
    ensures acc + Restrict(m, {}) == acc
  {
  }

  lemma RestrictStep(acc: map<string, Value>, m: map<string, Value>, keys: set<string>, key: string)
    requires key in keys && keys <= m.Keys
    ensures acc[key := m[key]] + Restrict(m, keys - {key}) == acc + Restrict(m, keys)
  {
  }

  /** The value rules parse every printed value back, whatever follows it. */
  lemma {:induction false} ValueRoundTrip(v: Value, ts: seq<Token>, i: nat)
    requires NoReservedEnum(v)
    requires Occurs(ts, i, PrintValue(v))
    ensures ParseValue(ts, i) == Ok(v, i + |PrintValue(v)|)
    decreases v, 3
  {
    match v
    case ListValue(_) => ListValueRoundTrip(v, ts, i);
    case ObjectValue(_) => ObjectValueRoundTrip(v, ts, i);
    case Variable(n) => VariableRoundTrip(n, ts, i);
    case _ => LiteralRoundTrip(v, ts, i);
  }

  lemma VariableRoundTrip(n: string, ts: seq<Token>, i: nat)
    requires Occurs(ts, i, PrintValue(Variable(n)))
    ensures ParseValue(ts, i) == Ok(Variable(n), i + 2)
  {
    assert PrintValue(Variable(n)) == [Punct(Dollar)] + [Name(n)];
    OccursSplit(ts, i, [Punct(Dollar)], [Name(n)]);
    OccursHead(ts, i, [Punct(Dollar)]);
    OccursHead(ts, i + 1, [Name(n)]);
  }

  /** A single-token value is read back through `LiteralValue`. */
  lemma LiteralRoundTrip(v: Value, ts: seq<Token>, i: nat)
    requires !v.ListValue? && !v.ObjectValue? && !v.Variable? && NoReservedEnum(v)
    requires Occurs(ts, i, PrintValue(v))
    ensures ParseValue(ts, i) == Ok(v, i + |PrintValue(v)|)
  {
    var t := PrintValue(v)[0];
    assert PrintValue(v) == [t];
    OccursHead(ts, i, PrintValue(v));
    assert LiteralValue(t) == Some(v);
  }

  lemma {:induction false} ListValueRoundTrip(v: Value, ts: seq<Token>, i: nat)
    requires v.ListValue? && NoReservedEnum(v)
    requires Occurs(ts, i, PrintValue(v))
    ensures ParseValue(ts, i) == Ok(v, i + |PrintValue(v)|)
    decreases v, 2
  {
    var items := PrintValues(v, 0);
    OccursSplit(ts, i, [Punct(LBracket)], items + [Punct(RBracket)]);
    OccursHead(ts, i, [Punct(LBracket)]);
    OccursNext(ts, i + 1, items, Punct(RBracket));
    ListItemsRoundTrip(v, 0, ts, i + 1, i + 1 + |items|);
    assert v.values[0..] == v.values;
    ListValueStep(ts, i, v.values, i + 1 + |items|);
  }

  lemma {:induction false} ObjectValueRoundTrip(v: Value, ts: seq<Token>, i: nat)
    requires v.ObjectValue? && NoReservedEnum(v)
    requires Occurs(ts, i, PrintValue(v))
    ensures ParseValue(ts, i) == Ok(v, i + |PrintValue(v)|)
    decreases v, 2
  {
    var m := v.fields;
    var fields := PrintFields(v, m.Keys);
    OccursSplit(ts, i, [Punct(LBrace)], fields + [Punct(RBrace)]);
    OccursHead(ts, i, [Punct(LBrace)]);
    OccursNext(ts, i + 1, fields, Punct(RBrace));
    FieldsRoundTrip(v, m.Keys, map[], ts, i + 1, i + 1 + |fields|);
    FoldFieldsWhole(v);
    ObjectValueStep(ts, i, m, i + 1 + |fields|);
  }

  lemma {:induction false} ListItemsRoundTrip(parent: Value, k: nat, ts: seq<Token>, i: nat, end: nat)
    requires parent.ListValue? && k <= |parent.values| && NoReservedEnum(parent)
    requires Occurs(ts, i, PrintValues(parent, k))
    requires end == i + |PrintValues(parent, k)| && IsPunct(At(ts, end), RBracket)
    ensures ParseListItems(ts, i) == Ok(parent.values[k..], end)
    decreases parent, 1, |parent.values| - k
  {
    var vs := parent.values;
    if k == |vs| {
      assert PrintValues(parent, k) == [];
      assert vs[k..] == [];
    } else {
      var n := ListItemRoundTrip(parent, k, ts, i);
      ListItemsRoundTrip(parent, k + 1, ts, n, end);
    }
  }

  /** One item of a printed list: the item is read back, and the items loop
      carries on right after it. */
  lemma ListItemRoundTrip(parent: Value, k: nat, ts: seq<Token>, i: nat) returns (n: nat)
    requires parent.ListValue? && k < |parent.values| && NoReservedEnum(parent)
    requires Occurs(ts, i, PrintValues(parent, k))
    ensures n + |PrintValues(parent, k + 1)| == i + |PrintValues(parent, k)|
    ensures Occurs(ts, n, PrintValues(parent, k + 1))
    ensures ParseListItems(ts, n).Ok? && ParseListItems(ts, n).value == parent.values[k + 1..] ==>
      ParseListItems(ts, i) == Ok(parent.values[k..], ParseListItems(ts, n).next)
    decreases parent, 0, 0
  {
    var vs := parent.values;
    ValuesSplit(parent, k, ts, i);
    n := i + |PrintValue(vs[k])|;
    ValueRoundTrip(vs[k], ts, i);
    if ParseListItems(ts, n).Ok? && ParseListItems(ts, n).value == vs[k + 1..] {
      ListItemStep(ts, i, vs, k, n, ParseListItems(ts, n).next);
    }
  }

  /** The first printed item of a list value and the items after it. */
  lemma ValuesSplit(parent: Value, k: nat, ts: seq<Token>, i: nat)
    requires parent.ListValue? && k < |parent.values|
    requires Occurs(ts, i, PrintValues(parent, k))
    ensures var first := PrintValue(parent.values[k]);
      var rest := PrintValues(parent, k + 1);
      && Occurs(ts, i, first) && Occurs(ts, i + |first|, rest)
      && |PrintValues(parent, k)| == |first| + |rest|
      && !IsPunct(At(ts, i), RBracket)
  {
    var first := PrintValue(parent.values[k]);
    var rest := PrintValues(parent, k + 1);
    assert PrintValues(parent, k) == first + rest;
    OccursSplit(ts, i, first, rest);
    OccursHead(ts, i, first);
    FirstTokenNotCloser(parent.values[k]);
  }

  lemma ListValueStep(ts: seq<Token>, i: nat, vs: seq<Value>, j: nat)
    requires i <= |ts| && IsPunct(At(ts, i), LBracket)
    requires ParseListItems(ts, i + 1) == Ok(vs, j)
    ensures ParseValue(ts, i) == Ok(ListValue(vs), j + 1)
  {
  }

  lemma ObjectValueStep(ts: seq<Token>, i: nat, m: map<string, Value>, j: nat)
    requires i <= |ts| && IsPunct(At(ts, i), LBrace)
    requires ParseObjectFields(ts, i + 1, map[]) == Ok(m, j) && IsPunct(At(ts, j), RBrace)
    ensures ParseValue(ts, i) == Ok(ObjectValue(m), j + 1)
  {
  }

  lemma ListItemStep(ts: seq<Token>, i: nat, vs: seq<Value>, k: nat, j: nat, end: nat)
    requires i <= |ts| && !IsPunct(At(ts, i), RBracket) && k < |vs|
    requires ParseValue(ts, i) == Ok(vs[k], j) && j <= |ts|
    requires ParseListItems(ts, j) == Ok(vs[k + 1..], end)
    ensures ParseListItems(ts, i) == Ok(vs[k..], end)
  {
    assert vs[k..] == [vs[k]] + vs[k + 1..];
  }

  lemma FirstTokenNotCloser(v: Value)
    ensures PrintValue(v)[0] != Punct(RBracket)
  {
  }

  /** The map the fields loop builds from the printed fields `keys` of
      `parent`, starting from `acc`: one update per key, in printing order. */
  ghost function FoldFields(parent: Value, keys: set<string>, acc: map<string, Value>): map<string, Value>
    requires parent.ObjectValue? && keys <= parent.fields.Keys
    decreases |keys|
  {
    if keys == {} then acc
    else
      var key := PickKey(keys);
      FoldFields(parent, keys - {key}, acc[key := parent.fields[key]])
  }

  /** Folding the printed fields adds exactly those fields to `acc`. */
  lemma {:induction false} FoldFieldsAdds(parent: Value, keys: set<string>, acc: map<string, Value>)
    requires parent.ObjectValue? && keys <= parent.fields.Keys
    ensures FoldFields(parent, keys, acc) == acc + Restrict(parent.fields, keys)
    decreases |keys|
  {
    if keys == {} {
      RestrictNone(acc, parent.fields);
    } else {
      var key := PickKey(keys);
      FoldFieldsAdds(parent, keys - {key}, acc[key := parent.fields[key]]);
      RestrictStep(acc, parent.fields, keys, key);
    }
  }

  /** Folding all printed fields of an object value rebuilds its map. */
  lemma FoldFieldsWhole(parent: Value)
    requires parent.ObjectValue?
    ensures FoldFields(parent, parent.fields.Keys, map[]) == parent.fields
  {
    FoldFieldsAdds(parent, parent.fields.Keys, map[]);
    RestrictWhole(parent.fields);
  }

  lemma {:induction false} FieldsRoundTrip(
    parent: Value, keys: set<string>, acc: map<string, Value>, ts: seq<Token>, i: nat, end: nat)
    requires parent.ObjectValue? && keys <= parent.fields.Keys && NoReservedEnum(parent)
    requires Occurs(ts, i, PrintFields(parent, keys))
    requires end == i + |PrintFields(parent, keys)| && !IsName(At(ts, end))
    ensures ParseObjectFields(ts, i, acc) == Ok(FoldFields(parent, keys, acc), end)
    decreases parent, 1, |keys|
  {
    if keys == {} {
      assert PrintFields(parent, keys) == [];
    } else {
      var key := PickKey(keys);
      var n, acc' := FieldRoundTrip(parent, keys, acc, ts, i);
      FieldsRoundTrip(parent, keys - {key}, acc', ts, n, end);
    }
  }

  /** One field of a printed object: `key : value` is read back into the
      accumulated map, and the fields loop carries on right after it. */
  lemma FieldRoundTrip(parent: Value, keys: set<string>, acc: map<string, Value>, ts: seq<Token>, i: nat)
    returns (n: nat, acc': map<string, Value>)
    requires parent.ObjectValue? && keys <= parent.fields.Keys && keys != {} && NoReservedEnum(parent)
    requires Occurs(ts, i, PrintFields(parent, keys))
    ensures var rest := keys - {PickKey(keys)};
      && n + |PrintFields(parent, rest)| == i + |PrintFields(parent, keys)|
      && Occurs(ts, n, PrintFields(parent, rest))
      && FoldFields(parent, rest, acc') == FoldFields(parent, keys, acc)
    ensures i <= |ts| && n <= |ts| && ParseObjectFields(ts, i, acc) == ParseObjectFields(ts, n, acc')
    decreases parent, 0, 0
  {
    var key := PickKey(keys);
    var v := parent.fields[key];
    FieldSplit(parent, keys, ts, i);
    n := i + 2 + |PrintValue(v)|;
    assert NoReservedEnum(v);
    ValueRoundTrip(v, ts, i + 2);
    ObjectFieldStep(ts, i, acc, key, v, n);
    acc' := acc[key := v];
  }

  /** The first printed field `key : value` and the fields after it. */
  lemma FieldSplit(parent: Value, keys: set<string>, ts: seq<Token>, i: nat)
    requires parent.ObjectValue? && keys <= parent.fields.Keys && keys != {}
    requires Occurs(ts, i, PrintFields(parent, keys))
    ensures var key := PickKey(keys);
      var value := PrintValue(parent.fields[key]);
      var rest := PrintFields(parent, keys - {key});
      && i + 2 <= |ts| && ts[i] == Name(key) && ts[i + 1] == Punct(Colon)
      && Occurs(ts, i + 2, value) && Occurs(ts, i + 2 + |value|, rest)
      && |PrintFields(parent, keys)| == 2 + |value| + |rest|
  {
    var key := PickKey(keys);
    var value := PrintValue(parent.fields[key]);
    var rest := PrintFields(parent, keys - {key});
    assert PrintFields(parent, keys) == [Name(key), Punct(Colon)] + (value + rest);
    OccursSplit(ts, i, [Name(key), Punct(Colon)], value + rest);
    assert [Name(key), Punct(Colon)] == [Name(key)] + [Punct(Colon)];
    OccursSplit(ts, i, [Name(key)], [Punct(Colon)]);
    OccursHead(ts, i, [Name(key)]);
    OccursHead(ts, i + 1, [Punct(Colon)]);
    OccursSplit(ts, i + 2, value, rest);
  }

  /** One field of an object value: `key : value` folds `value` into the
      accumulated map under `key`, and the fields loop carries on after it. */
  lemma ObjectFieldStep(ts: seq<Token>, i: nat, acc: map<string, Value>, key: string, v: Value, n: nat)
    requires i + 2 <= |ts| && ts[i] == Name(key) && ts[i + 1] == Punct(Colon)
    requires ParseValue(ts, i + 2) == Ok(v, n)
    ensures ParseObjectFields(ts, i, acc) == ParseObjectFields(ts, n, acc[key := v])
  {
    hide ParseValue, ExpectPunct, Unwrap;
    ObjectFieldParts(ts, i, key, v, n);
  }

  lemma ObjectFieldParts(ts: seq<Token>, i: nat, key: string, v: Value, n: nat)
    requires i + 2 <= |ts| && ts[i] == Name(key) && ts[i + 1] == Punct(Colon)
    requires ParseValue(ts, i + 2) == Ok(v, n)
    ensures IsName(At(ts, i)) && ts[i].text == key
    ensures ExpectPunct(ts, i + 1, Colon, "") == Ok((), i + 2)
    ensures Unwrap(ParseValue(ts, i + 2), "") == Ok(v, n)
  {
    hide ParseValue;
  }

  /** The type rule parses every printed well-formed type back, provided a
      type that is not non-null is not followed by `!`. */
  lemma {:induction false} TypeRoundTrip(t: Type, ts: seq<Token>, i: nat)
    requires WellFormedType(t)
    requires Occurs(ts, i, PrintType(t))
    requires Clear(At(ts, i + |PrintType(t)|), TypeDanger(t))
    ensures ParseType(ts, i) == Ok(t, i + |PrintType(t)|)
    decreases t, 1
  {
    match t
    case NamedType(n) =>
      OccursHead(ts, i, [Name(n)]);
    case ListType(e) =>
      ListTypeRoundTrip(e, ts, i);
    case NonNullType(e) =>
      OccursSplit(ts, i, PrintType(e), [Punct(Bang)]);
      OccursHead(ts, i + |PrintType(e)|, [Punct(Bang)]);
      if e.NamedType? {
        OccursHead(ts, i, PrintType(e));
      } else {
        ListTypeRoundTrip(e.element, ts, i);
      }
  }

  /** `[ e ]` occurring at `i` is read as a list type, followed by an
      optional `!`. */
  lemma {:induction false} ListTypeRoundTrip(e: Type, ts: seq<Token>, i: nat)
    requires WellFormedType(e)
    requires Occurs(ts, i, PrintType(ListType(e)))
    ensures var n := i + |PrintType(ListType(e))|;
      ParseType(ts, i) ==
        if IsPunct(At(ts, n), Bang) then Ok(NonNullType(ListType(e)), n + 1) else Ok(ListType(e), n)
    decreases ListType(e), 0
  {
    OccursSplit(ts, i, [Punct(LBracket)], PrintType(e) + [Punct(RBracket)]);
    OccursHead(ts, i, [Punct(LBracket)]);
    OccursNext(ts, i + 1, PrintType(e), Punct(RBracket));
    TypeRoundTrip(e, ts, i + 1);
    ListTypeStep(ts, i, e, i + 1 + |PrintType(e)|);
  }

  /** `[`, an element type ending at `j`, and `]` make a list type. */
  lemma ListTypeStep(ts: seq<Token>, i: nat, e: Type, j: nat)
    requires i <= |ts| && IsPunct(At(ts, i), LBracket)
    requires ParseType(ts, i + 1) == Ok(e, j) && IsPunct(At(ts, j), RBracket)
    ensures ParseType(ts, i) ==
      if IsPunct(At(ts, j + 1), Bang) then Ok(NonNullType(ListType(e)), j + 2) else Ok(ListType(e), j + 1)
  {
  }
}
