/**
 Round trips for selection sets: every printed selection set in the image of
 the selection rules parses back to the same list of selections.

 The image: argument and directive lists as for the other executable rules,
 a non-empty list in every selection set, a fragment spread never named `on`
 (that word goes to the inline fragment), and an inline fragment whose type
 condition is absent or the word `on` itself, since that word is all the
 rule records.
 */
module SelectionRoundTrips {
  import opened Wrappers
  import opened Tokens
  import opened Ast
  import opened Results
  import opened ExecutableGrammar
  import opened Spans
  import opened Printer
  import opened ExecutableRoundTrips

  // ------------------------------------------------------------ the image

  ghost predicate SelectionOk(s: Selection)
    decreases s, 0
  {
    match s
    case Field(_, _, args, ds, sub) => ArgumentsOk(args) && DirectivesOk(ds) && SubselectionOk(sub)
    case FragmentSpread(name, ds) => name != "on" && DirectivesOk(ds)
    case InlineFragment(typeCondition, ds, body) =>
      (typeCondition.None? || typeCondition == Some("on")) && DirectivesOk(ds) && SelectionListOk(body)
  }

  ghost predicate SubselectionOk(sub: Option<SubSelections>)
    decreases sub, 0
  {
    match sub
    case None => true
    case Some(SubSelections(ss)) => SelectionListOk(ss)
  }

  ghost predicate SelectionListOk(ss: seq<Selection>)
    decreases ss, 1
  {
    |ss| > 0 && forall k :: 0 <= k < |ss| ==> SelectionOk(ss[k])
  }

  /** What a selection must not be followed by: `:` would turn a bare field
      name into an alias, and `(`, `@` and `{` would be read as arguments,
      directives or a selection set of whatever part came last. Inside a
      selection set a selection is followed by another one or by `}`. */
  const SelectionDanger: set<Token> := {Punct(Colon), Punct(LParen), Punct(AtSign), Punct(LBrace)}

  // ------------------------------------------------------- first tokens

  lemma SelectionFirst(s: Selection)
    ensures SelectionStart(FirstOr(PrintSelection(s), None))
  {
    match s
    case Field(alias, name, _, _, _) =>
      var rest := [Name(name)] + (PrintArguments(s.arguments)
        + (PrintDirectives(s.directives) + PrintSubselection(s.selectionSet)));
      assert (PrintAlias(alias) + rest)[0] == if alias.Some? then Name(alias.value) else Name(name);
    case FragmentSpread(_, _) =>
    case InlineFragment(_, _, _) =>
  }

  lemma SelectionsFromFirst(ss: seq<Selection>, k: nat, next: Option<Token>)
    requires k <= |ss|
    ensures k < |ss| ==> SelectionStart(FirstOr(PrintSelectionsFrom(ss, k), next))
    ensures k == |ss| ==> FirstOr(PrintSelectionsFrom(ss, k), next) == next
  {
    if k < |ss| {
      var first := PrintSelection(ss[k]);
      SelectionFirst(ss[k]);
      assert PrintSelectionsFrom(ss, k) == first + PrintSelectionsFrom(ss, k + 1);
      assert (first + PrintSelectionsFrom(ss, k + 1))[0] == first[0];
    }
  }

  lemma SubselectionFirst(sub: Option<SubSelections>, next: Option<Token>)
    ensures FirstOr(PrintSubselection(sub), next) == if sub.Some? then Some(Punct(LBrace)) else next
  {
  }

  // ------------------------------------------------------- selection sets

  /** `{`, the selections, and the `}` at `end`. */
  lemma SelectionSetSplit(ss: seq<Selection>, ts: seq<Token>, i: nat) returns (end: nat)
    requires SelectionListOk(ss)
    requires Occurs(ts, i, PrintSelectionSet(ss))
    ensures |ss| > 0 && i <= |ts| && IsPunct(At(ts, i), LBrace)
    ensures Occurs(ts, i + 1, PrintSelectionsFrom(ss, 0))
    ensures end == i + 1 + |PrintSelectionsFrom(ss, 0)| && IsPunct(At(ts, end), RBrace)
    ensures end + 1 == i + |PrintSelectionSet(ss)|
  {
    hide PrintSelection;
    var items := PrintSelectionsFrom(ss, 0);
    OccursSplit(ts, i, [Punct(LBrace)], items + [Punct(RBrace)]);
    OccursHead(ts, i, [Punct(LBrace)]);
    OccursNext(ts, i + 1, items, Punct(RBrace));
    end := i + 1 + |items|;
  }

  /** The selection-set rule reads back every printed selection set. */
  lemma SelectionSetRoundTrip(ss: seq<Selection>, ts: seq<Token>, i: nat)
    requires SelectionListOk(ss)
    requires Occurs(ts, i, PrintSelectionSet(ss))
    ensures ParseSelectionSet(ts, i) == Ok(ss, i + |PrintSelectionSet(ss)|)
    decreases ss, |ss| + 1
  {
    hide *;
    var end := SelectionSetSplit(ss, ts, i);
    var n := SelectionItemRoundTrip(ss, 0, ts, i + 1, end);
    SelectionItemsRoundTrip(ss, 1, ts, n, end);
    SuffixCons(ss, 0);
    assert ss[0..] == ss;
    SelectionSetStep(ts, i, ss[0], ss[1..], n, end);
  }

  lemma SelectionSetStep(ts: seq<Token>, i: nat, first: Selection, rest: seq<Selection>, j: nat, k: nat)
    requires i <= |ts| && IsPunct(At(ts, i), LBrace)
    requires ParseSelection(ts, i + 1) == Ok(first, j) && j <= |ts|
    requires ParseSelectionItems(ts, j) == Ok(rest, k)
    ensures ParseSelectionSet(ts, i) == Ok([first] + rest, k + 1)
  {
    hide ParseSelection, ParseSelectionItems;
  }

  /** The selection `ss[k]` and the ones after it, inside the braces that
      close at `end`. */
  lemma SelectionItemSplit(ss: seq<Selection>, k: nat, ts: seq<Token>, i: nat, end: nat)
    requires k < |ss| && SelectionListOk(ss)
    requires Occurs(ts, i, PrintSelectionsFrom(ss, k))
    requires end == i + |PrintSelectionsFrom(ss, k)| && IsPunct(At(ts, end), RBrace)
    ensures SelectionOk(ss[k]) && i <= |ts| && !IsPunct(At(ts, i), RBrace)
    ensures Occurs(ts, i, PrintSelection(ss[k]))
    ensures Clear(At(ts, i + |PrintSelection(ss[k])|), SelectionDanger)
    ensures Occurs(ts, i + |PrintSelection(ss[k])|, PrintSelectionsFrom(ss, k + 1))
    ensures end == i + |PrintSelection(ss[k])| + |PrintSelectionsFrom(ss, k + 1)|
    ensures i + |PrintSelection(ss[k])| <= |ts|
  {
    hide PrintSelection;
    var first := PrintSelection(ss[k]);
    var rest := PrintSelectionsFrom(ss, k + 1);
    assert PrintSelectionsFrom(ss, k) == first + rest;
    OccursSplit(ts, i, first, rest);
    OccursFirst(ts, i, first + rest);
    SelectionsFromFirst(ss, k, At(ts, end));
    OccursFirst(ts, i + |first|, rest);
    SelectionsFromFirst(ss, k + 1, At(ts, end));
  }

  /** The selection `ss[k]` is read back, and the remaining ones follow it. */
  lemma SelectionItemRoundTrip(ss: seq<Selection>, k: nat, ts: seq<Token>, i: nat, end: nat) returns (n: nat)
    requires k < |ss| && SelectionListOk(ss)
    requires Occurs(ts, i, PrintSelectionsFrom(ss, k))
    requires end == i + |PrintSelectionsFrom(ss, k)| && IsPunct(At(ts, end), RBrace)
    ensures i <= n <= |ts| && !IsPunct(At(ts, i), RBrace)
    ensures ParseSelection(ts, i) == Ok(ss[k], n)
    ensures Occurs(ts, n, PrintSelectionsFrom(ss, k + 1)) && end == n + |PrintSelectionsFrom(ss, k + 1)|
    decreases ss, |ss| - k, 0
  {
    hide *;
    SelectionItemSplit(ss, k, ts, i, end);
    SelectionRoundTrip(ss[k], ts, i);
    n := i + |PrintSelection(ss[k])|;
  }

  /** The selections `ss[k..]` are read back by the loop that stops at `}`. */
  lemma {:induction false} SelectionItemsRoundTrip(ss: seq<Selection>, k: nat, ts: seq<Token>, i: nat, end: nat)
    requires k <= |ss| && SelectionListOk(ss)
    requires Occurs(ts, i, PrintSelectionsFrom(ss, k))
    requires end == i + |PrintSelectionsFrom(ss, k)| && IsPunct(At(ts, end), RBrace)
    ensures ParseSelectionItems(ts, i) == Ok(ss[k..], end)
    decreases ss, |ss| - k, 1
  {
    hide *;
    if k == |ss| {
      SelectionItemsEnd(ss, k, ts, i, end);
    } else {
      var n := SelectionItemRoundTrip(ss, k, ts, i, end);
      SelectionItemsRoundTrip(ss, k + 1, ts, n, end);
      SuffixCons(ss, k);
      SelectionItemStep(ts, i, ss[k], ss[k + 1..], n, end);
    }
  }

  lemma SelectionItemsEnd(ss: seq<Selection>, k: nat, ts: seq<Token>, i: nat, end: nat)
    requires k == |ss|
    requires Occurs(ts, i, PrintSelectionsFrom(ss, k))
    requires end == i + |PrintSelectionsFrom(ss, k)| && IsPunct(At(ts, end), RBrace)
    ensures ParseSelectionItems(ts, i) == Ok(ss[k..], end)
  {
    hide ParseSelection, PrintSelection;
    assert ss[k..] == [];
  }

  lemma SelectionItemStep(ts: seq<Token>, i: nat, s: Selection, rest: seq<Selection>, n: nat, end: nat)
    requires i <= |ts| && !IsPunct(At(ts, i), RBrace)
    requires ParseSelection(ts, i) == Ok(s, n) && n <= |ts|
    requires ParseSelectionItems(ts, n) == Ok(rest, end)
    ensures ParseSelectionItems(ts, i) == Ok([s] + rest, end)
  {
    hide ParseSelection;
  }

  // ------------------------------------------------------------ selections

  /** The selection rule reads back every printed selection whose next
      token cannot continue it. */
  lemma SelectionRoundTrip(s: Selection, ts: seq<Token>, i: nat)
    requires SelectionOk(s)
    requires Occurs(ts, i, PrintSelection(s))
    requires Clear(At(ts, i + |PrintSelection(s)|), SelectionDanger)
    ensures ParseSelection(ts, i) == Ok(s, i + |PrintSelection(s)|)
    decreases s, 2
  {
    hide *;
    match s
    case Field(_, _, _, _, _) =>
      FieldRoundTrip(s, ts, i);
    case FragmentSpread(_, _) =>
      FragmentSpreadRoundTrip(s, ts, i);
      SpreadDispatch(ts, i, s, i + |PrintSelection(s)|);
    case InlineFragment(_, _, _) =>
      InlineFragmentRoundTrip(s, ts, i);
      InlineDispatch(ts, i, s, i + |PrintSelection(s)|);
  }

  /** At `...` no field starts, so a fragment spread is what the selection
      rule returns when there is one. */
  lemma SpreadDispatch(ts: seq<Token>, i: nat, s: Selection, n: nat)
    requires i <= |ts| && IsPunct(At(ts, i), Spread)
    requires ParseFragmentSpread(ts, i) == Ok(s, n)
    ensures ParseSelection(ts, i) == Ok(s, n)
  {
    hide ParseField, ParseFragmentSpread, ParseInlineFragment;
  }

  /** After `...` without a name other than `on` the fragment spread does
      not match, and the inline fragment is what the selection rule returns. */
  lemma InlineDispatch(ts: seq<Token>, i: nat, s: Selection, n: nat)
    requires i <= |ts| && IsPunct(At(ts, i), Spread)
    requires !(IsName(At(ts, i + 1)) && ts[i + 1].text != "on")
    requires ParseInlineFragment(ts, i) == Ok(s, n)
    ensures ParseSelection(ts, i) == Ok(s, n)
  {
    hide ParseField, ParseFragmentSpread, ParseInlineFragment;
  }

  // ---------------------------------------------------------------- fields

  /** Where the parts of a printed field lie: the alias and name end at `j`,
      the arguments at `k`, the directives at `l`, and the selection set at
      the end of the field. */
  lemma FieldSplit(s: Selection, ts: seq<Token>, i: nat) returns (j: nat, k: nat, l: nat)
    requires s.Field?
    requires Occurs(ts, i, PrintSelection(s))
    ensures j == i + |PrintAlias(s.alias)| + 1
    ensures Occurs(ts, i, PrintAlias(s.alias)) && Occurs(ts, i + |PrintAlias(s.alias)|, [Name(s.name)])
    ensures Occurs(ts, j, PrintArguments(s.arguments)) && k == j + |PrintArguments(s.arguments)|
    ensures Occurs(ts, k, PrintDirectives(s.directives)) && l == k + |PrintDirectives(s.directives)|
    ensures Occurs(ts, l, PrintSubselection(s.selectionSet))
    ensures l + |PrintSubselection(s.selectionSet)| == i + |PrintSelection(s)|
  {
    hide PrintAlias, PrintArguments, PrintDirectives, PrintSubselection;
    var alias := PrintAlias(s.alias);
    var args := PrintArguments(s.arguments);
    var ds := PrintDirectives(s.directives);
    var sub := PrintSubselection(s.selectionSet);
    OccursSplit(ts, i, alias, [Name(s.name)] + (args + (ds + sub)));
    OccursSplit(ts, i + |alias|, [Name(s.name)], args + (ds + sub));
    j := i + |alias| + 1;
    OccursSplit(ts, j, args, ds + sub);
    k := j + |args|;
    OccursSplit(ts, k, ds, sub);
    l := k + |ds|;
  }

  /** The tokens the parser sees after each part of a printed field. */
  lemma FieldNext(s: Selection, ts: seq<Token>, j: nat, k: nat, l: nat, end: nat)
    requires s.Field? && DirectivesOk(s.directives)
    requires Occurs(ts, j, PrintArguments(s.arguments)) && k == j + |PrintArguments(s.arguments)|
    requires Occurs(ts, k, PrintDirectives(s.directives)) && l == k + |PrintDirectives(s.directives)|
    requires Occurs(ts, l, PrintSubselection(s.selectionSet)) && end == l + |PrintSubselection(s.selectionSet)|
    requires Clear(At(ts, end), SelectionDanger)
    ensures Clear(At(ts, l), DirectivesDanger)
    ensures s.selectionSet.None? ==> !IsPunct(At(ts, l), LBrace) && end == l
    ensures s.arguments.None? ==> !IsPunct(At(ts, j), LParen)
    ensures Clear(At(ts, j), {Punct(Colon)})
  {
    OccursFirst(ts, l, PrintSubselection(s.selectionSet));
    SubselectionFirst(s.selectionSet, At(ts, end));
    OccursFirst(ts, k, PrintDirectives(s.directives));
    DirectivesFirst(s.directives, At(ts, l));
    OccursFirst(ts, j, PrintArguments(s.arguments));
    ArgumentsFirst(s.arguments, At(ts, k));
  }

  /** The alias and name of a printed field, as the parser sees them. */
  lemma FieldHead(s: Selection, ts: seq<Token>, i: nat, j: nat)
    requires s.Field?
    requires Occurs(ts, i, PrintAlias(s.alias)) && Occurs(ts, i + |PrintAlias(s.alias)|, [Name(s.name)])
    requires j == i + |PrintAlias(s.alias)| + 1 && Clear(At(ts, j), {Punct(Colon)})
    ensures IsName(At(ts, i)) && j <= |ts|
    ensures s.alias.Some? ==>
      j == i + 3 && ts[i] == Name(s.alias.value) && IsPunct(At(ts, i + 1), Colon) && ts[i + 2] == Name(s.name)
    ensures s.alias.None? ==> ts[i] == Name(s.name) && !IsPunct(At(ts, i + 1), Colon) && j == i + 1
  {
    OccursHead(ts, i + |PrintAlias(s.alias)|, [Name(s.name)]);
    if s.alias.Some? {
      OccursPair(ts, i, Name(s.alias.value), Punct(Colon));
    }
  }

  lemma FieldRoundTrip(s: Selection, ts: seq<Token>, i: nat)
    requires s.Field? && SelectionOk(s)
    requires Occurs(ts, i, PrintSelection(s))
    requires Clear(At(ts, i + |PrintSelection(s)|), SelectionDanger)
    ensures ParseSelection(ts, i) == Ok(s, i + |PrintSelection(s)|)
    decreases s, 1
  {
    hide *;
    var j, k, l := FieldSplit(s, ts, i);
    var end := i + |PrintSelection(s)|;
    FieldOkParts(s);
    FieldNext(s, ts, j, k, l, end);
    FieldHead(s, ts, i, j);
    FieldParts(s, ts, i, j, k, l, end);
  }

  lemma FieldOkParts(s: Selection)
    requires s.Field? && SelectionOk(s)
    ensures ArgumentsOk(s.arguments) && DirectivesOk(s.directives)
    ensures s.selectionSet.Some? ==> SelectionListOk(s.selectionSet.value.selections)
  {
  }

  /** A field laid out as printed is read back part by part. */
  lemma FieldParts(s: Selection, ts: seq<Token>, i: nat, j: nat, k: nat, l: nat, end: nat)
    requires s.Field? && ArgumentsOk(s.arguments) && DirectivesOk(s.directives)
    requires s.selectionSet.Some? ==> SelectionListOk(s.selectionSet.value.selections)
    requires IsName(At(ts, i)) && j <= |ts|
    requires s.alias.Some? ==>
      j == i + 3 && ts[i] == Name(s.alias.value) && IsPunct(At(ts, i + 1), Colon) && ts[i + 2] == Name(s.name)
    requires s.alias.None? ==> ts[i] == Name(s.name) && !IsPunct(At(ts, i + 1), Colon) && j == i + 1
    requires Occurs(ts, j, PrintArguments(s.arguments)) && k == j + |PrintArguments(s.arguments)|
    requires s.arguments.None? ==> !IsPunct(At(ts, j), LParen)
    requires Occurs(ts, k, PrintDirectives(s.directives)) && l == k + |PrintDirectives(s.directives)|
    requires Clear(At(ts, l), DirectivesDanger)
    requires Occurs(ts, l, PrintSubselection(s.selectionSet)) && end == l + |PrintSubselection(s.selectionSet)|
    requires s.selectionSet.None? ==> !IsPunct(At(ts, l), LBrace) && end == l
    ensures ParseSelection(ts, i) == Ok(s, end)
    decreases s, 0
  {
    hide *;
    ArgumentsRoundTrip(s.arguments, ts, j);
    DirectivesRoundTrip(s.directives, ts, k);
    if s.selectionSet.Some? {
      SubselectionRoundTrip(s.selectionSet, ts, l);
    }
    FieldStep(ts, i, s, j, k, l, end);
  }

  lemma SubselectionRoundTrip(sub: Option<SubSelections>, ts: seq<Token>, l: nat)
    requires sub.Some? && SelectionListOk(sub.value.selections)
    requires Occurs(ts, l, PrintSubselection(sub))
    ensures ParseSelectionSet(ts, l) == Ok(sub.value.selections, l + |PrintSubselection(sub)|)
    decreases sub, 1
  {
    SelectionSetRoundTrip(sub.value.selections, ts, l);
  }

  lemma FieldStep(ts: seq<Token>, i: nat, s: Selection, j: nat, k: nat, l: nat, m: nat)
    requires s.Field? && IsName(At(ts, i)) && j <= |ts|
    requires s.alias.Some? ==>
      j == i + 3 && ts[i] == Name(s.alias.value) && IsPunct(At(ts, i + 1), Colon) && ts[i + 2] == Name(s.name)
    requires s.alias.None? ==> ts[i] == Name(s.name) && !IsPunct(At(ts, i + 1), Colon) && j == i + 1
    requires ParseOptionalArguments(ts, j) == Ok(s.arguments, k) && k <= |ts|
    requires ParseOptionalDirectives(ts, k) == Ok(s.directives, l) && l <= |ts|
    requires s.selectionSet.None? ==> !IsPunct(At(ts, l), LBrace) && m == l
    requires s.selectionSet.Some? ==> ParseSelectionSet(ts, l) == Ok(s.selectionSet.value.selections, m)
    ensures ParseSelection(ts, i) == Ok(s, m)
  {
    hide ParseOptionalArguments, ParseOptionalDirectives, ParseSelectionSet;
    assert ParseField(ts, i) == Ok(s, m);
  }

  // ------------------------------------------------------ fragment spreads

  lemma FragmentSpreadSplit(s: Selection, ts: seq<Token>, i: nat)
    requires s.FragmentSpread? && SelectionOk(s)
    requires Occurs(ts, i, PrintSelection(s))
    requires Clear(At(ts, i + |PrintSelection(s)|), SelectionDanger)
    ensures i + 2 <= |ts| && IsPunct(At(ts, i), Spread)
    ensures IsName(At(ts, i + 1)) && ts[i + 1] == Name(s.name) && s.name != "on"
    ensures DirectivesOk(s.directives) && Occurs(ts, i + 2, PrintDirectives(s.directives))
    ensures i + 2 + |PrintDirectives(s.directives)| == i + |PrintSelection(s)|
    ensures Clear(At(ts, i + 2 + |PrintDirectives(s.directives)|), DirectivesDanger)
  {
    hide PrintDirectives;
    OccursSplit(ts, i, [Punct(Spread), Name(s.name)], PrintDirectives(s.directives));
    OccursPair(ts, i, Punct(Spread), Name(s.name));
  }

  lemma FragmentSpreadRoundTrip(s: Selection, ts: seq<Token>, i: nat)
    requires s.FragmentSpread? && SelectionOk(s)
    requires Occurs(ts, i, PrintSelection(s))
    requires Clear(At(ts, i + |PrintSelection(s)|), SelectionDanger)
    ensures i <= |ts| && IsPunct(At(ts, i), Spread)
    ensures ParseFragmentSpread(ts, i) == Ok(s, i + |PrintSelection(s)|)
  {
    hide *;
    FragmentSpreadSplit(s, ts, i);
    DirectivesRoundTrip(s.directives, ts, i + 2);
    FragmentSpreadStep(ts, i, s, i + 2 + |PrintDirectives(s.directives)|);
  }

  lemma FragmentSpreadStep(ts: seq<Token>, i: nat, s: Selection, n: nat)
    requires s.FragmentSpread? && i + 2 <= |ts| && IsPunct(At(ts, i), Spread)
    requires IsName(At(ts, i + 1)) && ts[i + 1] == Name(s.name) && s.name != "on"
    requires ParseOptionalDirectives(ts, i + 2) == Ok(s.directives, n)
    ensures ParseFragmentSpread(ts, i) == Ok(s, n)
  {
    hide ParseOptionalDirectives;
  }

  // ------------------------------------------------------ inline fragments

  /** Where the parts of a printed inline fragment lie: the type condition
      ends at `j` and the directives at `k`. */
  lemma InlineFragmentSplit(s: Selection, ts: seq<Token>, i: nat) returns (j: nat, k: nat)
    requires s.InlineFragment? && SelectionOk(s)
    requires Occurs(ts, i, PrintSelection(s))
    ensures i < |ts| && IsPunct(At(ts, i), Spread)
    ensures s.typeCondition.Some? ==> j == i + 2 && IsKeyword(At(ts, i + 1), "on") && s.typeCondition == Some("on")
    ensures s.typeCondition.None? ==> j == i + 1 && !IsName(At(ts, i + 1))
    ensures DirectivesOk(s.directives) && SelectionListOk(s.body)
    ensures Occurs(ts, j, PrintDirectives(s.directives)) && k == j + |PrintDirectives(s.directives)|
    ensures Clear(At(ts, k), DirectivesDanger)
    ensures Occurs(ts, k, PrintSelectionSet(s.body)) && k + |PrintSelectionSet(s.body)| == i + |PrintSelection(s)|
  {
    hide PrintDirectives, PrintSelectionSet;
    var tc := PrintTypeCondition(s.typeCondition);
    var ds := PrintDirectives(s.directives);
    var body := PrintSelectionSet(s.body);
    OccursSplit(ts, i, [Punct(Spread)], tc + (ds + body));
    OccursHead(ts, i, [Punct(Spread)]);
    OccursSplit(ts, i + 1, tc, ds + body);
    j := i + 1 + |tc|;
    OccursSplit(ts, j, ds, body);
    k := j + |ds|;
    OccursHead(ts, k, body);
    OccursFirst(ts, j, ds);
    DirectivesFirst(s.directives, At(ts, k));
    if s.typeCondition.Some? {
      OccursHead(ts, i + 1, tc);
    }
  }

  lemma InlineFragmentRoundTrip(s: Selection, ts: seq<Token>, i: nat)
    requires s.InlineFragment? && SelectionOk(s)
    requires Occurs(ts, i, PrintSelection(s))
    ensures i <= |ts| && IsPunct(At(ts, i), Spread) && !(IsName(At(ts, i + 1)) && ts[i + 1].text != "on")
    ensures ParseInlineFragment(ts, i) == Ok(s, i + |PrintSelection(s)|)
    decreases s, 0
  {
    hide *;
    var j, k := InlineFragmentSplit(s, ts, i);
    DirectivesRoundTrip(s.directives, ts, j);
    SelectionSetRoundTrip(s.body, ts, k);
    InlineFragmentStep(ts, i, s, j, k, k + |PrintSelectionSet(s.body)|);
  }

  lemma InlineFragmentStep(ts: seq<Token>, i: nat, s: Selection, j: nat, k: nat, m: nat)
    requires s.InlineFragment? && i < |ts| && IsPunct(At(ts, i), Spread)
    requires s.typeCondition.Some? ==> j == i + 2 && IsKeyword(At(ts, i + 1), "on") && s.typeCondition == Some("on")
    requires s.typeCondition.None? ==> j == i + 1 && !IsName(At(ts, i + 1))
    requires ParseOptionalDirectives(ts, j) == Ok(s.directives, k) && k <= |ts|
    requires ParseSelectionSet(ts, k) == Ok(s.body, m)
    ensures !(IsName(At(ts, i + 1)) && ts[i + 1].text != "on")
    ensures ParseInlineFragment(ts, i) == Ok(s, m)
  {
    hide ParseOptionalDirectives, ParseSelectionSet;
  }
}
