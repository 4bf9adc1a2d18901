/**
 Where a printed token sequence sits inside a larger token sequence. The
 round-trip lemmas place a printed phrase at an index of an arbitrary token
 sequence, so that whatever follows the phrase is part of the statement.
 */
module Spans {
  import opened Wrappers
  import opened Tokens

  /** The tokens `p` occur in `ts` from index `i` on. */
  ghost predicate Occurs(ts: seq<Token>, i: nat, p: seq<Token>) {
    i + |p| <= |ts| && forall j :: 0 <= j < |p| ==> ts[i + j] == p[j]
  }

  /** The token after a phrase is none of `danger`: the tokens that would make
      the parser read the phrase differently or carry on with it. */
  predicate Clear(next: Option<Token>, danger: set<Token>) {
    next.None? || next.value !in danger
  }

  lemma OccursSplit(ts: seq<Token>, i: nat, a: seq<Token>, b: seq<Token>)
    requires Occurs(ts, i, a + b)
    ensures Occurs(ts, i, a) && Occurs(ts, i + |a|, b)
  {
    forall j | 0 <= j < |a| ensures ts[i + j] == a[j] {
      assert (a + b)[j] == a[j];
    }
    forall j | 0 <= j < |b| ensures ts[i + |a| + j] == b[j] {
      assert (a + b)[|a| + j] == b[j];
    }
  }

  lemma OccursJoin(ts: seq<Token>, i: nat, a: seq<Token>, b: seq<Token>)
    requires Occurs(ts, i, a) && Occurs(ts, i + |a|, b)
    ensures Occurs(ts, i, a + b)
  {
    forall j | 0 <= j < |a + b| ensures ts[i + j] == (a + b)[j] {
      if j >= |a| {
        assert b[j - |a|] == (a + b)[j];
      }
    }
  }

  /** The first token of an occurrence is the token at its index. */
  lemma OccursHead(ts: seq<Token>, i: nat, p: seq<Token>)
    requires Occurs(ts, i, p) && |p| > 0
    ensures At(ts, i) == Some(p[0])
  {
    assert ts[i + 0] == p[0];
  }

  /** The token after a phrase, when the phrase is followed by `t`. */
  lemma OccursNext(ts: seq<Token>, i: nat, p: seq<Token>, t: Token)
    requires Occurs(ts, i, p + [t])
    ensures Occurs(ts, i, p) && At(ts, i + |p|) == Some(t)
  {
    OccursSplit(ts, i, p, [t]);
    OccursHead(ts, i + |p|, [t]);
  }

  /** The first token of `p`, or `next` when `p` is empty: the token a parser
      sees at the start of `p` when `next` follows it. */
  function FirstOr(p: seq<Token>, next: Option<Token>): Option<Token> {
    if |p| > 0 then Some(p[0]) else next
  }

  lemma FirstOrAppend(a: seq<Token>, b: seq<Token>, next: Option<Token>)
    ensures FirstOr(a + b, next) == FirstOr(a, FirstOr(b, next))
  {
    if |a| > 0 {
      assert (a + b)[0] == a[0];
    } else {
      assert a + b == b;
    }
  }

  /** The token a parser sees at the start of an occurrence of `p`: its first
      token, or the token after the occurrence when `p` is empty. */
  lemma OccursFirst(ts: seq<Token>, i: nat, p: seq<Token>)
    requires Occurs(ts, i, p)
    ensures At(ts, i) == FirstOr(p, At(ts, i + |p|))
  {
    if |p| > 0 {
      OccursHead(ts, i, p);
    }
  }

  /** A suffix of a sequence is its first element followed by the next suffix. */
  lemma SuffixCons<T>(s: seq<T>, k: nat)
    requires k < |s|
    ensures s[k..] == [s[k]] + s[k + 1..]
  {
  }

  /** A two-token phrase, token by token. */
  lemma OccursPair(ts: seq<Token>, i: nat, a: Token, b: Token)
    requires Occurs(ts, i, [a, b])
    ensures i + 2 <= |ts| && ts[i] == a && ts[i + 1] == b
  {
    assert ts[i + 0] == [a, b][0];
    assert ts[i + 1] == [a, b][1];
  }

  /** A three-token phrase, token by token. */
  lemma OccursTriple(ts: seq<Token>, i: nat, a: Token, b: Token, c: Token)
    requires Occurs(ts, i, [a, b, c])
    ensures i + 3 <= |ts| && ts[i] == a && ts[i + 1] == b && ts[i + 2] == c
  {
    assert ts[i + 0] == [a, b, c][0];
    assert ts[i + 1] == [a, b, c][1];
    assert ts[i + 2] == [a, b, c][2];
  }

  /** A phrase between an opening and a closing token: where its inside lies
      and where the closing token sits. */
  lemma OccursBracketed(ts: seq<Token>, i: nat, open: Token, inside: seq<Token>, close: Token) returns (end: nat)
    requires Occurs(ts, i, [open] + (inside + [close]))
    ensures i < |ts| && ts[i] == open && Occurs(ts, i + 1, inside)
    ensures end == i + 1 + |inside| && end < |ts| && ts[end] == close
    ensures end + 1 == i + |[open] + (inside + [close])|
  {
    OccursSplit(ts, i, [open], inside + [close]);
    OccursHead(ts, i, [open]);
    OccursNext(ts, i + 1, inside, close);
    end := i + 1 + |inside|;
  }
}
