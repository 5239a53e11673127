/** The meaning of the regular expressions that pick mutation sites: which stretches of a text an
expression matches, by its parts. */
module Patterns {
  type Kind = char -> bool

  datatype Rx =
    | One(kind: Kind)
    | Then(first: Rx, second: Rx)
    | Or(left: Rx, right: Rx)
    | Many(part: Rx)
    | Behind(kind: Kind)     // a character of the kind stands just before
    | NotBehind(kind: Kind)
    | Ahead(part: Rx)        // the part matches from here, and is not consumed
    | NotAhead(part: Rx)
    | Edge                   // a word starts or ends here

  function Is(c: char): Kind {
    d => d == c
  }

  function OneOf(s: string): Kind {
    d => d in s
  }

  /** `r` matches `m[i..j]`; `word` tells word characters. */
  ghost predicate Matches(word: Kind, r: Rx, m: string, i: nat, j: nat)
    decreases r, if i <= j then j - i else 0
  {
    i <= j <= |m| &&
    match r
    case One(kind) => j == i + 1 && kind(m[i])
    case Then(a, b) => exists k :: i <= k <= j && Matches(word, a, m, i, k) && Matches(word, b, m, k, j)
    case Or(a, b) => Matches(word, a, m, i, j) || Matches(word, b, m, i, j)
    case Many(a) => i == j || exists k :: i < k <= j && Matches(word, a, m, i, k) && Matches(word, r, m, k, j)
    case Behind(kind) => i == j && i > 0 && kind(m[i - 1])
    case NotBehind(kind) => i == j && (i == 0 || !kind(m[i - 1]))
    case Ahead(a) => i == j && exists k :: i <= k <= |m| && Matches(word, a, m, i, k)
    case NotAhead(a) => i == j && forall k :: i <= k <= |m| ==> !Matches(word, a, m, i, k)
    case Edge => i == j && (i > 0 && word(m[i - 1])) != (i < |m| && word(m[i]))
  }

  lemma Split(word: Kind, a: Rx, b: Rx, m: string, i: nat, j: nat) returns (k: nat)
    requires Matches(word, Then(a, b), m, i, j)
    ensures i <= k <= j && Matches(word, a, m, i, k) && Matches(word, b, m, k, j)
  {
    k :| i <= k <= j && Matches(word, a, m, i, k) && Matches(word, b, m, k, j);
  }

  lemma OneThen(word: Kind, kind: Kind, rest: Rx, m: string, i: nat, j: nat)
    ensures Matches(word, Then(One(kind), rest), m, i, j) <==>
      i < |m| && kind(m[i]) && Matches(word, rest, m, i + 1, j)
  {
    if i < |m| && kind(m[i]) && Matches(word, rest, m, i + 1, j) {
      assert Matches(word, One(kind), m, i, i + 1);
    }
  }

  lemma BehindThen(word: Kind, kind: Kind, rest: Rx, m: string, i: nat, j: nat)
    ensures Matches(word, Then(Behind(kind), rest), m, i, j) <==>
      0 < i <= |m| && kind(m[i - 1]) && Matches(word, rest, m, i, j)
    ensures Matches(word, Then(NotBehind(kind), rest), m, i, j) <==>
      i <= |m| && !(i > 0 && kind(m[i - 1])) && Matches(word, rest, m, i, j)
  {
    if Matches(word, rest, m, i, j) {
      if i > 0 && kind(m[i - 1]) {
        assert Matches(word, Behind(kind), m, i, i);
      } else {
        assert Matches(word, NotBehind(kind), m, i, i);
      }
    }
  }

  lemma OneAhead(word: Kind, kind: Kind, m: string, i: nat, j: nat)
    ensures Matches(word, Ahead(One(kind)), m, i, j) <==> i == j && i < |m| && kind(m[i])
    ensures Matches(word, NotAhead(One(kind)), m, i, j) <==> i == j <= |m| && !(i < |m| && kind(m[i]))
  {
    if i < |m| && kind(m[i]) { assert Matches(word, One(kind), m, i, i + 1); }
  }

  lemma AheadMeans(word: Kind, part: Rx, m: string, i: nat)
    ensures Matches(word, Ahead(part), m, i, i) <==> exists k: nat :: i <= k <= |m| && Matches(word, part, m, i, k)
  {
    if k: nat :| i <= k <= |m| && Matches(word, part, m, i, k) {
      assert Matches(word, Ahead(part), m, i, i);
    }
    if Matches(word, Ahead(part), m, i, i) {
      var k := AheadSome(word, part, m, i);
      assert Matches(word, part, m, i, k);
    }
  }

  lemma AheadSome(word: Kind, part: Rx, m: string, i: nat) returns (k: nat)
    requires Matches(word, Ahead(part), m, i, i)
    ensures i <= k <= |m| && Matches(word, part, m, i, k)
  {
    k :| i <= k <= |m| && Matches(word, part, m, i, k);
  }

  lemma NotAheadThen(word: Kind, kind: Kind, rest: Rx, m: string, i: nat, j: nat)
    ensures Matches(word, Then(NotAhead(One(kind)), rest), m, i, j) <==>
      i <= |m| && !(i < |m| && kind(m[i])) && Matches(word, rest, m, i, j)
  {
    OneAhead(word, kind, m, i, i);
    if Matches(word, Then(NotAhead(One(kind)), rest), m, i, j) {
      var k := Split(word, NotAhead(One(kind)), rest, m, i, j);
    }
  }

  lemma EdgeThen(word: Kind, rest: Rx, m: string, i: nat, j: nat)
    ensures Matches(word, Then(Edge, rest), m, i, j) <==>
      Matches(word, Edge, m, i, i) && Matches(word, rest, m, i, j)
  {
  }

  /** The run of characters of a kind from `i` on. */
  ghost predicate Run(kind: Kind, m: string, i: nat, k: nat) {
    i <= k <= |m| && forall l :: i <= l < k ==> kind(m[l])
  }

  lemma {:induction false} ManyOne(word: Kind, kind: Kind, m: string, i: nat, k: nat)
    ensures Matches(word, Many(One(kind)), m, i, k) <==> Run(kind, m, i, k)
    decreases if i <= k then k - i else 0
  {
    if i < k <= |m| {
      ManyOne(word, kind, m, i + 1, k);
      if kind(m[i]) { assert Matches(word, One(kind), m, i, i + 1); }
    }
  }

  /** A run up to the first character of another kind is all there is to choose. */
  lemma ManyOneThen(word: Kind, kind: Kind, rest: Rx, m: string, i: nat, j: nat, k: nat)
    requires Run(kind, m, i, k) && (k < |m| ==> !kind(m[k]))
    requires forall l :: i <= l < k ==> !Matches(word, rest, m, l, j)
    ensures Matches(word, Then(Many(One(kind)), rest), m, i, j) <==> Matches(word, rest, m, k, j)
  {
    ManyOne(word, kind, m, i, k);
    if Matches(word, Then(Many(One(kind)), rest), m, i, j) {
      var l := Split(word, Many(One(kind)), rest, m, i, j);
      ManyOne(word, kind, m, i, l);
    }
  }

  /** The characters of a word one after the other, and then the rest. */
  function Literal(s: string, rest: Rx): Rx {
    if s == "" then rest else Then(One(Is(s[0])), Literal(s[1..], rest))
  }

  lemma {:induction false} LiteralMeans(word: Kind, s: string, rest: Rx, m: string, i: nat, j: nat)
    ensures Matches(word, Literal(s, rest), m, i, j) <==>
      (s != "" ==> i <= |m| && s <= m[i..]) && Matches(word, rest, m, i + |s|, j)
  {
    if s != "" {
      OneThen(word, Is(s[0]), Literal(s[1..], rest), m, i, j);
      LiteralMeans(word, s[1..], rest, m, i + 1, j);
      if i < |m| {
        assert m[i..][1..] == m[i + 1..];
        assert s == [s[0]] + s[1..] && m[i..] == [m[i]] + m[i + 1..];
      }
    }
  }
}
