/** Single-site RTL mutations: hiding what is not code, finding operator sites, and listing
mutants under caps. */
module Mutators {
  import opened Patterns
  import opened Wrappers

  /** The host's character classes. */
  datatype Lex = Lex(word: char -> bool, space: char -> bool)

  ghost predicate SoundLex(x: Lex) {
    !x.word(' ') && !x.word('\r') && !x.word('\n') && !x.word(')') && x.word('1') && !x.space('1')
  }

  // ---- the code mask -----------------------------------------------------------------

  function At(t: string, i: nat, p: string): bool {
    i <= |t| && p <= t[i..]
  }

  /** The end of the line holding `i`. */
  function LineEnd(t: string, i: nat): (e: nat)
    requires i <= |t|
    ensures i <= e <= |t|
    decreases |t| - i
  {
    if i == |t| || t[i] == '\n' then i else LineEnd(t, i + 1)
  }

  /** Just after the next comment terminator; `i` itself when there is none. */
  function CommentEnd(t: string, i: nat, from: nat): (e: nat)
    requires i <= from <= |t|
    ensures e == i || from + 2 <= e <= |t|
    decreases |t| - from
  {
    if from + 2 > |t| then i else if At(t, from, "*/") then from + 2 else CommentEnd(t, i, from + 1)
  }

  /** Just after the closing quote of a string literal opened at `i`; `i` when unclosed. */
  function StringEnd(t: string, i: nat, from: nat): (e: nat)
    requires i < from
    ensures e == i || from < e <= |t|
    decreases |t| - from
  {
    if from >= |t| then i
    else if t[from] == '"' then from + 1
    else if t[from] == '\\' then if from + 1 < |t| && t[from + 1] != '\n' then StringEnd(t, i, from + 2) else i
    else StringEnd(t, i, from + 1)
  }

  function EscapedEnd(x: Lex, t: string, from: nat): (e: nat)
    requires from <= |t|
    ensures from <= e <= |t|
    decreases |t| - from
  {
    if from == |t| || x.space(t[from]) then from else EscapedEnd(x, t, from + 1)
  }

  /** The end of the comment, string or escaped identifier that starts at `i`; `i` itself
      when none does.  What is hidden is at least two characters long. */
  function HiddenEnd(x: Lex, t: string, i: nat): (e: nat)
    requires i < |t|
    ensures e == i || i + 2 <= e <= |t|
  {
    if At(t, i, "//") then LineEnd(t, i + 2)
    else if At(t, i, "/*") then CommentEnd(t, i, i + 2)
    else if t[i] == '"' then StringEnd(t, i, i + 1)
    else if t[i] == '\\' && i + 1 < |t| && !x.space(t[i + 1]) then EscapedEnd(x, t, i + 2)
    else i
  }

  function Blank(c: char): char {
    if c == '\r' || c == '\n' then c else ' '
  }

  /** Which positions from `i` on lie in comments, strings or escaped identifiers. */
  function HiddenFrom(x: Lex, t: string, i: nat): (r: seq<bool>)
    requires i <= |t|
    ensures |r| == |t| - i
    decreases |t| - i
  {
    if i == |t| then []
    else
      var e := HiddenEnd(x, t, i);
      if e == i then [false] + HiddenFrom(x, t, i + 1)
      else seq(e - i, _ => true) + HiddenFrom(x, t, e)
  }

  function MaskFrom(x: Lex, t: string, i: nat): (r: string)
    requires i <= |t|
    ensures |r| == |t| - i
    decreases |t| - i
  {
    if i == |t| then []
    else
      var e := HiddenEnd(x, t, i);
      if e == i then [t[i]] + MaskFrom(x, t, i + 1)
      else seq(e - i, k requires 0 <= k < e - i => Blank(t[i + k])) + MaskFrom(x, t, e)
  }

  function CodeMask(x: Lex, t: string): (r: string)
    ensures |r| == |t|
  {
    MaskFrom(x, t, 0)
  }

  function Hidden(x: Lex, t: string): (r: seq<bool>)
    ensures |r| == |t|
  {
    HiddenFrom(x, t, 0)
  }

  lemma {:induction false} MaskMeans(x: Lex, t: string, i: nat, k: nat)
    requires i <= k < |t|
    ensures MaskFrom(x, t, i)[k - i] == if HiddenFrom(x, t, i)[k - i] then Blank(t[k]) else t[k]
    decreases |t| - i
  {
    hide HiddenEnd, Blank;
    var e := HiddenEnd(x, t, i);
    var next := if e == i then i + 1 else e;
    if k >= next {
      MaskMeans(x, t, next, k);
      assert MaskFrom(x, t, i)[k - i] == MaskFrom(x, t, next)[k - next];
      assert HiddenFrom(x, t, i)[k - i] == HiddenFrom(x, t, next)[k - next];
    }
  }

  /** Hidden positions come at least two in a row. */
  lemma {:induction false} HiddenInPairs(x: Lex, t: string, i: nat, k: nat)
    requires i <= k < |t| && HiddenFrom(x, t, i)[k - i]
    ensures var h := HiddenFrom(x, t, i); (k > i && h[k - 1 - i]) || (k + 1 < |t| && h[k + 1 - i])
    decreases |t| - i
  {
    var e := HiddenEnd(x, t, i);
    var next := if e == i then i + 1 else e;
    if k >= next {
      assert HiddenFrom(x, t, i)[k - i] == HiddenFrom(x, t, next)[k - next];
      HiddenInPairs(x, t, next, k);
      assert k > next ==> HiddenFrom(x, t, i)[k - 1 - i] == HiddenFrom(x, t, next)[k - 1 - next];
      assert k + 1 < |t| ==> HiddenFrom(x, t, i)[k + 1 - i] == HiddenFrom(x, t, next)[k + 1 - next];
    } else {
      assert e >= i + 2;
    }
  }

  /** The mask keeps length, newlines and code, and blanks everything hidden. */
  lemma CodeMaskMeans(x: Lex, t: string)
    ensures |CodeMask(x, t)| == |t|
    ensures forall k :: 0 <= k < |t| ==> (CodeMask(x, t)[k] == '\n' <==> t[k] == '\n')
    ensures forall k :: 0 <= k < |t| && !Hidden(x, t)[k] ==> CodeMask(x, t)[k] == t[k]
    ensures forall k :: 0 <= k < |t| && Hidden(x, t)[k] ==> CodeMask(x, t)[k] in " \r\n"
    ensures forall k :: 0 <= k < |t| && Hidden(x, t)[k] ==>
      (k > 0 && Hidden(x, t)[k - 1]) || (k + 1 < |t| && Hidden(x, t)[k + 1])
  {
    forall k | 0 <= k < |t| ensures CodeMask(x, t)[k] == if Hidden(x, t)[k] then Blank(t[k]) else t[k] {
      MaskMeans(x, t, 0, k);
    }
    forall k | 0 <= k < |t| && Hidden(x, t)[k]
      ensures (k > 0 && Hidden(x, t)[k - 1]) || (k + 1 < |t| && Hidden(x, t)[k + 1])
    {
      HiddenInPairs(x, t, 0, k);
    }
  }

  // ---- what the mask hides, by how it is written ----------------------------------------------

  /** A stretch of source as it is written. */
  datatype Piece =
    | Code(c: char)
    | LineComment(body: string)
    | BlockComment(body: string)
    | StringLiteral(body: string)
    | EscapedName(name: string)

  function Written(p: Piece): (r: string)
    ensures |r| > 0
  {
    match p
    case Code(c) => [c]
    case LineComment(body) => "//" + body
    case BlockComment(body) => "/*" + body + "*/"
    case StringLiteral(body) => "\"" + body + "\""
    case EscapedName(name) => "\\" + name
  }

  /** The inside of a string literal: no bare quote, and a backslash takes a character of the
      same line with it. */
  ghost predicate Quotable(s: string) {
    || s == ""
    || (s[0] != '"' && s[0] != '\\' && Quotable(s[1..]))
    || (s[0] == '\\' && |s| > 1 && s[1] != '\n' && Quotable(s[2..]))
  }

  ghost predicate WellWritten(x: Lex, p: Piece) {
    match p
    case Code(c) => true
    case LineComment(body) => '\n' !in body
    case BlockComment(body) => forall k :: 0 <= k < |body| ==> !At(body + "*/", k, "*/")
    case StringLiteral(body) => Quotable(body)
    case EscapedName(name) => name != "" && forall c :: c in name ==> !x.space(c)
  }

  /** The text ends at `i`, or a character of the kind stands there. */
  ghost predicate EndsAt(t: string, i: nat, kind: char -> bool) {
    i == |t| || (i < |t| && kind(t[i]))
  }

  /** A comment, a string or an escaped identifier stands at `i`; a line comment runs to the end
      of its line and an escaped identifier to the next space. */
  ghost predicate StandsAt(x: Lex, t: string, i: nat, p: Piece) {
    && !p.Code? && WellWritten(x, p) && At(t, i, Written(p))
    && (p.LineComment? ==> EndsAt(t, i + |Written(p)|, c => c == '\n'))
    && (p.EscapedName? ==> EndsAt(t, i + |Written(p)|, x.space))
  }

  /** The pieces, read from left to right, make up the text from `i` on; a character is code
      only where nothing else can be read. */
  ghost predicate Reads(x: Lex, t: string, i: nat, ps: seq<Piece>)
    decreases |ps|
  {
    if ps == [] then i == |t|
    else
      && i < |t| && Reads(x, t, i + |Written(ps[0])|, ps[1..])
      && if ps[0].Code? then ps[0].c == t[i] && forall p :: !StandsAt(x, t, i, p)
         else StandsAt(x, t, i, ps[0])
  }

  /** The character at `k` belongs to a piece of code. */
  ghost predicate InCode(ps: seq<Piece>, k: nat)
    decreases |ps|
  {
    ps != [] && if k < |Written(ps[0])| then ps[0].Code? else InCode(ps[1..], k - |Written(ps[0])|)
  }

  lemma {:induction false} LineEndMeans(t: string, i: nat)
    requires i <= |t|
    ensures var e := LineEnd(t, i); EndsAt(t, e, c => c == '\n') && forall k :: i <= k < e ==> t[k] != '\n'
    decreases |t| - i
  {
    if i < |t| && t[i] != '\n' { LineEndMeans(t, i + 1); }
  }

  lemma {:induction false} EscapedEndMeans(x: Lex, t: string, i: nat)
    requires i <= |t|
    ensures var e := EscapedEnd(x, t, i); EndsAt(t, e, x.space) && forall k :: i <= k < e ==> !x.space(t[k])
    decreases |t| - i
  {
    if i < |t| && !x.space(t[i]) { EscapedEndMeans(x, t, i + 1); }
  }

  lemma {:induction false} CommentEndMeans(t: string, i: nat, from: nat)
    requires i < from <= |t|
    ensures var e := CommentEnd(t, i, from);
      && (e == i ==> forall k :: from <= k <= |t| ==> !At(t, k, "*/"))
      && (e != i ==> At(t, e - 2, "*/") && forall k :: from <= k < e - 2 ==> !At(t, k, "*/"))
    decreases |t| - from
  {
    if from + 2 <= |t| && !At(t, from, "*/") { CommentEndMeans(t, i, from + 1); }
  }

  lemma {:induction false} StringEndIs(t: string, i: nat, from: nat, body: string)
    requires i < from && Quotable(body) && At(t, from, body + "\"")
    ensures StringEnd(t, i, from) == from + |body| + 1
    decreases |body|
  {
    var n := |body|;
    assert forall k :: 0 <= k < n ==> t[from + k] == body[k];
    assert t[from + n] == '"';
    if body != "" {
      var step := if body[0] == '\\' then 2 else 1;
      assert t[from + step..] == t[from..][step..];
      assert (body + "\"")[step..] == body[step..] + "\"";
      StringEndIs(t, i, from + step, body[step..]);
    }
  }

  lemma {:induction false} StringEndMeans(t: string, i: nat, from: nat)
    requires i < from && StringEnd(t, i, from) != i
    ensures var e := StringEnd(t, i, from); e <= |t| && t[e - 1] == '"' && Quotable(t[from..e - 1])
    decreases |t| - from
  {
    if t[from] != '"' {
      var step := if t[from] == '\\' then 2 else 1;
      StringEndMeans(t, i, from + step);
      var e := StringEnd(t, i, from);
      assert t[from..e - 1][step..] == t[from + step..e - 1];
    }
  }

  lemma AtReads(t: string, i: nat, p: string)
    ensures At(t, i, p) <==> i + |p| <= |t| && forall j :: i <= j < i + |p| ==> t[j] == p[j - i]
  {
    if i + |p| <= |t| && forall j :: i <= j < i + |p| ==> t[j] == p[j - i] {
      assert t[i..i + |p|] == p;
    }
  }

  /** Whatever stands at a position is hidden, to its end. */
  lemma StandingIsHidden(x: Lex, t: string, i: nat, p: Piece)
    requires i < |t| && StandsAt(x, t, i, p)
    ensures HiddenEnd(x, t, i) == i + |Written(p)|
  {
    hide At, LineEnd, CommentEnd, StringEnd, EscapedEnd, Quotable;
    var w := Written(p);
    AtReads(t, i, w);
    AtReads(t, i, "//");
    AtReads(t, i, "/*");
    match p
    case LineComment(body) =>
      LineEndMeans(t, i + 2);
    case BlockComment(body) =>
      assert t[i + 1] == w[1] == '*';
      BlockCommentHidden(x, t, i, body);
    case StringLiteral(body) =>
      assert t[i] == w[0] == '"';
      StringLiteralHidden(x, t, i, body);
    case EscapedName(name) =>
      assert t[i] == w[0];
      EscapedNameHidden(x, t, i, name);
  }

  lemma StringLiteralHidden(x: Lex, t: string, i: nat, body: string)
    requires i < |t| && StandsAt(x, t, i, StringLiteral(body))
    ensures StringEnd(t, i, i + 1) == i + |body| + 2
  {
    hide At, StringEnd, Quotable;
    var w := Written(StringLiteral(body));
    AtReads(t, i, w);
    assert w[1..] == body + "\"";
    forall j | i + 1 <= j < i + 1 + |body| + 1 ensures t[j] == (body + "\"")[j - i - 1] {
      assert t[j] == w[j - i] == w[1..][j - i - 1];
    }
    AtReads(t, i + 1, body + "\"");
    StringEndIs(t, i, i + 1, body);
  }

  lemma EscapedNameHidden(x: Lex, t: string, i: nat, name: string)
    requires i < |t| && StandsAt(x, t, i, EscapedName(name))
    ensures EscapedEnd(x, t, i + 2) == i + 1 + |name| && !x.space(t[i + 1])
  {
    hide At, EscapedEnd;
    AtReads(t, i, Written(EscapedName(name)));
    forall j | i + 1 <= j < i + 1 + |name| ensures !x.space(t[j]) { assert t[j] == name[j - i - 1]; }
    EscapedEndMeans(x, t, i + 2);
  }

  lemma BlockCommentHidden(x: Lex, t: string, i: nat, body: string)
    requires i < |t| && StandsAt(x, t, i, BlockComment(body))
    ensures CommentEnd(t, i, i + 2) == i + |body| + 4
  {
    hide At, CommentEnd;
    AtReads(t, i, Written(BlockComment(body)));
    CommentEndMeans(t, i, i + 2);
    var n := i + 2 + |body|;
    assert At(t, n, "*/") by { AtReads(t, n, "*/"); }
    var s := body + "*/";
    assert forall j :: i + 2 <= j < n + 2 ==> t[j] == s[j - i - 2];
    forall j: nat | i + 2 <= j < n ensures !At(t, j, "*/") {
      AtReads(t, j, "*/");
      AtReads(s, j - i - 2, "*/");
      assert !At(s, j - i - 2, "*/");
      assert t[j] == s[j - i - 2] && t[j + 1] == s[j - i - 1];
    }
  }

  /** Whatever is hidden stands there. */
  lemma HiddenStands(x: Lex, t: string, i: nat) returns (p: Piece)
    requires i < |t| && HiddenEnd(x, t, i) > i
    ensures StandsAt(x, t, i, p) && HiddenEnd(x, t, i) == i + |Written(p)|
  {
    hide At, LineEnd, CommentEnd, StringEnd, EscapedEnd, StandsAt, Written;
    if At(t, i, "//") {
      p := LineCommentStands(x, t, i);
    } else if At(t, i, "/*") {
      p := BlockCommentStands(x, t, i);
    } else if t[i] == '"' {
      p := StringStands(x, t, i);
    } else {
      p := EscapedNameStands(x, t, i);
    }
  }

  lemma LineCommentStands(x: Lex, t: string, i: nat) returns (p: Piece)
    requires At(t, i, "//")
    ensures StandsAt(x, t, i, p) && LineEnd(t, i + 2) == i + |Written(p)|
  {
    hide LineEnd;
    LineEndMeans(t, i + 2);
    var e := LineEnd(t, i + 2);
    p := LineComment(t[i + 2..e]);
    assert Written(p) == t[i..e];
  }

  lemma StringStands(x: Lex, t: string, i: nat) returns (p: Piece)
    requires i < |t| && t[i] == '"' && StringEnd(t, i, i + 1) != i
    ensures StandsAt(x, t, i, p) && StringEnd(t, i, i + 1) == i + |Written(p)|
  {
    hide StringEnd;
    StringEndMeans(t, i, i + 1);
    var e := StringEnd(t, i, i + 1);
    p := StringLiteral(t[i + 1..e - 1]);
    assert Written(p) == t[i..e];
  }

  lemma EscapedNameStands(x: Lex, t: string, i: nat) returns (p: Piece)
    requires i + 1 < |t| && t[i] == '\\' && !x.space(t[i + 1])
    ensures StandsAt(x, t, i, p) && EscapedEnd(x, t, i + 2) == i + |Written(p)|
  {
    hide EscapedEnd;
    EscapedEndMeans(x, t, i + 2);
    var e := EscapedEnd(x, t, i + 2);
    p := EscapedName(t[i + 1..e]);
    assert Written(p) == t[i..e];
  }

  lemma BlockCommentStands(x: Lex, t: string, i: nat) returns (p: Piece)
    requires At(t, i, "/*") && CommentEnd(t, i, i + 2) != i
    ensures StandsAt(x, t, i, p) && CommentEnd(t, i, i + 2) == i + |Written(p)|
  {
    hide CommentEnd;
    var e := CommentEnd(t, i, i + 2);
    CommentEndMeans(t, i, i + 2);
    p := BlockComment(t[i + 2..e - 2]);
    NoEarlierEnd(t, i + 2, e - 2);
    assert Written(p) == t[i..e];
  }

  lemma NoEarlierEnd(t: string, i: nat, e: nat)
    requires i <= e && At(t, e, "*/") && forall k :: i <= k < e ==> !At(t, k, "*/")
    ensures var body := t[i..e]; forall k :: 0 <= k < |body| ==> !At(body + "*/", k, "*/")
  {
    var s := t[i..e] + "*/";
    assert s == t[i..e + 2];
    forall k: nat | k < e - i ensures !At(s, k, "*/") {
      assert !At(t, i + k, "*/");
      assert s[k..] == t[i + k..e + 2];
    }
  }

  /** Every text can be read as pieces. */
  lemma {:induction false} EveryTextReads(x: Lex, t: string, i: nat) returns (ps: seq<Piece>)
    requires i <= |t|
    ensures Reads(x, t, i, ps)
    decreases |t| - i
  {
    hide HiddenEnd, StandsAt;
    if i == |t| { return []; }
    var p := Code(t[i]);
    if HiddenEnd(x, t, i) > i {
      p := HiddenStands(x, t, i);
    } else {
      forall q ensures !StandsAt(x, t, i, q) {
        if StandsAt(x, t, i, q) { StandingIsHidden(x, t, i, q); }
      }
    }
    var rest := EveryTextReads(x, t, i + |Written(p)|);
    ps := [p] + rest;
    assert ps[1..] == rest;
    if !p.Code? { StandsThere(x, t, i, p); }
  }

  lemma StandsThere(x: Lex, t: string, i: nat, p: Piece)
    requires StandsAt(x, t, i, p)
    ensures !p.Code?
  {
  }

  lemma HiddenLater(x: Lex, t: string, i: nat, k: nat)
    requires i <= k < |t|
    ensures var e := HiddenEnd(x, t, i);
      var next := if e == i then i + 1 else e;
      HiddenFrom(x, t, i)[k - i] == if k >= next then HiddenFrom(x, t, next)[k - next] else e != i
  {
    hide HiddenEnd;
  }

  /** What is hidden of a text is what is not code in its reading. */
  lemma {:induction false} HiddenIsNotCode(x: Lex, t: string, i: nat, ps: seq<Piece>, k: nat)
    requires Reads(x, t, i, ps) && i <= k < |t|
    ensures HiddenFrom(x, t, i)[k - i] <==> !InCode(ps, k - i)
    decreases |ps|
  {
    hide HiddenEnd, StandsAt, HiddenFrom, Written;
    HiddenLater(x, t, i, k);
    var n := |Written(ps[0])|;
    if ps[0].Code? {
      assert n == 1 by { CodeIsOne(ps[0]); }
      if HiddenEnd(x, t, i) > i { var q := HiddenStands(x, t, i); }
    } else {
      StandingIsHidden(x, t, i, ps[0]);
    }
    if k >= i + n {
      HiddenIsNotCode(x, t, i + n, ps[1..], k);
    }
  }

  lemma CodeIsOne(p: Piece)
    requires p.Code?
    ensures |Written(p)| == 1
  {
  }

  /** However the text is read, the stretch from `s` to `e` is code. */
  ghost predicate OnlyCode(x: Lex, t: string, s: nat, e: nat) {
    forall ps, k :: Reads(x, t, 0, ps) && s <= k < e ==> InCode(ps, k)
  }

  lemma NotHiddenIsCode(x: Lex, t: string, s: nat, e: nat)
    requires e <= |t| && forall k :: s <= k < e ==> !Hidden(x, t)[k]
    ensures OnlyCode(x, t, s, e)
  {
    hide Reads, InCode, HiddenFrom;
    forall ps, k: nat | Reads(x, t, 0, ps) && s <= k < e ensures InCode(ps, k) {
      assert !Hidden(x, t)[k];
      HiddenIsNotCode(x, t, 0, ps, k);
    }
  }

  /** The mask shows code and line ends as they are, and a space for everything else. */
  lemma MaskShowsCode(x: Lex, t: string, ps: seq<Piece>, k: nat)
    requires Reads(x, t, 0, ps) && k < |t|
    ensures CodeMask(x, t)[k] == if InCode(ps, k) || t[k] == '\r' || t[k] == '\n' then t[k] else ' '
  {
    MaskMeans(x, t, 0, k);
    HiddenIsNotCode(x, t, 0, ps, k);
  }

  // ---- operator sites ----------------------------------------------------------------------

  datatype Op = PlusToMinus | EqToNeq | AndToOr | LtToLte | InvertCondition

  const OPERATORS := [PlusToMinus, EqToNeq, AndToOr, LtToLte, InvertCondition]

  /** A match `[start, end)` and the text that replaces it. */
  datatype Site = Site(start: nat, end: nat, replacement: string)

  predicate CharIs(m: string, i: int, c: char) {
    0 <= i < |m| && m[i] == c
  }

  predicate WordAt(x: Lex, m: string, i: int) {
    0 <= i < |m| && x.word(m[i])
  }

  predicate SpaceAt(x: Lex, m: string, i: int) {
    0 <= i < |m| && x.space(m[i])
  }

  function SkipSpaces(x: Lex, m: string, i: nat): nat
    decreases |m| - i
  {
    if SpaceAt(x, m, i) then SkipSpaces(x, m, i + 1) else i
  }

  /** The literal one follows, as `1` or `1'b1` ending at a word boundary. */
  predicate OneAt(x: Lex, m: string, i: nat) {
    || (At(m, i, "1'b1") && !WordAt(x, m, i + 4))
    || (CharIs(m, i, '1') && !WordAt(x, m, i + 1) && !CharIs(m, i + 1, '\''))
  }

  function WordEnd(x: Lex, m: string, i: nat): (e: nat)
    requires i <= |m|
    ensures i <= e <= |m| && forall k :: i <= k < e ==> x.word(m[k])
    decreases |m| - i
  {
    if WordAt(x, m, i) then WordEnd(x, m, i + 1) else i
  }

  predicate Lower(m: string, i: nat) {
    i < |m| && ('a' <= m[i] <= 'z' || m[i] == '_')
  }

  /** One operator's match starting exactly at `i` of the masked text. */
  function MatchAt(x: Lex, op: Op, m: string, i: nat): (r: Option<Site>)
    requires i < |m|
    ensures r.Some? ==> r.value.start == i && i < r.value.end <= |m|
  {
    match op
    case PlusToMinus =>
      if m[i] == '+' && (WordAt(x, m, i - 1) || SpaceAt(x, m, i - 1) || CharIs(m, i - 1, ']'))
        && OneAt(x, m, SkipSpaces(x, m, i + 1))
      then Some(Site(i, i + 1, "-")) else None
    case EqToNeq =>
      if m[i] == '=' && CharIs(m, i + 1, '=') && !CharIs(m, i + 2, '=')
        && !CharIs(m, i - 1, '=') && !CharIs(m, i - 1, '!')
      then Some(Site(i, i + 2, "!=")) else None
    case AndToOr =>
      if m[i] == '&' && (WordAt(x, m, i - 1) || SpaceAt(x, m, i - 1) || CharIs(m, i - 1, ']'))
        && !CharIs(m, i + 1, '&') && !CharIs(m, i + 1, '=')
        && (SpaceAt(x, m, i + 1) || WordAt(x, m, i + 1) || CharIs(m, i + 1, '~'))
      then Some(Site(i, i + 1, "|")) else None
    case LtToLte =>
      if m[i] == '<' && (WordAt(x, m, i - 1) || SpaceAt(x, m, i - 1))
        && !CharIs(m, i + 1, '<') && !CharIs(m, i + 1, '=') && (SpaceAt(x, m, i + 1) || WordAt(x, m, i + 1))
      then Some(Site(i, i + 1, "<=")) else None
    case InvertCondition =>
      if IfNot(m, i) && Lower(m, i + 5) then
        var e := WordEnd(x, m, i + 6);
        if CharIs(m, e, ')') then Some(Site(i, e + 1, ['i', 'f', ' ', '('] + m[i + 5..e + 1])) else None
      else None
  }

  /** `if (!` at `i`. */
  predicate IfNot(m: string, i: nat) {
    i + 5 <= |m| && m[i] == 'i' && m[i + 1] == 'f' && m[i + 2] == ' ' && m[i + 3] == '(' && m[i + 4] == '!'
  }

  // ---- the expressions the operators are meant to match ------------------------------------------

  function Spaced(x: Lex): Kind {
    c => x.word(c) || x.space(c)
  }

  function Operand(x: Lex): Kind {
    c => x.word(c) || x.space(c) || c == ']'
  }

  function Negatable(x: Lex): Kind {
    c => x.word(c) || x.space(c) || c == '~'
  }

  function NameStart(): Kind {
    c => 'a' <= c <= 'z' || c == '_'
  }

  /** The literal one, bare or sized, as a word of its own. */
  function LiteralOne(): Rx {
    Or(Literal("1'b1", Edge), Then(One(Is('1')), Then(Edge, NotAhead(One(Is('\''))))))
  }

  /** What an operator matches. */
  function Pattern(x: Lex, op: Op): Rx {
    match op
    case PlusToMinus =>
      Then(Behind(Operand(x)), Then(One(Is('+')), Ahead(Then(Many(One(x.space)), LiteralOne()))))
    case EqToNeq =>
      Then(NotBehind(OneOf("=!")), Literal("==", NotAhead(One(Is('=')))))
    case AndToOr =>
      Then(Behind(Operand(x)), Then(One(Is('&')), Then(NotAhead(One(OneOf("&="))), Ahead(One(Negatable(x))))))
    case LtToLte =>
      Then(Behind(Spaced(x)), Then(One(Is('<')), Then(NotAhead(One(OneOf("<="))), Ahead(One(Spaced(x))))))
    case InvertCondition =>
      Literal("if (!", Then(One(NameStart()), Then(Many(One(x.word)), One(Is(')')))))
  }

  /** What a match is replaced by. */
  function Rewrite(op: Op, matched: string): string {
    match op
    case PlusToMinus => "-"
    case EqToNeq => "!="
    case AndToOr => "|"
    case LtToLte => "<="
    case InvertCondition => if |matched| < 5 then matched else "if (" + matched[5..]
  }

  /** The match found at a position is the one the expression has there, if any. */
  ghost predicate FindsAt(x: Lex, op: Op, m: string, i: nat, j: nat)
    requires i < |m|
  {
    Matches(x.word, Pattern(x, op), m, i, j) <==>
      MatchAt(x, op, m, i).Some? && MatchAt(x, op, m, i).value.end == j
  }

  lemma FindsEq(x: Lex, m: string, i: nat, j: nat)
    requires i < |m|
    ensures FindsAt(x, EqToNeq, m, i, j)
  {
    hide Matches;
    BehindThen(x.word, OneOf("=!"), Literal("==", NotAhead(One(Is('=')))), m, i, j);
    LiteralMeans(x.word, "==", NotAhead(One(Is('='))), m, i, j);
    OneAhead(x.word, Is('='), m, i + 2, j);
    if i + 1 < |m| { assert "==" <= m[i..] <==> m[i] == '=' && m[i + 1] == '='; }
  }

  lemma FindsAnd(x: Lex, m: string, i: nat, j: nat)
    requires i < |m|
    ensures FindsAt(x, AndToOr, m, i, j)
  {
    hide Matches;
    var ahead := Ahead(One(Negatable(x)));
    var rest := Then(NotAhead(One(OneOf("&="))), ahead);
    BehindThen(x.word, Operand(x), Then(One(Is('&')), rest), m, i, j);
    OneThen(x.word, Is('&'), rest, m, i, j);
    NotAheadThen(x.word, OneOf("&="), ahead, m, i + 1, j);
    OneAhead(x.word, Negatable(x), m, i + 1, j);
  }

  lemma FindsLt(x: Lex, m: string, i: nat, j: nat)
    requires i < |m|
    ensures FindsAt(x, LtToLte, m, i, j)
  {
    hide Matches;
    var ahead := Ahead(One(Spaced(x)));
    var rest := Then(NotAhead(One(OneOf("<="))), ahead);
    BehindThen(x.word, Spaced(x), Then(One(Is('<')), rest), m, i, j);
    OneThen(x.word, Is('<'), rest, m, i, j);
    NotAheadThen(x.word, OneOf("<="), ahead, m, i + 1, j);
    OneAhead(x.word, Spaced(x), m, i + 1, j);
  }

  lemma {:induction false} SkipSpacesMeans(x: Lex, m: string, i: nat)
    requires i <= |m|
    ensures var n := SkipSpaces(x, m, i); Run(x.space, m, i, n) && (n < |m| ==> !x.space(m[n]))
    decreases |m| - i
  {
    if SpaceAt(x, m, i) { SkipSpacesMeans(x, m, i + 1); }
  }

  lemma LiteralOneMeans(x: Lex, m: string, l: nat, k: nat)
    requires SoundLex(x) && l <= |m|
    ensures Matches(x.word, LiteralOne(), m, l, k) <==>
      || (At(m, l, "1'b1") && !WordAt(x, m, l + 4) && k == l + 4)
      || (CharIs(m, l, '1') && !WordAt(x, m, l + 1) && !CharIs(m, l + 1, '\'') && k == l + 1)
  {
    LiteralMeans(x.word, "1'b1", Edge, m, l, k);
    assert At(m, l, "1'b1") ==> m[l..][3] == '1';
    hide Literal;
    var last := NotAhead(One(Is('\'')));
    OneThen(x.word, Is('1'), Then(Edge, last), m, l, k);
    EdgeThen(x.word, last, m, l + 1, k);
    OneAhead(x.word, Is('\''), m, l + 1, k);
  }

  lemma OneIsThere(x: Lex, m: string, l: nat)
    requires SoundLex(x) && l <= |m|
    ensures (exists k :: l <= k <= |m| && Matches(x.word, LiteralOne(), m, l, k)) <==> OneAt(x, m, l)
    ensures OneAt(x, m, l) ==> l < |m| && m[l] == '1'
  {
    hide Matches, LiteralOne;
    forall k ensures Matches(x.word, LiteralOne(), m, l, k) <==>
      || (At(m, l, "1'b1") && !WordAt(x, m, l + 4) && k == l + 4)
      || (CharIs(m, l, '1') && !WordAt(x, m, l + 1) && !CharIs(m, l + 1, '\'') && k == l + 1)
    {
      LiteralOneMeans(x, m, l, k);
    }
    assert OneAt(x, m, l) ==> Matches(x.word, LiteralOne(), m, l, l + 4) || Matches(x.word, LiteralOne(), m, l, l + 1);
  }

  lemma OneAfterSpaces(x: Lex, m: string, i: nat)
    requires SoundLex(x) && i <= |m|
    ensures Matches(x.word, Ahead(Then(Many(One(x.space)), LiteralOne())), m, i, i) <==>
      OneAt(x, m, SkipSpaces(x, m, i))
  {
    hide LiteralOne, OneAt, SkipSpaces;
    var n := SkipSpaces(x, m, i);
    SkipSpacesMeans(x, m, i);
    var part := Then(Many(One(x.space)), LiteralOne());
    forall k ensures Matches(x.word, part, m, i, k) <==> Matches(x.word, LiteralOne(), m, n, k) {
      forall l: nat | i <= l < n ensures !Matches(x.word, LiteralOne(), m, l, k) { OneIsThere(x, m, l); }
      ManyOneThen(x.word, x.space, LiteralOne(), m, i, k, n);
    }
    OneIsThere(x, m, n);
    AheadMeans(x.word, part, m, i);
    if k: nat :| n <= k <= |m| && Matches(x.word, LiteralOne(), m, n, k) {
      assert Matches(x.word, part, m, i, k);
    }
    if k: nat :| i <= k <= |m| && Matches(x.word, part, m, i, k) {
      assert Matches(x.word, LiteralOne(), m, n, k);
    }
  }

  lemma FindsPlus(x: Lex, m: string, i: nat, j: nat)
    requires SoundLex(x) && i < |m|
    ensures FindsAt(x, PlusToMinus, m, i, j)
  {
    var ahead := Ahead(Then(Many(One(x.space)), LiteralOne()));
    BehindThen(x.word, Operand(x), Then(One(Is('+')), ahead), m, i, j);
    OneThen(x.word, Is('+'), ahead, m, i, j);
    OneAfterSpaces(x, m, i + 1);
    hide LiteralOne, OneAt, SkipSpaces;
  }

  lemma {:induction false} WordEndMeans(x: Lex, m: string, i: nat)
    requires i <= |m|
    ensures var e := WordEnd(x, m, i); Run(x.word, m, i, e) && (e < |m| ==> !x.word(m[e]))
    decreases |m| - i
  {
    if WordAt(x, m, i) { WordEndMeans(x, m, i + 1); }
  }

  lemma WordThenClose(x: Lex, m: string, i: nat, j: nat)
    requires SoundLex(x) && i <= |m|
    ensures Matches(x.word, Then(Many(One(x.word)), One(Is(')'))), m, i, j) <==>
      var e := WordEnd(x, m, i); CharIs(m, e, ')') && j == e + 1
  {
    hide WordEnd;
    WordEndMeans(x, m, i);
    ManyOneThen(x.word, x.word, One(Is(')')), m, i, j, WordEnd(x, m, i));
  }

  lemma FindsIfNot(x: Lex, m: string, i: nat, j: nat)
    requires SoundLex(x) && i < |m|
    ensures FindsAt(x, InvertCondition, m, i, j)
  {
    hide Matches, WordEnd;
    var rest := Then(Many(One(x.word)), One(Is(')')));
    LiteralMeans(x.word, "if (!", Then(One(NameStart()), rest), m, i, j);
    OneThen(x.word, NameStart(), rest, m, i + 5, j);
    if i + 6 <= |m| { WordThenClose(x, m, i + 6, j); }
    IfNotMeans(m, i);
    hide IfNot, Literal;
  }

  lemma IfNotMeans(m: string, i: nat)
    requires i < |m|
    ensures IfNot(m, i) <==> "if (!" <= m[i..]
  {
    if i + 5 <= |m| {
      assert m[i..][..5] == [m[i], m[i + 1], m[i + 2], m[i + 3], m[i + 4]];
    }
  }

  /** The matcher finds what the operator's expression matches, no more and no less, and replaces
      it as the operator says. */
  lemma MatchMeans(x: Lex, op: Op, m: string, i: nat)
    requires SoundLex(x) && i < |m|
    ensures forall j :: Matches(x.word, Pattern(x, op), m, i, j) <==>
      MatchAt(x, op, m, i).Some? && MatchAt(x, op, m, i).value.end == j
    ensures MatchAt(x, op, m, i).Some? ==>
      var s := MatchAt(x, op, m, i).value; s.replacement == Rewrite(op, m[i..s.end])
  {
    if MatchAt(x, op, m, i).Some? { RewriteMeans(x, op, m, i); }
    hide Matches, MatchAt, Pattern;
    forall j ensures Matches(x.word, Pattern(x, op), m, i, j) <==>
      MatchAt(x, op, m, i).Some? && MatchAt(x, op, m, i).value.end == j
    {
      match op
      case PlusToMinus => FindsPlus(x, m, i, j);
      case EqToNeq => FindsEq(x, m, i, j);
      case AndToOr => FindsAnd(x, m, i, j);
      case LtToLte => FindsLt(x, m, i, j);
      case InvertCondition => FindsIfNot(x, m, i, j);
    }
  }

  lemma RewriteMeans(x: Lex, op: Op, m: string, i: nat)
    requires i < |m| && MatchAt(x, op, m, i).Some?
    ensures var s := MatchAt(x, op, m, i).value; s.replacement == Rewrite(op, m[i..s.end])
  {
    hide OneAt, SkipSpaces;
    if op.InvertCondition? {
      var e := WordEnd(x, m, i + 6);
      assert m[i..e + 1][5..] == m[i + 5..e + 1];
      assert ['i', 'f', ' ', '('] + m[i + 5..e + 1] == "if (" + m[i + 5..e + 1];
    }
  }

  /** The non-overlapping matches from `i` on, leftmost first. */
  function Sites(x: Lex, op: Op, m: string, i: nat): seq<Site>
    decreases |m| - i
  {
    if i >= |m| then []
    else match MatchAt(x, op, m, i)
      case Some(s) => [s] + Sites(x, op, m, s.end)
      case None => Sites(x, op, m, i + 1)
  }

  lemma {:induction false} SitesAreMatches(x: Lex, op: Op, m: string, i: nat, k: nat)
    requires k < |Sites(x, op, m, i)|
    ensures var s := Sites(x, op, m, i)[k];
      i <= s.start < |m| && MatchAt(x, op, m, s.start) == Some(s)
    decreases |m| - i
  {
    match MatchAt(x, op, m, i)
    case Some(s) => if k > 0 { SitesAreMatches(x, op, m, s.end, k - 1); }
    case None => SitesAreMatches(x, op, m, i + 1, k);
  }

  lemma {:induction false} SitesAreApart(x: Lex, op: Op, m: string, i: nat, k: nat, l: nat)
    requires k < l < |Sites(x, op, m, i)|
    ensures Sites(x, op, m, i)[k].end <= Sites(x, op, m, i)[l].start
    decreases |m| - i
  {
    match MatchAt(x, op, m, i)
    case Some(s) =>
      if k > 0 {
        SitesAreApart(x, op, m, s.end, k - 1, l - 1);
      } else {
        SitesAreMatches(x, op, m, s.end, l - 1);
      }
    case None => SitesAreApart(x, op, m, i + 1, k, l);
  }

  /** No match is passed over but for one that starts inside another site. */
  lemma {:induction false} SitesAreAll(x: Lex, op: Op, m: string, i: nat, p: nat) returns (k: nat)
    requires i <= p < |m| && MatchAt(x, op, m, p).Some?
    ensures k < |Sites(x, op, m, i)| && Sites(x, op, m, i)[k].start <= p < Sites(x, op, m, i)[k].end
    decreases |m| - i
  {
    match MatchAt(x, op, m, i)
    case Some(s) =>
      if p < s.end { return 0; }
      k := SitesAreAll(x, op, m, s.end, p);
      k := k + 1;
    case None => k := SitesAreAll(x, op, m, i + 1, p);
  }

  lemma InvertIsCode(x: Lex, t: string, i: nat)
    requires SoundLex(x) && i < |t|
    requires MatchAt(x, InvertCondition, CodeMask(x, t), i).Some?
    ensures var s := MatchAt(x, InvertCondition, CodeMask(x, t), i).value;
      && (forall k :: s.start <= k < s.end ==> !Hidden(x, t)[k])
      && |s.replacement| < s.end - s.start
  {
    CodeMaskMeans(x, t);
    hide CodeMask, Hidden;
    var m := CodeMask(x, t);
    var s := MatchAt(x, InvertCondition, m, i).value;
    assert m[i + 1] == 'f' && m[i + 3] == '(';
    assert !Hidden(x, t)[i + 1] && !Hidden(x, t)[i + 3];
    forall k | s.start <= k < s.end ensures !Hidden(x, t)[k] {
      if i + 6 <= k < s.end - 1 { assert x.word(m[k]); }
    }
  }

  /** A match touches no comment, string or escaped identifier, and changes the text. */
  lemma MatchIsCode(x: Lex, op: Op, t: string, i: nat)
    requires SoundLex(x) && i < |t|
    requires MatchAt(x, op, CodeMask(x, t), i).Some?
    ensures var s := MatchAt(x, op, CodeMask(x, t), i).value;
      && OnlyCode(x, t, s.start, s.end) && CodeMask(x, t)[s.start..s.end] == t[s.start..s.end]
      && s.replacement != t[s.start..s.end]
  {
    hide OnlyCode, MatchAt, CodeMask, Hidden;
    MatchIsShown(x, op, t, i);
    CodeMaskMeans(x, t);
    var s := MatchAt(x, op, CodeMask(x, t), i).value;
    NotHiddenIsCode(x, t, s.start, s.end);
  }

  lemma MatchIsShown(x: Lex, op: Op, t: string, i: nat)
    requires SoundLex(x) && i < |t|
    requires MatchAt(x, op, CodeMask(x, t), i).Some?
    ensures var s := MatchAt(x, op, CodeMask(x, t), i).value;
      && (forall k :: s.start <= k < s.end ==> !Hidden(x, t)[k])
      && s.replacement != t[s.start..s.end]
  {
    if op.InvertCondition? {
      InvertIsCode(x, t, i);
    } else {
      CodeMaskMeans(x, t);
      hide CodeMask, Hidden, OneAt, SkipSpaces;
      var s := MatchAt(x, op, CodeMask(x, t), i).value;
      assert t[s.start..s.end][0] == t[i] == CodeMask(x, t)[i];
    }
  }

  function LineOf(t: string, pos: nat): nat
    requires pos <= |t|
  {
    if pos == 0 then 1 else LineOf(t, pos - 1) + (if t[pos - 1] == '\n' then 1 else 0)
  }

  /** Hiding moves no line. */
  lemma {:induction false} MaskKeepsLines(x: Lex, t: string, pos: nat)
    requires pos <= |t|
    ensures LineOf(CodeMask(x, t), pos) == LineOf(t, pos)
  {
    if pos > 0 {
      MaskKeepsLines(x, t, pos - 1);
      CodeMaskMeans(x, t);
    }
  }

  // ---- listing mutants -------------------------------------------------------------------------

  /** One mutant; `occurrence` numbers the operator's matches in the file. */
  datatype Mutant = Mutant(file: string, op: Op, occurrence: nat, line: nat, original: string, mutated: string)

  /** What a listing works on: the file, its text and the lines that may change. */
  datatype Job = Job(lex: Lex, file: string, text: string, lines: Option<set<nat>>)

  function Masked(j: Job): (m: string)
    ensures |m| == |j.text|
  {
    CodeMask(j.lex, j.text)
  }

  function SitesOf(j: Job, op: Op): seq<Site> {
    Sites(j.lex, op, Masked(j), 0)
  }

  function SiteAt(j: Job, op: Op, k: nat): (s: Site)
    requires k < |SitesOf(j, op)|
    ensures s.start < s.end <= |j.text|
  {
    SitesAreMatches(j.lex, op, Masked(j), 0, k);
    SitesOf(j, op)[k]
  }

  function MutantAt(j: Job, op: Op, k: nat): Mutant
    requires k < |SitesOf(j, op)|
  {
    var s := SiteAt(j, op, k);
    Mutant(j.file, op, k, LineOf(j.text, s.start), j.text, j.text[..s.start] + s.replacement + j.text[s.end..])
  }

  predicate Wanted(j: Job, op: Op, k: nat)
    requires k < |SitesOf(j, op)|
  {
    (j.lines.Some? ==> LineOf(j.text, SiteAt(j, op, k).start) in j.lines.value) && MutantAt(j, op, k).mutated != j.text
  }

  /** Every mutant of one operator among its first `k` sites, without caps. */
  function Listed(j: Job, op: Op, k: nat): seq<Mutant>
    requires k <= |SitesOf(j, op)|
  {
    if k == 0 then [] else Listed(j, op, k - 1) + (if Wanted(j, op, k - 1) then [MutantAt(j, op, k - 1)] else [])
  }

  function AllOf(j: Job, op: Op): seq<Mutant> {
    Listed(j, op, |SitesOf(j, op)|)
  }

  function Take<T>(n: nat, s: seq<T>): (r: seq<T>)
    ensures |r| <= n && r <= s && (|s| <= n ==> r == s) && (|s| > n ==> |r| == n)
  {
    if |s| <= n then s else s[..n]
  }

  function Upto<T>(limit: Option<nat>, s: seq<T>): (r: seq<T>)
    ensures r <= s && (limit.Some? ==> |r| <= limit.value)
  {
    if limit.Some? then Take(limit.value, s) else s
  }

  predicate Reached(limit: Option<nat>, n: nat) {
    limit.Some? && n >= limit.value
  }

  /** All mutants of the first `ops` operators, each operator capped. */
  function Capped(j: Job, perOp: nat, ops: nat): seq<Mutant>
    requires ops <= |OPERATORS|
  {
    if ops == 0 then [] else Capped(j, perOp, ops - 1) + Take(perOp, AllOf(j, OPERATORS[ops - 1]))
  }

  /** The uncapped enumeration: by operator, then by position. */
  function Uncapped(j: Job, ops: nat): seq<Mutant>
    requires ops <= |OPERATORS|
  {
    if ops == 0 then [] else Uncapped(j, ops - 1) + AllOf(j, OPERATORS[ops - 1])
  }

  /** A prefix already at its cap does not change as the rest grows. */
  lemma TakeOfLonger<T>(n: nat, a: seq<T>, b: seq<T>)
    requires a <= b && |a| >= n
    ensures Take(n, b) == Take(n, a)
  {
  }

  lemma {:induction false} ListedGrows(j: Job, op: Op, k: nat, n: nat)
    requires k <= n <= |SitesOf(j, op)|
    ensures Listed(j, op, k) <= Listed(j, op, n)
    decreases n
  {
    if k < n { ListedGrows(j, op, k, n - 1); }
  }

  /** One operator's loop: append its wanted mutants until it or the whole list is full. */
  method ListOperator(j: Job, op: Op, perOp: nat, limit: Option<nat>, mutants: seq<Mutant>) returns (more: seq<Mutant>)
    requires limit.Some? ==> |mutants| <= limit.value
    ensures more == Upto(limit, mutants + Take(perOp, AllOf(j, op)))
  {
    hide Wanted, MutantAt, SitesOf;
    more := mutants;
    var accepted := 0;
    var k := 0;
    var count := |SitesOf(j, op)|;
    while k < count
      invariant k <= count && (limit.Some? ==> |more| <= limit.value)
      invariant more == mutants + Listed(j, op, k) && accepted == |Listed(j, op, k)| <= perOp
    {
      ListedGrows(j, op, k, count);
      var s := SiteAt(j, op, k);
      if j.lines.Some? && LineOf(j.text, s.start) !in j.lines.value {
        NotWanted(j, op, k);
        k := k + 1;
        continue;
      }
      if accepted >= perOp || Reached(limit, |more|) {
        FullStays(limit, perOp, mutants, Listed(j, op, k), AllOf(j, op));
        return;
      }
      var mutant := MutantAt(j, op, k);
      if mutant.mutated == j.text {
        NotWanted(j, op, k);
      } else {
        IsWanted(j, op, k);
        more := more + [mutant];
        accepted := accepted + 1;
      }
      k := k + 1;
    }
  }

  lemma NotWanted(j: Job, op: Op, k: nat)
    requires k < |SitesOf(j, op)|
    requires
      || (j.lines.Some? && LineOf(j.text, SiteAt(j, op, k).start) !in j.lines.value)
      || MutantAt(j, op, k).mutated == j.text
    ensures !Wanted(j, op, k) && Listed(j, op, k + 1) == Listed(j, op, k)
  {
  }

  lemma IsWanted(j: Job, op: Op, k: nat)
    requires k < |SitesOf(j, op)|
    requires !(j.lines.Some? && LineOf(j.text, SiteAt(j, op, k).start) !in j.lines.value)
    requires MutantAt(j, op, k).mutated != j.text
    ensures Listed(j, op, k + 1) == Listed(j, op, k) + [MutantAt(j, op, k)]
  {
  }

  lemma FullStays<T>(limit: Option<nat>, perOp: nat, base: seq<T>, part: seq<T>, all: seq<T>)
    requires part <= all && |part| <= perOp && (limit.Some? ==> |base + part| <= limit.value)
    requires |part| >= perOp || Reached(limit, |base + part|)
    ensures Upto(limit, base + Take(perOp, all)) == base + part
  {
    assert part <= Take(perOp, all);
    assert base + part <= base + Take(perOp, all);
  }

  /** The listing under both caps, of which the overall one may be absent. */
  method GenerateMutants(j: Job, perOp: nat, limit: Option<nat>) returns (mutants: seq<Mutant>)
    ensures mutants == Upto(limit, Capped(j, perOp, |OPERATORS|))
  {
    hide AllOf;
    mutants := [];
    for o := 0 to |OPERATORS|
      invariant mutants == Upto(limit, Capped(j, perOp, o))
    {
      var more := ListOperator(j, OPERATORS[o], perOp, limit, mutants);
      if limit.Some? { TakeOfTaken(limit.value, Capped(j, perOp, o), Take(perOp, AllOf(j, OPERATORS[o]))); }
      mutants := more;
    }
  }

  lemma TakeOfTaken<T>(n: nat, a: seq<T>, b: seq<T>)
    ensures Take(n, Take(n, a) + b) == Take(n, a + b)
  {
    if |a| > n {
      TakeOfLonger(n, Take(n, a), Take(n, a) + b);
      TakeOfLonger(n, a, a + b);
    }
  }

  // ---- what a mutant is -----------------------------------------------------------------------

  /** The mutant rewrites one match of its operator, in code and on a line that may change. */
  ghost predicate SingleSite(j: Job, m: Mutant) {
    exists s, e ::
      && 0 <= s < e <= |j.text|
      && Matches(j.lex.word, Pattern(j.lex, m.op), Masked(j), s, e) && OnlyCode(j.lex, j.text, s, e)
      && m.original == j.text && m.mutated != j.text
      && m.mutated == j.text[..s] + Rewrite(m.op, j.text[s..e]) + j.text[e..]
      && m.line == LineOf(j.text, s) && (j.lines.Some? ==> m.line in j.lines.value)
  }

  lemma WantedIsSingleSite(j: Job, op: Op, k: nat)
    requires SoundLex(j.lex) && k < |SitesOf(j, op)| && Wanted(j, op, k)
    ensures SingleSite(j, MutantAt(j, op, k))
  {
    var s := SiteAt(j, op, k);
    SitesAreMatches(j.lex, op, Masked(j), 0, k);
    MatchIsCode(j.lex, op, j.text, s.start);
    MatchMeans(j.lex, op, Masked(j), s.start);
    hide MatchAt, Sites, CodeMask, Matches, Pattern, OnlyCode, Rewrite;
    var m := MutantAt(j, op, k);
    assert m.mutated == j.text[..s.start] + Rewrite(op, j.text[s.start..s.end]) + j.text[s.end..];
    assert Matches(j.lex.word, Pattern(j.lex, op), Masked(j), s.start, s.end);
  }

  lemma {:induction false} ListedAreSingleSite(j: Job, op: Op, k: nat)
    requires SoundLex(j.lex) && k <= |SitesOf(j, op)|
    ensures forall m :: m in Listed(j, op, k) ==> SingleSite(j, m)
  {
    hide SingleSite, Wanted, MutantAt, SitesOf;
    if k > 0 {
      ListedAreSingleSite(j, op, k - 1);
      if Wanted(j, op, k - 1) { WantedIsSingleSite(j, op, k - 1); }
    }
  }

  lemma {:induction false} UncappedAreSingleSite(j: Job, ops: nat)
    requires SoundLex(j.lex) && ops <= |OPERATORS|
    ensures forall m :: m in Uncapped(j, ops) ==> SingleSite(j, m)
  {
    hide SingleSite, Listed;
    if ops > 0 {
      UncappedAreSingleSite(j, ops - 1);
      ListedAreSingleSite(j, OPERATORS[ops - 1], |SitesOf(j, OPERATORS[ops - 1])|);
    }
  }

  /** A per-operator cap no smaller than the overall one never binds first. */
  lemma {:induction false} OperatorCapNeverBinds(j: Job, perOp: nat, limit: nat, ops: nat)
    requires limit <= perOp && ops <= |OPERATORS|
    ensures Take(limit, Capped(j, perOp, ops)) == Take(limit, Uncapped(j, ops))
  {
    hide AllOf;
    if ops > 0 {
      var all := AllOf(j, OPERATORS[ops - 1]);
      OperatorCapNeverBinds(j, perOp, limit, ops - 1);
      TakeOfTaken(limit, Capped(j, perOp, ops - 1), Take(perOp, all));
      TakeOfTaken(limit, Uncapped(j, ops - 1), all);
      TakeInside(limit, perOp, Take(limit, Uncapped(j, ops - 1)), all);
    }
  }

  lemma TakeInside<T>(n: nat, m: nat, a: seq<T>, b: seq<T>)
    requires n <= m
    ensures Take(n, a + Take(m, b)) == Take(n, a + b)
  {
    assert a + Take(m, b) <= a + b;
    if |b| > m { TakeOfLonger(n, a + Take(m, b), a + b); }
  }
}
