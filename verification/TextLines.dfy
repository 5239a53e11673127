/** How the host reads a text and divides it into lines, against counting newline characters. */
module TextLines {

  // ---- lines --------------------------------------------------------------------------

  /** The characters at which `str.splitlines` ends a line. */
  predicate Separator(c: char) {
    || c == '\n' || c == '\r' || c == '\U{B}' || c == '\U{C}' || '\U{1C}' <= c <= '\U{1E}'
    || c == '\U{85}' || c == '\U{2028}' || c == '\U{2029}'
  }

  /** The length of the line end at the head of a text; a carriage return and a newline are one. */
  function LineEnd(t: string): (n: nat)
    ensures n <= |t|
  {
    if t == [] || !Separator(t[0]) then 0
    else if t[0] == '\r' && |t| > 1 && t[1] == '\n' then 2
    else 1
  }

  /** The lines of a text, without their ends; `line` is what has been read of the first. */
  function SplitFrom(line: string, t: string): (r: seq<string>)
    ensures line != [] || t != [] ==> r != []
    decreases |t|
  {
    if t == [] then (if line == [] then [] else [line])
    else if LineEnd(t) > 0 then [line] + SplitFrom([], t[LineEnd(t)..])
    else SplitFrom(line + [t[0]], t[1..])
  }

  function SplitLines(t: string): seq<string> {
    SplitFrom([], t)
  }

  /** A stretch without a separator is read into the line, and a separator then ends it. */
  lemma {:induction false} SplitRun(line: string, run: string, end: char, rest: string)
    requires (forall c :: c in run ==> !Separator(c)) && Separator(end) && end != '\r'
    ensures SplitFrom(line, run + [end] + rest) == [line + run] + SplitFrom([], rest)
    decreases |run|
  {
    var t := run + [end] + rest;
    if run == [] {
      assert t[0] == end && t[1..] == rest && line + run == line;
    } else {
      assert t[0] == run[0] && run[0] in run && t[1..] == run[1..] + [end] + rest;
      SplitRun(line + [run[0]], run[1..], end, rest);
      assert line + [run[0]] + run[1..] == line + run;
    }
  }

  lemma {:induction false} SplitLast(line: string, run: string)
    requires (forall c :: c in run ==> !Separator(c)) && line + run != []
    ensures SplitFrom(line, run) == [line + run]
    decreases |run|
  {
    if run == [] {
      assert line + run == line;
    } else {
      assert run[0] in run;
      SplitLast(line + [run[0]], run[1..]);
      assert line + [run[0]] + run[1..] == line + run;
    }
  }

  /** How many lines end in a text. */
  function Ends(t: string): nat
    decreases |t|
  {
    if t == [] then 0
    else if LineEnd(t) > 0 then 1 + Ends(t[LineEnd(t)..])
    else Ends(t[1..])
  }

  /** No line end straddles the two parts. */
  predicate Clean(a: string, b: string) {
    a == [] || b == [] || a[|a| - 1] != '\r' || b[0] != '\n'
  }

  lemma CleanTail(a: string, b: string, n: nat)
    requires Clean(a, b) && n <= |a|
    ensures Clean(a[n..], b)
  {
  }

  lemma LineEndOfConcat(a: string, b: string)
    requires a != [] && Clean(a, b)
    ensures LineEnd(a + b) == LineEnd(a)
  {
  }

  /** What follows `a` stands in the line numbered one more than the lines that end in `a`. */
  lemma {:induction false} SplitAfter(line: string, a: string, b: string)
    requires Clean(a, b) && b != [] && LineEnd(b) == 0
    ensures var lines := SplitFrom(line, a + b);
      && Ends(a) < |lines|
      && exists before, after :: lines[Ends(a)] == before + [b[0]] + after
    decreases |a|
  {
    hide LineEnd;
    if a == [] {
      assert a + b == b;
      Carried(line + [b[0]], b[1..]);
      FirstOf(b);
      var after :| SplitFrom(line + [b[0]], b[1..])[0] == (line + [b[0]]) + after;
      assert SplitFrom(line, b)[0] == line + [b[0]] + after;
    } else {
      LineEndOfConcat(a, b);
      var n := LineEnd(a);
      if n > 0 {
        assert (a + b)[n..] == a[n..] + b;
        CleanTail(a, b, n);
        SplitAfter([], a[n..], b);
      } else {
        assert (a + b)[1..] == a[1..] + b;
        CleanTail(a, b, 1);
        SplitAfter(line + [a[0]], a[1..], b);
      }
    }
  }

  lemma FirstOf(b: string)
    requires b != []
    ensures b == [b[0]] + b[1..]
  {
  }

  /** What has been read of a line stays at its head. */
  lemma {:induction false} Carried(line: string, t: string)
    requires line != []
    ensures var lines := SplitFrom(line, t); lines != [] && exists after :: lines[0] == line + after
    decreases |t|
  {
    hide LineEnd;
    if t == [] || LineEnd(t) > 0 {
      assert SplitFrom(line, t)[0] == line + [];
    } else {
      Carried(line + [t[0]], t[1..]);
      var after :| SplitFrom(line + [t[0]], t[1..])[0] == line + [t[0]] + after;
      assert line + [t[0]] + after == line + ([t[0]] + after);
    }
  }

  // ---- reading with universal newlines -----------------------------------------------------

  /** A text as it is read in text mode: both other newline spellings become a newline. */
  function Translated(raw: string): string
    decreases |raw|
  {
    if raw == [] then []
    else if raw[0] == '\r' then ['\n'] + Translated(raw[LineEnd(raw)..])
    else [raw[0]] + Translated(raw[1..])
  }

  /** How many characters at the head of a text are read as one. */
  function Unit(t: string): (n: nat)
    requires t != []
    ensures 1 <= n <= |t|
  {
    if t[0] == '\r' then LineEnd(t) else 1
  }

  lemma TranslatedHead(t: string)
    requires t != []
    ensures Translated(t) == [if t[0] == '\r' then '\n' else t[0]] + Translated(t[Unit(t)..])
  {
  }

  lemma UnitOfConcat(a: string, b: string)
    requires a != [] && Clean(a, b)
    ensures a + b != [] && Unit(a + b) == Unit(a) && (a + b)[Unit(a)..] == a[Unit(a)..] + b
    ensures (a + b)[0] == a[0] && Clean(a[Unit(a)..], b)
  {
    LineEndOfConcat(a, b);
    CleanTail(a, b, Unit(a));
  }

  lemma {:induction false} TranslatedConcat(a: string, b: string)
    requires Clean(a, b)
    ensures Translated(a + b) == Translated(a) + Translated(b)
    decreases |a|
  {
    hide Unit, Clean, Translated;
    if a == [] {
      NothingToTranslate();
      assert a + b == b && [] + Translated(b) == Translated(b);
    } else {
      UnitOfConcat(a, b);
      TranslatedHead(a);
      TranslatedHead(a + b);
      TranslatedConcat(a[Unit(a)..], b);
    }
  }

  lemma NothingToTranslate()
    ensures Translated([]) == []
  {
  }

  lemma {:induction false} NothingTranslated(raw: string)
    requires '\r' !in raw
    ensures Translated(raw) == raw
  {
    if raw != [] {
      assert raw == [raw[0]] + raw[1..];
      NothingTranslated(raw[1..]);
    }
  }

  // ---- two ways to number lines ----------------------------------------------------------------

  function Newlines(t: string): nat {
    if t == [] then 0 else (if t[0] == '\n' then 1 else 0) + Newlines(t[1..])
  }

  /** Line ends that are neither a newline nor a carriage return before one. */
  function Strays(raw: string): nat
    decreases |raw|
  {
    if raw == [] then 0
    else if LineEnd(raw) == 2 then Strays(raw[2..])
    else (if raw[0] != '\n' && Separator(raw[0]) then 1 else 0) + Strays(raw[1..])
  }

  /** A text as read ends one line for each newline of the raw text and for each stray. */
  lemma {:induction false} EndsOfTranslated(raw: string)
    ensures Ends(Translated(raw)) == Newlines(raw) + Strays(raw)
    decreases |raw|
  {
    if raw != [] {
      var n := if raw[0] == '\r' then LineEnd(raw) else 1;
      EndsOfTranslated(raw[n..]);
      var rest := Translated(raw[n..]);
      NoReturns(raw[n..]);
      EndsCons(if raw[0] == '\r' then '\n' else raw[0], rest);
      if n == 2 { assert raw[1..][1..] == raw[2..]; }
    }
  }

  lemma EndsCons(c: char, rest: string)
    requires c != '\r'
    ensures Ends([c] + rest) == (if Separator(c) then 1 else 0) + Ends(rest)
  {
    assert ([c] + rest)[1..] == rest;
  }

  lemma {:induction false} NoReturns(raw: string)
    ensures '\r' !in Translated(raw)
    decreases |raw|
  {
    if raw != [] { NoReturns(raw[if raw[0] == '\r' then LineEnd(raw) else 1..]); }
  }

  /** Line end `i` is neither a newline nor a carriage return before one. */
  predicate StrayAt(raw: string, i: nat) {
    i < |raw| && Separator(raw[i]) && raw[i] != '\n' && !(raw[i] == '\r' && i + 1 < |raw| && raw[i + 1] == '\n')
  }

  lemma {:induction false} NoStrays(raw: string)
    ensures Strays(raw) == 0 <==> forall i :: !StrayAt(raw, i)
    decreases |raw|
  {
    if raw != [] {
      var n := if LineEnd(raw) == 2 then 2 else 1;
      NoStrays(raw[n..]);
      assert n == 2 ==> !StrayAt(raw, 0) && !StrayAt(raw, 1);
      assert n == 1 ==> (StrayAt(raw, 0) <==> raw[0] != '\n' && Separator(raw[0]));
      forall i: nat ensures StrayAt(raw[n..], i) <==> StrayAt(raw, n + i) { }
      forall i: nat | i >= n ensures StrayAt(raw, i) <==> StrayAt(raw[n..], i - n) { }
    }
  }
}
