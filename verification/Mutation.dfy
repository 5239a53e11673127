/** Mutation candidates and the campaign that runs them. */
module Mutation {
  import opened Mutators
  import opened Wrappers
  import T = TextLines

  // ---- candidates ------------------------------------------------------------------------

  /** A changed file: the text the plan was made from, the characters it holds now, the changed
      line spans, and the verdicts of the policy and the target.  The spans number the lines of
      the planned text as `str.splitlines` divides it. */
  datatype ChangedFile = ChangedFile(
    path: string, planned: string, raw: string, spans: seq<(nat, nat)>,
    fallback: string, allowed: bool, refusal: string, isSource: bool)

  const NOT_A_SOURCE := "not a source of the active RTL target"
  const NO_LINES := "no added or modified current lines (deletions cannot be mutated)"
  const NO_OPERATOR := "no supported mutation operator on changed lines"

  /** Why a file is skipped, or nothing. */
  function SkipReason(f: ChangedFile): string {
    if f.spans == [] then NO_LINES
    else if !f.allowed then f.refusal
    else if !f.isSource then NOT_A_SOURCE
    else f.fallback
  }

  /** The file changes some current line, and nothing speaks against mutating it. */
  ghost predicate Eligible(f: ChangedFile) {
    f.spans != [] && if f.allowed then f.isSource && f.fallback == "" else f.refusal == ""
  }

  lemma EligibleMeans(f: ChangedFile)
    ensures Eligible(f) <==> SkipReason(f) == ""
  {
  }

  function Range(a: nat, b: nat): (r: set<nat>)
    ensures forall n: nat :: n in r <==> a <= n <= b
    decreases b + 1 - a
  {
    if a > b then {} else {a} + Range(a + 1, b)
  }

  function LinesIn(spans: seq<(nat, nat)>): set<nat> {
    if spans == [] then {} else Range(spans[0].0, spans[0].1) + LinesIn(spans[1..])
  }

  ghost predicate OnChangedLine(f: ChangedFile, n: nat) {
    exists span :: span in f.spans && span.0 <= n <= span.1
  }

  lemma {:induction false} LinesInMeans(spans: seq<(nat, nat)>, n: nat)
    ensures n in LinesIn(spans) <==> exists span :: span in spans && span.0 <= n <= span.1
  {
    if spans != [] {
      assert spans == [spans[0]] + spans[1..];
      LinesInMeans(spans[1..], n);
    }
  }

  function JobOf(lex: Lex, f: ChangedFile): Job {
    Job(lex, f.path, f.raw, Some(LinesIn(f.spans)))
  }

  ghost function MutantsOf(lex: Lex, f: ChangedFile): seq<Mutant> {
    if !Eligible(f) then [] else Uncapped(JobOf(lex, f), |OPERATORS|)
  }

  /** Every mutant of the changed files, by file, operator and position. */
  ghost function AllMutants(lex: Lex, files: seq<ChangedFile>): seq<Mutant> {
    if files == [] then []
    else AllMutants(lex, files[..|files| - 1]) + MutantsOf(lex, files[|files| - 1])
  }

  datatype Candidates = Moved | Candidates(mutants: seq<Mutant>, skipped: seq<(string, string)>, truncated: bool)

  /** Up to `maximum` candidates.  The list is exactly the head of the uncapped enumeration,
      and `truncated` says whether anything was left out. */
  method ChooseCandidates(lex: Lex, files: seq<ChangedFile>, maximum: nat) returns (r: Candidates)
    ensures r.Moved? <==> exists f :: f in files && Eligible(f) && T.Translated(f.raw) != f.planned
    ensures r.Candidates? ==> r.mutants == Take(maximum, AllMutants(lex, files))
    ensures r.Candidates? ==> (r.truncated <==> |AllMutants(lex, files)| > maximum)
    ensures r.Candidates? ==> forall f :: f in files && MutantsOf(lex, f) == [] ==>
      exists why :: (f.path, why) in r.skipped
    ensures r.Candidates? && (forall f :: f in files && Eligible(f) ==> NoStrayBeforeASite(JobOf(lex, f))) ==>
      r.mutants == Take(maximum, AllMeant(lex, files))
    ensures r.Candidates? && SoundLex(lex) ==>
      forall m :: m in r.mutants ==>
        exists f :: f in files && Eligible(f) && SingleSite(JobOf(lex, f), m) && OnChangedLine(f, m.line)
  {
    hide SkipReason, Eligible, OnChangedLine, MutantsOf, JobOf, SingleSite, AllMutants, AllMeant, NoStrayBeforeASite;
    var mutants, skipped, truncated := [], [], false;
    AllMutantsGrow(lex, files, 0);
    for i := 0 to |files|
      invariant mutants == Take(maximum, AllMutants(lex, files[..i]))
      invariant truncated <==> |AllMutants(lex, files[..i])| > maximum
      invariant forall k :: 0 <= k < i ==> !Eligible(files[k]) || T.Translated(files[k].raw) == files[k].planned
      invariant forall k :: 0 <= k < i && MutantsOf(lex, files[k]) == [] ==>
        exists why :: (files[k].path, why) in skipped
    {
      var f := files[i];
      AllMutantsGrow(lex, files, i);
      EligibleMeans(f);
      var none, over := false, false;
      if SkipReason(f) != "" {
        SkippedHasNone(lex, f);
        assert AllMutants(lex, files[..i]) + [] == AllMutants(lex, files[..i]);
        skipped := skipped + [(f.path, SkipReason(f))];
      } else if T.Translated(f.raw) != f.planned {
        return Moved;
      } else {
        mutants, over, none := AddFile(lex, f, maximum, AllMutants(lex, files[..i]), mutants);
        truncated := truncated || over;
        skipped := skipped + (if none then [(f.path, NO_OPERATOR)] else []);
      }
      assert MutantsOf(lex, f) == [] ==> skipped[|skipped| - 1].0 == f.path && skipped[|skipped| - 1] in skipped;
    }
    assert files[..|files|] == files;
    AllAreSingleSite(lex, files);
    assert mutants <= AllMutants(lex, files);
    forall m | m in mutants ensures m in AllMutants(lex, files) {
      var k :| 0 <= k < |mutants| && mutants[k] == m;
      assert AllMutants(lex, files)[k] == m;
    }
    if forall f :: f in files && Eligible(f) ==> NoStrayBeforeASite(JobOf(lex, f)) {
      AllAreMeant(lex, files);
    }
    r := Candidates(mutants, skipped, truncated);
  }

  lemma AllMutantsGrow(lex: Lex, files: seq<ChangedFile>, i: nat)
    requires i <= |files|
    ensures i < |files| ==> AllMutants(lex, files[..i + 1]) == AllMutants(lex, files[..i]) + MutantsOf(lex, files[i])
    ensures AllMutants(lex, []) == []
  {
    if i < |files| { assert files[..i + 1][..i] == files[..i]; }
  }

  lemma SkippedHasNone(lex: Lex, f: ChangedFile)
    requires !Eligible(f)
    ensures MutantsOf(lex, f) == []
  {
  }

  /** Add one file's mutants to the head of those before it. */
  method AddFile(lex: Lex, f: ChangedFile, maximum: nat, ghost before: seq<Mutant>, mutants: seq<Mutant>)
    returns (r: seq<Mutant>, over: bool, none: bool)
    requires Eligible(f) && mutants == Take(maximum, before)
    ensures r == Take(maximum, before + MutantsOf(lex, f))
    ensures |before| > maximum || over <==> |before + MutantsOf(lex, f)| > maximum
    ensures none <==> MutantsOf(lex, f) == []
  {
    hide JobOf, Eligible, Capped, Uncapped;
    var found := GenerateMutants(JobOf(lex, f), maximum + 1, Some(maximum + 1));
    OperatorCapNeverBinds(JobOf(lex, f), maximum + 1, maximum + 1, |OPERATORS|);
    ghost var all := MutantsOf(lex, f);
    AcceptedHead(maximum, before, all);
    r, over := Accept(mutants, found, maximum);
    none := found == [];
  }

  /** Append mutants one by one until the list is full. */
  method Accept(mutants: seq<Mutant>, found: seq<Mutant>, maximum: nat) returns (r: seq<Mutant>, over: bool)
    requires |mutants| <= maximum
    ensures r == Take(maximum, mutants + found) && (over <==> |mutants| + |found| > maximum)
  {
    r, over := mutants, false;
    for i := 0 to |found|
      invariant r == mutants + found[..i] && |r| <= maximum
    {
      if |r| == maximum {
        TakeOfLonger(maximum, r, mutants + found);
        return r, true;
      }
      r := r + [found[i]];
    }
  }

  lemma AcceptedHead(maximum: nat, before: seq<Mutant>, all: seq<Mutant>)
    ensures var head := Take(maximum, before) + Take(maximum + 1, all);
      && Take(maximum, head) == Take(maximum, before + all)
      && (|before| > maximum || |head| > maximum <==> |before + all| > maximum)
  {
    TakeInside(maximum, maximum + 1, Take(maximum, before), all);
    TakeOfTaken(maximum, before, all);
  }

  lemma {:induction false} AllAreSingleSite(lex: Lex, files: seq<ChangedFile>)
    ensures SoundLex(lex) ==>
      forall m :: m in AllMutants(lex, files) ==>
        exists f :: f in files && Eligible(f) && SingleSite(JobOf(lex, f), m) && OnChangedLine(f, m.line)
  {
    hide Eligible, JobOf, SingleSite, Uncapped, OnChangedLine;
    if files != [] && SoundLex(lex) {
      var init, last := files[..|files| - 1], files[|files| - 1];
      AllAreSingleSite(lex, init);
      if Eligible(last) {
        JobKeepsLex(lex, last);
        UncappedAreSingleSite(JobOf(lex, last), |OPERATORS|);
        forall m | SingleSite(JobOf(lex, last), m) ensures OnChangedLine(last, m.line) { ChangedLine(lex, last, m); }
      }
    }
  }

  lemma ChangedLine(lex: Lex, f: ChangedFile, m: Mutant)
    requires SingleSite(JobOf(lex, f), m)
    ensures OnChangedLine(f, m.line)
  {
    LinesInMeans(f.spans, m.line);
  }

  lemma JobKeepsLex(lex: Lex, f: ChangedFile)
    ensures JobOf(lex, f).lex == lex
  {
  }

  // ---- the lines the planner meant ---------------------------------------------------------

  /** The planner's number for the line that holds position `pos` of the raw text. */
  function PlannerLine(raw: string, pos: nat): nat
    requires pos <= |raw|
  {
    1 + T.Ends(T.Translated(raw[..pos]))
  }

  /** It is the number of a line of the planned text that holds the character at `pos`. */
  lemma PlannerLineMeans(raw: string, pos: nat)
    requires pos < |raw| && !T.Separator(raw[pos])
    ensures var lines := T.SplitLines(T.Translated(raw));
      && PlannerLine(raw, pos) <= |lines|
      && exists before, after :: lines[PlannerLine(raw, pos) - 1] == before + [raw[pos]] + after
  {
    var a, b := raw[..pos], raw[pos..];
    assert raw == a + b;
    T.TranslatedConcat(a, b);
    T.NoReturns(a);
    assert T.Translated(b)[0] == raw[pos];
    T.SplitAfter([], T.Translated(a), T.Translated(b));
  }

  lemma {:induction false} LineOfCounts(t: string, pos: nat)
    requires pos <= |t|
    ensures LineOf(t, pos) == 1 + T.Newlines(t[..pos])
  {
    if pos > 0 {
      LineOfCounts(t, pos - 1);
      assert t[..pos] == t[..pos - 1] + [t[pos - 1]];
      NewlinesSnoc(t[..pos - 1], t[pos - 1]);
    }
  }

  lemma {:induction false} NewlinesSnoc(t: string, c: char)
    ensures T.Newlines(t + [c]) == T.Newlines(t) + (if c == '\n' then 1 else 0)
  {
    if t == [] {
      assert [c][1..] == [];
    } else {
      assert (t + [c])[1..] == t[1..] + [c];
      NewlinesSnoc(t[1..], c);
    }
  }

  /** The two numberings differ by the stray line ends before a position. */
  lemma NumbersDifferByStrays(raw: string, pos: nat)
    requires pos <= |raw|
    ensures PlannerLine(raw, pos) == LineOf(raw, pos) + T.Strays(raw[..pos])
  {
    T.EndsOfTranslated(raw[..pos]);
    LineOfCounts(raw, pos);
  }

  /** The mutant is at a site on one of the planner's lines. */
  predicate Meant(j: Job, lines: set<nat>, op: Op, k: nat)
    requires k < |SitesOf(j, op)|
  {
    PlannerLine(j.text, SiteAt(j, op, k).start) in lines && MutantAt(j, op, k).mutated != j.text
  }

  function MeantListed(j: Job, lines: set<nat>, op: Op, k: nat): seq<Mutant>
    requires k <= |SitesOf(j, op)|
  {
    if k == 0 then []
    else MeantListed(j, lines, op, k - 1) + (if Meant(j, lines, op, k - 1) then [MutantAt(j, op, k - 1)] else [])
  }

  function MeantBy(j: Job, lines: set<nat>, ops: nat): seq<Mutant>
    requires ops <= |OPERATORS|
  {
    if ops == 0 then []
    else MeantBy(j, lines, ops - 1) + MeantListed(j, lines, OPERATORS[ops - 1], |SitesOf(j, OPERATORS[ops - 1])|)
  }

  /** The mutants of a file on the lines the planner meant. */
  ghost function MeantOf(lex: Lex, f: ChangedFile): seq<Mutant> {
    if !Eligible(f) then [] else MeantBy(JobOf(lex, f), LinesIn(f.spans), |OPERATORS|)
  }

  ghost function AllMeant(lex: Lex, files: seq<ChangedFile>): seq<Mutant> {
    if files == [] then [] else AllMeant(lex, files[..|files| - 1]) + MeantOf(lex, files[|files| - 1])
  }

  /** Before every site, lines end in a newline alone or after a carriage return. */
  ghost predicate NoStrayBeforeASite(j: Job) {
    forall op, k :: 0 <= k < |SitesOf(j, op)| ==> T.Strays(j.text[..SiteAt(j, op, k).start]) == 0
  }

  lemma {:induction false} ListedAreMeant(j: Job, op: Op, k: nat)
    requires j.lines.Some? && NoStrayBeforeASite(j) && k <= |SitesOf(j, op)|
    ensures Listed(j, op, k) == MeantListed(j, j.lines.value, op, k)
  {
    hide SitesOf, SiteAt, MutantAt, PlannerLine;
    if k > 0 {
      ListedAreMeant(j, op, k - 1);
      NumbersDifferByStrays(j.text, SiteAt(j, op, k - 1).start);
    }
  }

  lemma {:induction false} UncappedAreMeant(j: Job, ops: nat)
    requires j.lines.Some? && NoStrayBeforeASite(j) && ops <= |OPERATORS|
    ensures Uncapped(j, ops) == MeantBy(j, j.lines.value, ops)
  {
    hide Listed, MeantListed, SitesOf, NoStrayBeforeASite;
    if ops > 0 {
      UncappedAreMeant(j, ops - 1);
      ListedAreMeant(j, OPERATORS[ops - 1], |SitesOf(j, OPERATORS[ops - 1])|);
    }
  }

  /** A candidate is at a wanted site of its own operator and occurrence. */
  ghost predicate AtWantedSite(j: Job, m: Mutant) {
    m.occurrence < |SitesOf(j, m.op)| && Wanted(j, m.op, m.occurrence)
  }

  lemma {:induction false} ListedAreWanted(j: Job, op: Op, k: nat)
    requires k <= |SitesOf(j, op)|
    ensures forall m :: m in Listed(j, op, k) ==> AtWantedSite(j, m)
  {
    hide SitesOf, Wanted;
    if k > 0 { ListedAreWanted(j, op, k - 1); }
  }

  lemma {:induction false} UncappedAreWanted(j: Job, ops: nat)
    requires ops <= |OPERATORS|
    ensures forall m :: m in Uncapped(j, ops) ==> AtWantedSite(j, m)
  {
    hide Listed, SitesOf, Wanted;
    if ops > 0 {
      UncappedAreWanted(j, ops - 1);
      ListedAreWanted(j, OPERATORS[ops - 1], |SitesOf(j, OPERATORS[ops - 1])|);
    }
  }

  lemma {:induction false} MeantIsListed(j: Job, lines: set<nat>, op: Op, k: nat, n: nat)
    requires k < n <= |SitesOf(j, op)| && Meant(j, lines, op, k)
    ensures MutantAt(j, op, k) in MeantListed(j, lines, op, n)
    decreases n
  {
    hide SitesOf, Meant, MutantAt;
    if k < n - 1 { MeantIsListed(j, lines, op, k, n - 1); }
  }

  lemma {:induction false} MeantIsIncluded(j: Job, lines: set<nat>, o: nat, k: nat, ops: nat)
    requires o < ops <= |OPERATORS| && k < |SitesOf(j, OPERATORS[o])| && Meant(j, lines, OPERATORS[o], k)
    ensures MutantAt(j, OPERATORS[o], k) in MeantBy(j, lines, ops)
    decreases ops
  {
    hide SitesOf, Meant, MutantAt, MeantListed;
    if o < ops - 1 {
      MeantIsIncluded(j, lines, o, k, ops - 1);
    } else {
      MeantIsListed(j, lines, OPERATORS[o], k, |SitesOf(j, OPERATORS[o])|);
    }
  }

  /** Every site changes the text. */
  lemma MutantDiffers(j: Job, op: Op, k: nat)
    requires SoundLex(j.lex) && k < |SitesOf(j, op)|
    ensures MutantAt(j, op, k).mutated != j.text
  {
    var s := SiteAt(j, op, k);
    SitesAreMatches(j.lex, op, Masked(j), 0, k);
    MatchIsCode(j.lex, op, j.text, s.start);
    hide CodeMask, MatchAt, Sites, Hidden;
    var m := MutantAt(j, op, k).mutated;
    assert m[s.start..s.start + |s.replacement|] == s.replacement;
    assert |m| == |j.text| - (s.end - s.start) + |s.replacement|;
  }

  function OpIndex(op: Op): (o: nat)
    ensures o < |OPERATORS| && OPERATORS[o] == op
  {
    match op
    case PlusToMinus => 0
    case EqToNeq => 1
    case AndToOr => 2
    case LtToLte => 3
    case InvertCondition => 4
  }

  /** With a stray before a site, the planner's own line for that site misses it. */
  lemma StrayMisses(j: Job, op: Op, k: nat)
    requires SoundLex(j.lex) && k < |SitesOf(j, op)| && T.Strays(j.text[..SiteAt(j, op, k).start]) > 0
    ensures var line := PlannerLine(j.text, SiteAt(j, op, k).start);
      Uncapped(j.(lines := Some({line})), |OPERATORS|) != MeantBy(j, {line}, |OPERATORS|)
  {
    hide SitesOf, MeantBy, Uncapped, PlannerLine, MutantAt;
    var line := PlannerLine(j.text, SiteAt(j, op, k).start);
    var j' := j.(lines := Some({line}));
    SameSites(j, j', op, k);
    MutantDiffers(j, op, k);
    MeantIsIncluded(j, {line}, OpIndex(op), k, |OPERATORS|);
    UncappedAreWanted(j', |OPERATORS|);
    NumbersDifferByStrays(j.text, SiteAt(j, op, k).start);
    assert !Wanted(j', op, k);
    MutantNames(j, op, k);
    assert !AtWantedSite(j', MutantAt(j, op, k));
  }

  lemma MutantNames(j: Job, op: Op, k: nat)
    requires k < |SitesOf(j, op)|
    ensures MutantAt(j, op, k).op == op && MutantAt(j, op, k).occurrence == k
  {
  }

  /** Sites depend on the text alone. */
  lemma SameSites(j: Job, j': Job, op: Op, k: nat)
    requires j'.lex == j.lex && j'.text == j.text && k < |SitesOf(j, op)|
    ensures SitesOf(j', op) == SitesOf(j, op) && SiteAt(j', op, k) == SiteAt(j, op, k)
  {
  }

  /** The changed lines do not keep a file from being mutated, whatever they are. */
  predicate Mutable(f: ChangedFile) {
    f.allowed && f.isSource && f.fallback == ""
  }

  /** Whatever spans the planner reports, the candidates of a file are exactly the mutants on the
      lines it meant if and only if no stray line end precedes a site. */
  lemma CandidatesAreMeantExactlyWhen(lex: Lex, f: ChangedFile)
    requires SoundLex(lex) && Mutable(f)
    ensures (forall spans :: MutantsOf(lex, f.(spans := spans)) == MeantOf(lex, f.(spans := spans))) <==>
      NoStrayBeforeASite(JobOf(lex, f))
  {
    hide SitesOf, Uncapped, MeantBy, NoStrayBeforeASite, SiteAt;
    var j := JobOf(lex, f);
    if NoStrayBeforeASite(j) {
      forall spans ensures MutantsOf(lex, f.(spans := spans)) == MeantOf(lex, f.(spans := spans)) {
        var j' := JobOf(lex, f.(spans := spans));
        NoStrayEither(j, j');
        UncappedAreMeant(j', |OPERATORS|);
      }
    } else {
      var op, k := StraySite(j);
      var line := PlannerLine(j.text, SiteAt(j, op, k).start);
      var spans := [(line, line)];
      OneLine(line);
      StrayMisses(j, op, k);
      MeantIgnoresLines(j, JobOf(lex, f.(spans := spans)), {line}, |OPERATORS|);
      assert MutantsOf(lex, f.(spans := spans)) != MeantOf(lex, f.(spans := spans));
    }
  }

  lemma StraySite(j: Job) returns (op: Op, k: nat)
    requires !NoStrayBeforeASite(j)
    ensures k < |SitesOf(j, op)| && T.Strays(j.text[..SiteAt(j, op, k).start]) > 0
  {
    hide SitesOf, SiteAt;
    op, k :| 0 <= k < |SitesOf(j, op)| && T.Strays(j.text[..SiteAt(j, op, k).start]) != 0;
  }

  lemma NoStrayEither(j: Job, j': Job)
    requires j'.lex == j.lex && j'.text == j.text && NoStrayBeforeASite(j)
    ensures NoStrayBeforeASite(j')
  {
    hide SitesOf, SiteAt;
    forall op, k | 0 <= k < |SitesOf(j', op)| ensures T.Strays(j'.text[..SiteAt(j', op, k).start]) == 0 {
      SameSites(j', j, op, k);
    }
  }

  lemma OneLine(n: nat)
    ensures LinesIn([(n, n)]) == {n}
  {
    assert Range(n, n) == {n};
    assert [(n, n)][1..] == [];
  }

  lemma {:induction false} MeantIgnoresLines(j: Job, j': Job, lines: set<nat>, ops: nat)
    requires j' == j.(lines := j'.lines) && ops <= |OPERATORS|
    ensures MeantBy(j', lines, ops) == MeantBy(j, lines, ops)
  {
    hide SitesOf, MeantListed;
    if ops > 0 {
      var op := OPERATORS[ops - 1];
      MeantIgnoresLines(j, j', lines, ops - 1);
      SameSiteList(j, j', op);
      MeantListIgnoresLines(j, j', lines, op, |SitesOf(j, op)|);
    }
  }

  lemma SameSiteList(j: Job, j': Job, op: Op)
    requires j'.lex == j.lex && j'.text == j.text
    ensures SitesOf(j', op) == SitesOf(j, op)
  {
  }

  lemma {:induction false} MeantListIgnoresLines(j: Job, j': Job, lines: set<nat>, op: Op, k: nat)
    requires j' == j.(lines := j'.lines) && k <= |SitesOf(j, op)| && SitesOf(j', op) == SitesOf(j, op)
    ensures MeantListed(j', lines, op, k) == MeantListed(j, lines, op, k)
  {
    hide SitesOf;
    if k > 0 {
      MeantListIgnoresLines(j, j', lines, op, k - 1);
      SameSites(j, j', op, k - 1);
    }
  }

  /** Over all files: without a stray before a site the enumeration is the one that was meant. */
  lemma {:induction false} AllAreMeant(lex: Lex, files: seq<ChangedFile>)
    requires forall f :: f in files && Eligible(f) ==> NoStrayBeforeASite(JobOf(lex, f))
    ensures AllMutants(lex, files) == AllMeant(lex, files)
  {
    hide NoStrayBeforeASite, Uncapped, MeantBy, Eligible;
    if files != [] {
      var f := files[|files| - 1];
      AllAreMeant(lex, files[..|files| - 1]);
      if Eligible(f) { UncappedAreMeant(JobOf(lex, f), |OPERATORS|); }
    }
  }

  lemma {:induction false} WantedIsListed(j: Job, op: Op, k: nat, n: nat)
    requires k < n <= |SitesOf(j, op)| && Wanted(j, op, k)
    ensures MutantAt(j, op, k) in Listed(j, op, n)
    decreases n
  {
    hide SitesOf, Wanted, MutantAt;
    if k < n - 1 { WantedIsListed(j, op, k, n - 1); }
  }

  lemma {:induction false} WantedIsIncluded(j: Job, o: nat, k: nat, ops: nat)
    requires o < ops <= |OPERATORS| && k < |SitesOf(j, OPERATORS[o])| && Wanted(j, OPERATORS[o], k)
    ensures MutantAt(j, OPERATORS[o], k) in Uncapped(j, ops)
    decreases ops
  {
    hide SitesOf, Wanted, MutantAt, Listed;
    if o < ops - 1 {
      WantedIsIncluded(j, o, k, ops - 1);
    } else {
      WantedIsListed(j, OPERATORS[o], k, |SitesOf(j, OPERATORS[o])|);
    }
  }

  ghost predicate AtMeantSite(j: Job, lines: set<nat>, m: Mutant) {
    m.occurrence < |SitesOf(j, m.op)| && Meant(j, lines, m.op, m.occurrence)
  }

  lemma {:induction false} ListedMeantAreMeant(j: Job, lines: set<nat>, op: Op, k: nat)
    requires k <= |SitesOf(j, op)|
    ensures forall m :: m in MeantListed(j, lines, op, k) ==> AtMeantSite(j, lines, m)
  {
    hide SitesOf, Meant;
    if k > 0 { ListedMeantAreMeant(j, lines, op, k - 1); }
  }

  lemma {:induction false} MeantAreMeant(j: Job, lines: set<nat>, ops: nat)
    requires ops <= |OPERATORS|
    ensures forall m :: m in MeantBy(j, lines, ops) ==> AtMeantSite(j, lines, m)
  {
    hide MeantListed, SitesOf, Meant;
    if ops > 0 {
      MeantAreMeant(j, lines, ops - 1);
      ListedMeantAreMeant(j, lines, OPERATORS[ops - 1], |SitesOf(j, OPERATORS[ops - 1])|);
    }
  }

  // ---- an input whose lines are numbered differently ------------------------------------------------

  const FORM_FEED := "\U{C}\na==b\na==c"

  function Letters(): Lex {
    Lex(c => 'a' <= c <= 'z' || '0' <= c <= '9', c => c == ' ' || c == '\n' || c == '\U{C}')
  }

  lemma {:induction false} NothingHidden(x: Lex, t: string, i: nat)
    requires i <= |t| && forall k :: 0 <= k < |t| ==> t[k] != '/' && t[k] != '"' && t[k] != '\\'
    ensures MaskFrom(x, t, i) == t[i..]
    decreases |t| - i
  {
    if i < |t| {
      assert t[i..][0] == t[i];
      NothingHidden(x, t, i + 1);
    }
  }

  lemma NoSite(x: Lex, m: string, i: nat)
    requires i < |m| && m[i] != '='
    ensures Sites(x, EqToNeq, m, i) == Sites(x, EqToNeq, m, i + 1)
  {
  }

  lemma EqualsSite(x: Lex, m: string, i: nat)
    requires 0 < i && i + 2 < |m| && m[i] == '=' && m[i + 1] == '='
    requires m[i - 1] != '=' && m[i - 1] != '!' && m[i + 2] != '='
    ensures Sites(x, EqToNeq, m, i) == [Site(i, i + 2, "!=")] + Sites(x, EqToNeq, m, i + 2)
  {
  }

  lemma FormFeedSites(j: Job)
    requires j.lex == Letters() && j.text == FORM_FEED
    ensures SitesOf(j, EqToNeq) == [Site(3, 5, "!="), Site(8, 10, "!=")]
  {
    hide CodeMask, Sites, MatchAt, Letters;
    var x, t := Letters(), FORM_FEED;
    FormFeedMask(j);
    NoSite(x, t, 0);
    NoSite(x, t, 1);
    NoSite(x, t, 2);
    EqualsSite(x, t, 3);
    NoSite(x, t, 5);
    NoSite(x, t, 6);
    NoSite(x, t, 7);
    EqualsSite(x, t, 8);
    NoSite(x, t, 10);
    NoMoreSites(x, t, 11);
  }

  lemma FormFeedMask(j: Job)
    requires j.text == FORM_FEED
    ensures Masked(j) == FORM_FEED
  {
    hide MaskFrom;
    NothingHidden(j.lex, FORM_FEED, 0);
    assert FORM_FEED[0..] == FORM_FEED;
  }

  lemma NoMoreSites(x: Lex, m: string, i: nat)
    requires i >= |m|
    ensures Sites(x, EqToNeq, m, i) == []
  {
  }

  lemma FormFeedNumbers(n: nat)
    requires n == 3 || n == 8
    ensures LineOf(FORM_FEED, n) == (if n == 3 then 2 else 3) && PlannerLine(FORM_FEED, n) == LineOf(FORM_FEED, n) + 1
  {
    hide PlannerLine, T.Strays;
    var t := FORM_FEED;
    NumbersDifferByStrays(t, n);
    assert LineOf(t, 1) == 1 && LineOf(t, 2) == 2 && LineOf(t, 3) == 2;
    assert LineOf(t, 4) == 2 && LineOf(t, 5) == 2 && LineOf(t, 6) == 2;
    assert LineOf(t, 7) == 3 && LineOf(t, 8) == 3;
    OneStray(t[..n]);
  }

  lemma OneStray(t: string)
    requires t != [] && t[0] == '\U{C}' && forall i :: 0 < i < |t| ==> t[i] == '\n' || !T.Separator(t[i])
    ensures T.Strays(t) == 1
  {
    T.NoStrays(t[1..]);
  }

  lemma FormFeedLines()
    ensures T.SplitLines(FORM_FEED) == ["", "", "a==b", "a==c"]
  {
    hide T.SplitFrom;
    var none: string, second, third := "", "\na==b\na==c", "a==b\na==c";
    assert none + none == none && none + "a==b" == "a==b" && none + "a==c" == "a==c";
    assert FORM_FEED == none + ['\U{C}'] + second;
    assert second == none + ['\n'] + third && third == "a==b" + ['\n'] + "a==c";
    T.SplitRun(none, none, '\U{C}', second);
    T.SplitRun(none, none, '\n', third);
    T.SplitRun(none, "a==b", '\n', "a==c");
    T.SplitLast(none, "a==c");
    assert T.SplitLines(FORM_FEED) == [none] + T.SplitFrom(none, second);
    assert T.SplitFrom(none, second) == [none] + T.SplitFrom(none, third);
    assert T.SplitFrom(none, third) == ["a==b"] + ["a==c"];
  }

  lemma FormFeedMutants(j: Job)
    requires j.text == FORM_FEED && SitesOf(j, EqToNeq) == [Site(3, 5, "!="), Site(8, 10, "!=")]
    ensures SiteAt(j, EqToNeq, 0).start == 3 && SiteAt(j, EqToNeq, 1).start == 8
    ensures MutantAt(j, EqToNeq, 0).mutated == "\U{C}\na!=b\na==c"
    ensures MutantAt(j, EqToNeq, 1).mutated == "\U{C}\na==b\na!=c"
  {
    hide SitesOf, LineOf;
    assert FORM_FEED[..3] + "!=" + FORM_FEED[5..] == "\U{C}\na!=b\na==c";
    assert FORM_FEED[..8] + "!=" + FORM_FEED[10..] == "\U{C}\na==b\na!=c";
  }

  lemma FormFeedChoice(j: Job)
    requires j.lex == Letters() && j.text == FORM_FEED && j.lines == Some({3})
    ensures |SitesOf(j, EqToNeq)| == 2
    ensures Wanted(j, EqToNeq, 1) && !Meant(j, {3}, EqToNeq, 1)
    ensures !Wanted(j, EqToNeq, 0) && Meant(j, {3}, EqToNeq, 0)
  {
    hide SitesOf, SiteAt, MutantAt, LineOf, PlannerLine, Letters;
    FormFeedSites(j);
    FormFeedMutants(j);
    FormFeedNumbers(3);
    FormFeedNumbers(8);
    assert FORM_FEED[4] == '=' && FORM_FEED[9] == '=';
    assert MutantAt(j, EqToNeq, 0).mutated[3] == '!' && MutantAt(j, EqToNeq, 1).mutated[8] == '!';
  }

  /** A text with a form feed whose changed line, the third, holds `a==b`.  The candidate is in
      the line after it, and the mutant that was meant is missed. */
  lemma FormFeedShiftsLines() returns (lex: Lex, f: ChangedFile, wrong: Mutant, missed: Mutant)
    ensures SoundLex(lex) && Mutable(f) && f.spans == [(3, 3)] && T.Translated(f.raw) == f.planned
    ensures T.SplitLines(f.planned) == ["", "", "a==b", "a==c"]
    ensures wrong in MutantsOf(lex, f) && wrong !in MeantOf(lex, f) && wrong.mutated == "\U{C}\na==b\na!=c"
    ensures missed in MeantOf(lex, f) && missed !in MutantsOf(lex, f) && missed.mutated == "\U{C}\na!=b\na==c"
  {
    hide Uncapped, MeantBy, SitesOf, SiteAt, MutantAt, Wanted, Meant, T.Translated;
    lex := Letters();
    f := ChangedFile("a.sv", FORM_FEED, FORM_FEED, [(3, 3)], "", true, "", true);
    T.NothingTranslated(FORM_FEED);
    FormFeedLines();
    var j := JobOf(lex, f);
    OneLine(3);
    FormFeedChoice(j);
    FormFeedSites(j);
    FormFeedMutants(j);
    MutantNames(j, EqToNeq, 0);
    MutantNames(j, EqToNeq, 1);
    wrong, missed := MutantAt(j, EqToNeq, 1), MutantAt(j, EqToNeq, 0);
    WantedIsIncluded(j, 1, 1, |OPERATORS|);
    MeantIsIncluded(j, {3}, 1, 0, |OPERATORS|);
    UncappedAreWanted(j, |OPERATORS|);
    MeantAreMeant(j, {3}, |OPERATORS|);
  }
}
