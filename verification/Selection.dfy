/** Change-impact test selection: which declared tests a change allows to skip.

The design is a map from module name to the module types it instantiates.  Two
searches run over it in opposite directions: upward from the changed modules, and
downward from each test's top looking for hierarchy the index does not know. */
module Selection {
  import opened Sequences

  type Name = string

  datatype Module = Module(file: string, instances: seq<Name>)

  type Design = map<Name, Module>

  datatype Status = Added | Modified | Deleted

  /** `rtl` says that the path has a `.sv` or `.v` suffix. */
  datatype Change = Change(path: string, status: Status, isDoc: bool, rtl: bool)

  /** A declared test and the three runner keys that may name its top. */
  datatype Test = Test(name: Name, tbTop: string, toplevel: string, top: string)

  /** The file system's path functions. */
  datatype Paths = Paths(realPath: string -> string, inRoot: string -> string)

  /** What indexing the design's inputs reported. */
  datatype IndexReport = IndexReport(outsideWorkspace: bool, degraded: bool)

  datatype Warning = OutsideWorkspace | Degraded | NotIsolated(path: string) | NoTestMaps

  datatype Reason = ImpactUnknown | ContainsChange(top: Name) | UnresolvedHierarchy(top: Name) | NoAffectedTest

  datatype Plan = Plan(
    fullSuite: bool, selected: set<Name>, reasons: map<Name, Reason>, excluded: set<Name>,
    changed: set<Name>, affected: set<Name>, warnings: set<Warning>)

  function TopOf(t: Test): Name {
    if t.tbTop != "" then t.tbTop
    else if t.toplevel != "" then t.toplevel
    else if t.top != "" then t.top
    else "tb_" + t.name
  }

  /** The top is the first of the three keys that is set, or is named after the test. */
  lemma TopIsFirstSet(t: Test, i: nat)
    requires i < 3
    ensures var keys := [t.tbTop, t.toplevel, t.top];
      && (keys[i] != "" && (forall k :: k in keys[..i] ==> k == "") ==> TopOf(t) == keys[i])
      && ((forall k :: k in keys ==> k == "") ==> TopOf(t) == "tb_" + t.name)
  {
    var keys := [t.tbTop, t.toplevel, t.top];
    assert keys[0] in keys && keys[1] in keys && keys[2] in keys;
    assert i > 0 ==> keys[..i][0] == t.tbTop && t.tbTop in keys[..i];
    assert i == 2 ==> keys[..i][1] == t.toplevel && t.toplevel in keys[..i];
  }

  /** The indexed modules that the changed file declares. */
  function ModulesIn(ps: Paths, design: Design, c: Change): set<Name> {
    set n | n in design && ps.realPath(design[n].file) == ps.realPath(ps.inRoot(c.path))
  }

  predicate Isolated(ps: Paths, design: Design, c: Change) {
    c.isDoc || (!c.status.Deleted? && ModulesIn(ps, design, c) != {} && c.rtl)
  }

  /** The indexed module stands in the changed file. */
  ghost predicate Declares(ps: Paths, design: Design, c: Change, m: Name) {
    m in design && ps.realPath(design[m].file) == ps.realPath(ps.inRoot(c.path))
  }

  ghost predicate IsChanged(ps: Paths, design: Design, changes: seq<Change>, m: Name) {
    exists c :: c in changes && Declares(ps, design, c, m)
  }

  /** What the change can affect is known: it is documentation, or an RTL file that still exists
      and declares an indexed module. */
  ghost predicate Traced(ps: Paths, design: Design, c: Change) {
    c.isDoc || (!c.status.Deleted? && c.rtl && exists m :: Declares(ps, design, c, m))
  }

  lemma IsolatedMeans(ps: Paths, design: Design, c: Change)
    ensures Isolated(ps, design, c) <==> Traced(ps, design, c)
    ensures forall m :: m in ModulesIn(ps, design, c) <==> Declares(ps, design, c, m)
  {
    if m :| Declares(ps, design, c, m) { assert m in ModulesIn(ps, design, c); }
    if m :| m in ModulesIn(ps, design, c) { assert Declares(ps, design, c, m); }
  }

  // ---- the instance hierarchy ------------------------------------------------

  predicate Instantiates(design: Design, a: Name, b: Name) {
    a in design && b in design[a].instances
  }

  function Parents(design: Design, m: Name): set<Name> {
    set p | p in design && m in design[p].instances
  }

  ghost predicate IsPath(design: Design, p: seq<Name>) {
    p != [] && forall i :: 0 <= i < |p| - 1 ==> Instantiates(design, p[i], p[i + 1])
  }

  /** `b` is `a` itself or lies below it, through any number of instances. */
  ghost predicate Reaches(design: Design, a: Name, b: Name) {
    exists p :: IsPath(design, p) && p[0] == a && p[|p| - 1] == b
  }

  ghost predicate ReachesAny(design: Design, a: Name, targets: set<Name>) {
    exists b :: b in targets && Reaches(design, a, b)
  }

  ghost predicate ReachesUnindexed(design: Design, a: Name) {
    exists b :: b !in design && Reaches(design, a, b)
  }

  lemma ReachesSelf(design: Design, a: Name)
    ensures Reaches(design, a, a)
  {
    assert IsPath(design, [a]);
  }

  lemma ReachesAbove(design: Design, a: Name, b: Name, c: Name)
    requires Instantiates(design, a, b) && Reaches(design, b, c)
    ensures Reaches(design, a, c)
  {
    var p :| IsPath(design, p) && p[0] == b && p[|p| - 1] == c;
    assert IsPath(design, [a] + p);
  }

  lemma ReachesBelow(design: Design, a: Name, b: Name, c: Name)
    requires Reaches(design, a, b) && Instantiates(design, b, c)
    ensures Reaches(design, a, c)
  {
    var p :| IsPath(design, p) && p[0] == a && p[|p| - 1] == b;
    var q := p + [c];
    assert IsPath(design, q) && q[0] == a && q[|q| - 1] == c;
  }

  ghost predicate ClosedUpward(design: Design, s: set<Name>) {
    forall m :: m in s ==> Parents(design, m) <= s
  }

  ghost predicate ClosedDownward(design: Design, s: set<Name>) {
    forall a, b :: a in s && Instantiates(design, a, b) ==> b in s
  }

  lemma {:induction false} ClosedUpwardHoldsAncestors(design: Design, s: set<Name>, p: seq<Name>)
    requires ClosedUpward(design, s) && IsPath(design, p) && p[|p| - 1] in s
    ensures p[0] in s
    decreases |p|
  {
    if |p| > 1 {
      assert IsPath(design, p[1..]);
      ClosedUpwardHoldsAncestors(design, s, p[1..]);
      assert Instantiates(design, p[0], p[0 + 1]);
      assert p[0] in Parents(design, p[1]);
    }
  }

  lemma {:induction false} ClosedDownwardHoldsDescendants(design: Design, s: set<Name>, p: seq<Name>)
    requires ClosedDownward(design, s) && IsPath(design, p) && p[0] in s
    ensures p[|p| - 1] in s
    decreases |p|
  {
    if |p| > 1 {
      assert Instantiates(design, p[0], p[0 + 1]);
      assert IsPath(design, p[1..]);
      ClosedDownwardHoldsDescendants(design, s, p[1..]);
    }
  }

  // ---- the two searches --------------------------------------------------------

  /** Everything the upward search has met so far; `order` lists it in enqueueing order and
      the first `done` modules have had their parents added. */
  ghost predicate UpwardState(design: Design, direct: set<Name>, affected: set<Name>, order: seq<Name>, done: nat) {
    && direct <= affected <= design.Keys
    && NoDup(order) && Elements(order) == affected
    && (forall m :: m in affected ==> ReachesAny(design, m, direct))
    && ParentsAdded(design, affected, order, done)
  }

  ghost predicate ParentsAdded(design: Design, affected: set<Name>, order: seq<Name>, done: nat) {
    done <= |order| && forall i :: 0 <= i < done ==> Parents(design, order[i]) <= affected
  }

  lemma ParentsStayAdded(design: Design, affected: set<Name>, order: seq<Name>, done: nat, p: Name)
    requires ParentsAdded(design, affected, order, done)
    ensures ParentsAdded(design, affected + {p}, order + [p], done)
  {
  }

  lemma UpwardNext(design: Design, direct: set<Name>, affected: set<Name>, order: seq<Name>, done: nat)
    requires UpwardState(design, direct, affected, order, done)
    requires done < |order| && Parents(design, order[done]) <= affected
    ensures UpwardState(design, direct, affected, order, done + 1)
  {
  }

  lemma UpwardStart(design: Design, direct: set<Name>, order: seq<Name>)
    requires direct <= design.Keys && NoDup(order) && Elements(order) == direct
    ensures UpwardState(design, direct, direct, order, 0)
  {
    forall m | m in direct ensures ReachesAny(design, m, direct) { ReachesSelf(design, m); }
  }

  lemma UpwardStep(
    design: Design, direct: set<Name>, affected: set<Name>, order: seq<Name>, done: nat, x: Name, p: Name)
    requires UpwardState(design, direct, affected, order, done)
    requires x in affected && p in Parents(design, x) && p !in affected
    ensures UpwardState(design, direct, affected + {p}, order + [p], done)
  {
    hide NoDup, Reaches, ReachesAny, ParentsAdded;
    AncestorReachesAny(design, x, p, direct);
    assert p !in order by { assert p !in Elements(order); }
    NoDupAppend(order, p);
    ParentsStayAdded(design, affected, order, done, p);
  }

  lemma AncestorReachesAny(design: Design, x: Name, p: Name, direct: set<Name>)
    requires ReachesAny(design, x, direct) && p in Parents(design, x)
    ensures ReachesAny(design, p, direct)
  {
    hide Reaches;
    var b :| b in direct && Reaches(design, x, b);
    ReachesAbove(design, p, x, b);
  }

  lemma UpwardFacts(design: Design, direct: set<Name>, affected: set<Name>, order: seq<Name>, done: nat)
    requires UpwardState(design, direct, affected, order, done)
    ensures affected <= design.Keys && NoDup(order) && Elements(order) == affected
    ensures done < |order| ==> order[done] in affected
  {
  }

  lemma UpwardEnd(design: Design, direct: set<Name>, affected: set<Name>, order: seq<Name>)
    requires UpwardState(design, direct, affected, order, |order|)
    ensures forall m :: m in affected <==> ReachesAny(design, m, direct)
  {
    hide NoDup, ReachesAny;
    assert ClosedUpward(design, affected) by {
      forall m | m in affected ensures Parents(design, m) <= affected {
        assert m in Elements(order);
      }
    }
    forall m | ReachesAny(design, m, direct) ensures m in affected {
      AncestorsAreIn(design, affected, m, direct);
    }
  }

  lemma AncestorsAreIn(design: Design, s: set<Name>, m: Name, direct: set<Name>)
    requires ClosedUpward(design, s) && direct <= s && ReachesAny(design, m, direct)
    ensures m in s
  {
    var b :| b in direct && Reaches(design, m, b);
    var p :| IsPath(design, p) && p[0] == m && p[|p| - 1] == b;
    ClosedUpwardHoldsAncestors(design, s, p);
  }

  /** The upward worklist.  `order` is every module ever enqueued and `order[head..]` the
      queue.  The result is exactly the modules from which a changed module is reachable,
      and no module is enqueued twice. */
  method AffectedModules(design: Design, direct: set<Name>) returns (affected: set<Name>, order: seq<Name>)
    requires direct <= design.Keys
    ensures forall m :: m in affected <==> ReachesAny(design, m, direct)
    ensures NoDup(order) && Elements(order) == affected
  {
    hide UpwardState, ReachesAny;
    affected := direct;
    order := Enumerate(direct);
    var head := 0;
    UpwardStart(design, direct, order);
    while head < |order|
      invariant affected <= design.Keys && NoDup(order) && Elements(order) == affected
      invariant head <= |order| && UpwardState(design, direct, affected, order, head)
      decreases design.Keys - affected, |order| - head
    {
      affected, order := EnqueueParents(design, direct, affected, order, head);
      UpwardNext(design, direct, affected, order, head);
      head := head + 1;
    }
    UpwardEnd(design, direct, affected, order);
  }

  method EnqueueParents(design: Design, ghost direct: set<Name>, affected: set<Name>, order: seq<Name>, head: nat)
    returns (affected': set<Name>, order': seq<Name>)
    requires UpwardState(design, direct, affected, order, head) && head < |order|
    ensures UpwardState(design, direct, affected', order', head)
    ensures affected' <= design.Keys && NoDup(order') && Elements(order') == affected'
    ensures affected' == affected + Parents(design, order[head])
    ensures order <= order' && (affected' == affected ==> order' == order)
  {
    hide UpwardState, Parents, NoDup, Elements;
    affected', order' := affected, order;
    var x := order[head];
    UpwardFacts(design, direct, affected, order, head);
    var added := Parents(design, x) - affected;
    while added != {}
      invariant added !! affected' && added <= Parents(design, x) <= affected' + added
      invariant affected <= affected' <= affected + Parents(design, x)
      invariant order <= order' && (affected' == affected ==> order' == order)
      invariant UpwardState(design, direct, affected', order', head)
      decreases |added|
    {
      var p :| p in added;
      UpwardStep(design, direct, affected', order', head, x, p);
      affected', order' := affected' + {p}, order' + [p];
      added := added - {p};
    }
    UpwardFacts(design, direct, affected', order', head);
  }

  /** The downward stack search from a test's top: does it meet a module the index lacks? */
  method Unresolved(design: Design, top: Name) returns (found: bool)
    ensures found <==> ReachesUnindexed(design, top)
  {
    var seen: set<Name>, pending := {}, [top];
    ReachesSelf(design, top);
    while pending != []
      invariant seen <= design.Keys
      invariant top in seen || top in pending
      invariant forall m :: m in seen || m in pending ==> Reaches(design, top, m)
      invariant forall a, b :: a in seen && Instantiates(design, a, b) ==> b in seen || b in pending
      decreases design.Keys - seen, |pending|
    {
      var name := pending[|pending| - 1];
      var rest := pending[..|pending| - 1];
      assert pending == rest + [name];
      pending := rest;
      if name in seen {
        continue;
      }
      if name !in design {
        return true;
      }
      seen := seen + {name};
      forall b | b in design[name].instances ensures Reaches(design, top, b) {
        ReachesBelow(design, top, name, b);
      }
      pending := pending + design[name].instances;
    }
    forall b | Reaches(design, top, b) ensures b in seen {
      var p :| IsPath(design, p) && p[0] == top && p[|p| - 1] == b;
      ClosedDownwardHoldsDescendants(design, seen, p);
    }
    found := false;
  }

  // ---- the plan ------------------------------------------------------------------

  ghost predicate UniqueNames(tests: seq<Test>) {
    forall i, j :: 0 <= i < j < |tests| ==> tests[i].name != tests[j].name
  }

  /** A reason to run everything that does not depend on the declared tests. */
  ghost predicate Broad(ps: Paths, design: Design, ix: IndexReport, changes: seq<Change>) {
    || ix.outsideWorkspace || ix.degraded
    || (exists c :: c in changes && !Traced(ps, design, c))
    || (forall m :: !IsChanged(ps, design, changes, m))
  }

  /** The test's top reaches a changed module, or hierarchy the index does not know. */
  ghost predicate Affected(ps: Paths, design: Design, changes: seq<Change>, t: Test) {
    || (exists m :: IsChanged(ps, design, changes, m) && Reaches(design, TopOf(t), m))
    || ReachesUnindexed(design, TopOf(t))
  }

  /** The tests a plan keeps, said without either search. */
  ghost predicate Selects(ps: Paths, design: Design, ix: IndexReport, changes: seq<Change>, tests: seq<Test>, t: Test) {
    || Broad(ps, design, ix, changes)
    || (forall u :: u in tests ==> !Affected(ps, design, changes, u))
    || Affected(ps, design, changes, t)
  }

  lemma ChangedByPath(ps: Paths, design: Design, changes: seq<Change>)
    ensures forall m :: IsChanged(ps, design, changes, m) <==>
      m in design && exists c :: c in changes && ps.realPath(design[m].file) == ps.realPath(ps.inRoot(c.path))
  {
    forall m | m in design && exists c :: c in changes && ps.realPath(design[m].file) == ps.realPath(ps.inRoot(c.path))
      ensures IsChanged(ps, design, changes, m)
    {
      var c :| c in changes && ps.realPath(design[m].file) == ps.realPath(ps.inRoot(c.path));
      assert Declares(ps, design, c, m);
    }
  }

  method DirectlyChanged(ps: Paths, design: Design, changes: seq<Change>)
    returns (direct: set<Name>, warnings: set<Warning>)
    ensures direct <= design.Keys
    ensures forall m :: m in direct <==> IsChanged(ps, design, changes, m)
    ensures warnings == {} <==> forall c :: c in changes ==> Traced(ps, design, c)
    ensures forall w :: w in warnings <==>
      exists c :: c in changes && !Traced(ps, design, c) && w == NotIsolated(c.path)
  {
    direct, warnings := {}, {};
    for i := 0 to |changes|
      invariant direct <= design.Keys
      invariant forall m :: m in direct <==> IsChanged(ps, design, changes[..i], m)
      invariant forall w :: w in warnings <==>
        exists c :: c in changes[..i] && !Traced(ps, design, c) && w == NotIsolated(c.path)
    {
      assert changes[..i + 1] == changes[..i] + [changes[i]];
      IsolatedMeans(ps, design, changes[i]);
      direct := direct + ModulesIn(ps, design, changes[i]);
      if !Isolated(ps, design, changes[i]) {
        warnings := warnings + {NotIsolated(changes[i].path)};
      }
    }
    assert changes[..|changes|] == changes;
    forall c | c in changes && !Traced(ps, design, c) ensures warnings != {} {
      assert NotIsolated(c.path) in warnings;
    }
  }

  function Names(tests: seq<Test>): set<Name> {
    set t | t in tests :: t.name
  }

  lemma NamesOf(tests: seq<Test>)
    requires UniqueNames(tests)
    ensures |Names(tests)| == |tests|
    ensures forall t :: t in tests ==> t.name in Names(tests)
    ensures forall n :: n in Names(tests) ==> exists t :: t in tests && t.name == n
    ensures tests != [] ==> tests[0].name in Names(tests)
  {
    var names := seq(|tests|, i requires 0 <= i < |tests| => tests[i].name);
    NoDupCardinality(names);
    assert Elements(names) == Names(tests) by {
      forall n | n in Names(tests) ensures n in names {
        var t :| t in tests && t.name == n;
        var i :| 0 <= i < |tests| && tests[i] == t;
        assert names[i] == n;
      }
    }
  }

  /** The downward test of one top, in terms of what the upward search found. */
  ghost predicate Keep(design: Design, affected: set<Name>, t: Test) {
    TopOf(t) in affected || ReachesUnindexed(design, TopOf(t))
  }

  /** A reason given before any full-suite fallback holds of its test. */
  ghost predicate Explains(design: Design, broad: bool, affected: set<Name>, t: Test, r: Reason) {
    match r
    case ImpactUnknown => broad
    case ContainsChange(top) => !broad && top == TopOf(t) && top in affected
    case UnresolvedHierarchy(top) => !broad && top == TopOf(t) && top !in affected && ReachesUnindexed(design, top)
    case NoAffectedTest => false
  }

  /** Why each kept test is kept, before any full-suite fallback. */
  method ReasonsFor(design: Design, broad: bool, affected: set<Name>, tests: seq<Test>)
    returns (reasons: map<Name, Reason>)
    requires UniqueNames(tests)
    ensures reasons.Keys <= Names(tests)
    ensures forall t :: t in tests ==> (t.name in reasons <==> broad || Keep(design, affected, t))
    ensures forall t :: t in tests && t.name in reasons ==> Explains(design, broad, affected, t, reasons[t.name])
  {
    hide ReachesUnindexed;
    reasons := map[];
    for i := 0 to |tests|
      invariant forall n :: n in reasons ==> exists j :: 0 <= j < i && tests[j].name == n
      invariant forall j :: 0 <= j < i ==> (tests[j].name in reasons <==> broad || Keep(design, affected, tests[j]))
      invariant forall j :: 0 <= j < i && tests[j].name in reasons ==>
        Explains(design, broad, affected, tests[j], reasons[tests[j].name])
    {
      var top := TopOf(tests[i]);
      if broad {
        reasons := reasons[tests[i].name := ImpactUnknown];
      } else if top in affected {
        reasons := reasons[tests[i].name := ContainsChange(top)];
      } else {
        var unresolved := Unresolved(design, top);
        if unresolved {
          reasons := reasons[tests[i].name := UnresolvedHierarchy(top)];
        }
      }
    }
  }

  lemma KeepMeansAffected(
    ps: Paths, design: Design, changes: seq<Change>, direct: set<Name>, affected: set<Name>, t: Test)
    requires forall m :: m in direct <==> IsChanged(ps, design, changes, m)
    requires forall m :: m in affected <==> ReachesAny(design, m, direct)
    ensures Keep(design, affected, t) <==> Affected(ps, design, changes, t)
  {
    hide IsChanged, Reaches, ReachesUnindexed;
  }

  lemma BroadMeans(ps: Paths, design: Design, ix: IndexReport, changes: seq<Change>, direct: set<Name>)
    requires forall m :: m in direct <==> IsChanged(ps, design, changes, m)
    ensures Broad(ps, design, ix, changes) <==>
      ix.outsideWorkspace || ix.degraded || (exists c :: c in changes && !Traced(ps, design, c)) || direct == {}
  {
    hide IsChanged, Traced;
  }

  /** A reason reported to the user holds of its test. */
  ghost predicate Justified(
    ps: Paths, design: Design, ix: IndexReport, changes: seq<Change>, tests: seq<Test>, t: Test, r: Reason)
  {
    match r
    case ImpactUnknown => Broad(ps, design, ix, changes)
    case ContainsChange(top) =>
      top == TopOf(t) && exists m :: IsChanged(ps, design, changes, m) && Reaches(design, top, m)
    case UnresolvedHierarchy(top) => top == TopOf(t) && ReachesUnindexed(design, top)
    case NoAffectedTest =>
      !Broad(ps, design, ix, changes) && forall u :: u in tests ==> !Affected(ps, design, changes, u)
  }

  lemma ExplainsJustifies(
    ps: Paths, design: Design, ix: IndexReport, changes: seq<Change>, tests: seq<Test>,
    direct: set<Name>, affected: set<Name>, broad: bool, t: Test, r: Reason)
    requires forall m :: m in direct <==> IsChanged(ps, design, changes, m)
    requires forall m :: m in affected <==> ReachesAny(design, m, direct)
    requires broad == Broad(ps, design, ix, changes)
    requires Explains(design, broad, affected, t, r)
    ensures Justified(ps, design, ix, changes, tests, t, r)
  {
  }

  lemma FallbackJustified(ps: Paths, design: Design, ix: IndexReport, changes: seq<Change>, tests: seq<Test>)
    requires !Broad(ps, design, ix, changes) && forall u :: u in tests ==> !Affected(ps, design, changes, u)
    ensures forall t :: t in tests ==> Justified(ps, design, ix, changes, tests, t, NoAffectedTest)
  {
  }

  /** Choose the tests a change may not skip. */
  method Select(ps: Paths, design: Design, ix: IndexReport, changes: seq<Change>, tests: seq<Test>) returns (plan: Plan)
    requires UniqueNames(tests)
    ensures forall t :: t in tests ==> (t.name in plan.selected <==> Selects(ps, design, ix, changes, tests, t))
    // a test is left out exactly when every change is traced to indexed modules, the index is
    // whole, and the changes affect some test but not this one
    ensures forall t :: t in tests ==>
      (t.name in plan.excluded <==>
        && !ix.outsideWorkspace && !ix.degraded && (forall c :: c in changes ==> Traced(ps, design, c))
        && plan.changed != {} && (exists u :: u in tests && Affected(ps, design, changes, u))
        && !Affected(ps, design, changes, t))
    ensures plan.selected <= Names(tests) && plan.excluded == Names(tests) - plan.selected
    ensures forall t :: t in tests && t.name in plan.excluded ==>
      forall m :: Reaches(design, TopOf(t), m) ==> m in design && m !in plan.changed
    ensures plan.reasons.Keys == plan.selected
    ensures forall t :: t in tests && t.name in plan.reasons ==>
      Justified(ps, design, ix, changes, tests, t, plan.reasons[t.name])
    ensures tests != [] ==> plan.selected != {}
    ensures plan.fullSuite <==> plan.excluded == {}
    ensures forall m :: m in plan.changed <==>
      m in design && exists c :: c in changes && ps.realPath(design[m].file) == ps.realPath(ps.inRoot(c.path))
    ensures forall m :: m in plan.affected <==> ReachesAny(design, m, plan.changed)
    ensures plan.excluded != {} ==> plan.warnings == {}
  {
    hide Broad, Affected, IsChanged, ReachesAny, Names, Keep, UniqueNames, Explains, Justified, Reaches, Traced;
    NamesOf(tests);
    var direct, warnings := DirectlyChanged(ps, design, changes);
    warnings := warnings + (if ix.outsideWorkspace then {OutsideWorkspace} else {}) +
      (if ix.degraded then {Degraded} else {});
    var affected, _ := AffectedModules(design, direct);
    var broad := warnings != {} || direct == {};
    BroadMeans(ps, design, ix, changes, direct);
    var reasons := ReasonsFor(design, broad, affected, tests);
    forall t | t in tests
      ensures t.name in reasons <==> Broad(ps, design, ix, changes) || Affected(ps, design, changes, t)
    {
      KeepMeansAffected(ps, design, changes, direct, affected, t);
    }
    forall t | t in tests && t.name in reasons
      ensures Justified(ps, design, ix, changes, tests, t, reasons[t.name])
    {
      ExplainsJustifies(ps, design, ix, changes, tests, direct, affected, broad, t, reasons[t.name]);
    }
    if tests != [] && reasons == map[] {
      warnings := warnings + {NoTestMaps};
      FallbackJustified(ps, design, ix, changes, tests);
      reasons := map n | n in Names(tests) :: NoAffectedTest;
    }
    forall t | t in tests && !Selects(ps, design, ix, changes, tests, t)
      ensures forall m :: Reaches(design, TopOf(t), m) ==> m in design && m !in direct
    {
      ExclusionIsSafe(ps, design, ix, changes, tests, t);
    }
    SubsetCardinality(reasons.Keys, Names(tests));
    ChangedByPath(ps, design, changes);
    plan := Plan(
      |reasons.Keys| == |tests|, reasons.Keys, reasons, Names(tests) - reasons.Keys, direct, affected, warnings);
  }

  // ---- what the plan guarantees ----------------------------------------------------

  /** Exclusion is safe: nothing below an excluded test's top is changed or unknown. */
  lemma ExclusionIsSafe(ps: Paths, design: Design, ix: IndexReport, changes: seq<Change>, tests: seq<Test>, t: Test)
    requires t in tests && !Selects(ps, design, ix, changes, tests, t)
    ensures forall m :: Reaches(design, TopOf(t), m) ==> m in design && !IsChanged(ps, design, changes, m)
    ensures forall c :: c in changes ==> Traced(ps, design, c)
  {
  }

  /** Nothing forces the full suite except that the changes map to no module or no test. */
  ghost predicate FallsBack(ps: Paths, design: Design, ix: IndexReport, changes: seq<Change>, tests: seq<Test>) {
    && !ix.outsideWorkspace && !ix.degraded && (forall c :: c in changes ==> Traced(ps, design, c))
    && ((forall m :: !IsChanged(ps, design, changes, m))
        || (forall u :: u in tests ==> !Affected(ps, design, changes, u)))
  }

  /** Adding changes drops no test exactly when the first plan was not such a fallback, or the
      new changes give a reason to run everything, or affect every test, or affect none. */
  lemma MoreChangesKeepTests(
    ps: Paths, design: Design, ix: IndexReport, changes: seq<Change>, more: seq<Change>, tests: seq<Test>)
    ensures
      (forall t :: t in tests && Selects(ps, design, ix, changes, tests, t) ==>
        Selects(ps, design, ix, changes + more, tests, t))
      <==>
      || !FallsBack(ps, design, ix, changes, tests)
      || Broad(ps, design, ix, changes + more)
      || (forall t :: t in tests ==> Affected(ps, design, changes + more, t))
      || (forall t :: t in tests ==> !Affected(ps, design, changes + more, t))
  {
    hide Traced, Reaches, Declares, ReachesUnindexed;
    MoreChangesAffectMore(ps, design, changes, more);
  }

  lemma MoreChangesAffectMore(ps: Paths, design: Design, changes: seq<Change>, more: seq<Change>)
    ensures forall m :: IsChanged(ps, design, changes, m) ==> IsChanged(ps, design, changes + more, m)
    ensures forall t :: Affected(ps, design, changes, t) ==> Affected(ps, design, changes + more, t)
  {
    hide Reaches, Declares, ReachesUnindexed;
  }

  /** The selection can shrink: a change that maps to no test runs everything, and a second
      change that does map narrows the plan to one test. */
  lemma SelectionIsNotMonotone()
    returns (
      ps: Paths, design: Design, ix: IndexReport, changes: seq<Change>, more: seq<Change>, tests: seq<Test>, t: Test)
    ensures t in tests && UniqueNames(tests)
    ensures Selects(ps, design, ix, changes, tests, t) && !Selects(ps, design, ix, changes + more, tests, t)
  {
    hide Selects;
    ps := Paths(p => p, p => p);
    design := map["a" := Module("a", []), "b" := Module("b", []), "t" := Module("t", [])];
    ix := IndexReport(false, false);
    var ca, cb := Change("a", Modified, false, true), Change("b", Modified, false, true);
    var ta := Test("1", "a", "", "");
    t := Test("2", "t", "", "");
    changes, more, tests := [cb], [ca], [ta, t];
    ChangedLeaf(ps, design, "b", cb);
    ChangedLeaf(ps, design, "a", ca);
    ShrinkingPlan(ps, design, ix, ca, cb, ta, t);
  }

  lemma ChangedLeaf(ps: Paths, design: Design, n: Name, c: Change)
    requires n in design && ps == Paths(p => p, p => p)
    requires forall m :: m in design ==> design[m].file == m
    requires c == Change(n, Modified, false, true)
    ensures Traced(ps, design, c) && forall m :: Declares(ps, design, c, m) <==> m == n
  {
    assert Declares(ps, design, c, n);
  }

  /** `ta`'s top is the changed leaf of `ca`; no test's top is `cb`'s. */
  lemma ShrinkingPlan(ps: Paths, design: Design, ix: IndexReport, ca: Change, cb: Change, ta: Test, tt: Test)
    requires !ix.outsideWorkspace && !ix.degraded && Traced(ps, design, ca) && Traced(ps, design, cb)
    requires forall m :: m in design ==> design[m].instances == []
    requires exists m :: Declares(ps, design, cb, m)
    requires forall m :: Declares(ps, design, ca, m) <==> m == TopOf(ta)
    requires TopOf(ta) in design && TopOf(tt) in design && TopOf(ta) != TopOf(tt)
    requires !Declares(ps, design, cb, TopOf(ta)) && !Declares(ps, design, cb, TopOf(tt))
    ensures Selects(ps, design, ix, [cb], [ta, tt], tt)
    ensures !Selects(ps, design, ix, [cb] + [ca], [ta, tt], tt)
  {
    hide Traced, Declares, Reaches;
    LeafAffected(ps, design, [cb], ta);
    LeafAffected(ps, design, [cb], tt);
    LeafAffected(ps, design, [cb] + [ca], ta);
    LeafAffected(ps, design, [cb] + [ca], tt);
    assert ca in [cb] + [ca] && ta in [ta, tt];
  }

  lemma LeafAffected(ps: Paths, design: Design, changes: seq<Change>, t: Test)
    requires TopOf(t) in design && design[TopOf(t)].instances == []
    ensures Affected(ps, design, changes, t) <==> IsChanged(ps, design, changes, TopOf(t))
  {
    ReachesSelf(design, TopOf(t));
    forall y | Reaches(design, TopOf(t), y) ensures y == TopOf(t) {
      var p :| IsPath(design, p) && p[0] == TopOf(t) && p[|p| - 1] == y;
      assert |p| > 1 ==> Instantiates(design, p[0], p[0 + 1]);
    }
  }
}
